/** What the skill runner accepts and reads: bounded reads, input descriptors and the input map. */
module RunnerInput {
  import opened Text
  import opened Wrappers

  const MAX_ITEMS: nat := 16
  const INPUT_MAX: nat := 33_554_432
  const AGGREGATE_MAX: nat := 67_108_864
  const MAGIC_MAX_ITEMS: nat := 16
  const MAGIC_MAX_BYTES: nat := 64
  const CHUNK: nat := 65_536

  // ---------------------------------------------------------------- bounded reads

  /** An open file.  A read may be short, and is empty only at the end. */
  class Source {
    const data: string
    var pos: nat
    ghost var faults: nat

    ghost predicate Valid()
      reads this
    {
      pos <= |data|
    }

    constructor (data: string)
      ensures Valid() && this.data == data && pos == 0 && faults == 0
    {
      this.data := data;
      pos := 0;
      faults := 0;
    }

    /** `os.read`; None when it raises. */
    method Read(most: nat) returns (chunk: Option<string>)
      requires Valid() && most > 0
      modifies this
      ensures Valid()
      ensures faults == old(faults) + (if chunk.None? then 1 else 0)
      ensures chunk.None? ==> pos == old(pos)
      ensures chunk.Some? ==>
        && |chunk.value| <= most && pos == old(pos) + |chunk.value| && chunk.value == data[old(pos)..pos]
        && (chunk.value == "" ==> pos == |data|)
    {
      if * {
        faults := faults + 1;
        return None;
      }
      var n: int := *;
      if pos == |data| {
        n := 0;
      } else if n <= 0 || most < n || |data| - pos < n {
        n := 1;
      }
      chunk := Some(data[pos..pos + n]);
      pos := pos + n;
    }
  }

  /**
   `_read_bounded_fd`: for every chunking the result is the whole rest of the file, and only when
   that is exactly the declared size; at most one byte more is consumed.  Unless a read raises,
   the sizes alone decide.
   */
  method ReadBoundedFd(f: Source, size: int, cap: nat) returns (r: Option<string>)
    requires f.Valid()
    modifies f
    ensures f.Valid() && old(f.pos) <= f.pos
    ensures size < 0 || size > cap ==> r.None? && f.pos == old(f.pos)
    ensures size >= 0 ==> f.pos - old(f.pos) <= size + 1
    ensures r.Some? ==> 0 <= size <= cap && r.value == f.data[old(f.pos)..] && |r.value| == size
    ensures 0 <= size <= cap && |f.data| - old(f.pos) != size ==> r.None?
    ensures 0 <= size <= cap && |f.data| - old(f.pos) == size && f.faults == old(f.faults) ==> r.Some?
  {
    if size < 0 || size > cap {
      return None;
    }
    var remaining: nat := size + 1;
    var value := "";
    while remaining > 0
      invariant f.Valid() && old(f.pos) <= f.pos && remaining == size + 1 - |value|
      invariant value == f.data[old(f.pos)..f.pos] && f.faults == old(f.faults)
      decreases remaining
    {
      var chunk := f.Read(if CHUNK <= remaining then CHUNK else remaining);
      if chunk.None? {
        return None;
      }
      if chunk.value == "" {
        break;
      }
      value := value + chunk.value;
      remaining := remaining - |chunk.value|;
    }
    r := if |value| != size then None else Some(value);
  }

  // ---------------------------------------------------------------- descriptors

  /** One element of `inputs`; `Malformed` has other keys, or a field of another type. */
  datatype Descriptor = Descriptor(slot: string, size: int, sha256: string, magic: seq<string>) | Malformed

  /** `^[a-z][a-z0-9_-]{0,63}$`. */
  predicate IsSlot(s: string) {
    && 1 <= |s| <= 64 && 'a' <= s[0] <= 'z'
    && forall i :: 0 < i < |s| ==> 'a' <= s[i] <= 'z' || '0' <= s[i] <= '9' || s[i] == '_' || s[i] == '-'
  }

  /** A list of even hexadecimal strings, sorted and without repetition. */
  predicate ValidMagic(magic: seq<string>) {
    && |magic| <= MAGIC_MAX_ITEMS
    && (forall i :: 0 <= i < |magic| ==>
          && 2 <= |magic[i]| <= 2 * MAGIC_MAX_BYTES + 1 && |magic[i]| % 2 == 0
          && forall j :: 0 <= j < |magic[i]| ==> IsHexDigit(magic[i][j]))
    && (forall i :: 0 < i < |magic| ==> StringBelow(magic[i - 1], magic[i]))
  }

  predicate ValidAlone(d: Descriptor) {
    d.Descriptor? && IsSlot(d.slot) && 0 <= d.size <= INPUT_MAX && IsDigest(d.sha256) && ValidMagic(d.magic)
  }

  predicate IsLower(c: char) {
    0x61 <= c as int <= 0x7A
  }

  /** `^[a-z][a-z0-9_-]{0,63}$`, and the bounds of every other field, spelled out. */
  lemma ValidAloneIs(d: Descriptor)
    ensures ValidAlone(d) <==>
      && d.Descriptor?
      && 1 <= |d.slot| <= 64 && IsLower(d.slot[0])
      && (forall i :: 1 <= i < |d.slot| ==>
            IsLower(d.slot[i]) || 0x30 <= d.slot[i] as int <= 0x39 || d.slot[i] == '_' || d.slot[i] == '-')
      && 0 <= d.size <= 33_554_432
      && |d.sha256| == 64 && (forall i :: 0 <= i < 64 ==> d.sha256[i] in "0123456789abcdef")
      && |d.magic| <= 16 && (forall i :: 0 <= i < |d.magic| ==> IsMagic(d.magic[i]))
      && (forall i :: 0 <= i < |d.magic| - 1 ==> Below(d.magic[i], d.magic[i + 1]))
  {
    if d.Descriptor? {
      SlotIs(d.slot);
      DigestIs(d.sha256);
      MagicIs(d.magic);
    }
  }

  lemma SlotIs(slot: string)
    ensures IsSlot(slot) <==>
      && 1 <= |slot| <= 64 && IsLower(slot[0])
      && forall i :: 1 <= i < |slot| ==>
           IsLower(slot[i]) || 0x30 <= slot[i] as int <= 0x39 || slot[i] == '_' || slot[i] == '-'
  {
  }

  lemma DigestIs(digest: string)
    ensures IsDigest(digest) <==> |digest| == 64 && forall i :: 0 <= i < 64 ==> digest[i] in "0123456789abcdef"
  {
    forall i | 0 <= i < |digest|
      ensures IsHexDigit(digest[i]) <==> digest[i] in "0123456789abcdef"
    {
      DigitsAre(digest[i]);
    }
  }

  /** One to 64 bytes, as two lower-case hexadecimal digits each. */
  predicate IsMagic(m: string) {
    |m| % 2 == 0 && 1 <= |m| / 2 <= 64 && forall i :: 0 <= i < |m| ==> m[i] in "0123456789abcdef"
  }

  /** At the first difference the first string ends, or has the smaller character. */
  ghost predicate Below(a: string, b: string) {
    exists n :: SmallerAt(a, b, n)
  }

  lemma MagicIs(magic: seq<string>)
    ensures ValidMagic(magic) <==>
      && |magic| <= 16 && (forall i :: 0 <= i < |magic| ==> IsMagic(magic[i]))
      && forall i :: 0 <= i < |magic| - 1 ==> Below(magic[i], magic[i + 1])
  {
    forall i | 0 <= i < |magic|
      ensures IsMagic(magic[i]) <==>
        && 2 <= |magic[i]| <= 129 && |magic[i]| % 2 == 0 && forall j :: 0 <= j < |magic[i]| ==> IsHexDigit(magic[i][j])
    {
      OneMagicIs(magic[i]);
    }
    forall i | 0 <= i < |magic| - 1
      ensures Below(magic[i], magic[i + 1]) <==> StringBelow(magic[i], magic[i + 1])
    {
      StringBelowIff(magic[i], magic[i + 1]);
    }
    assert forall i :: 0 <= i < |magic| - 1 ==> magic[i + 1 - 1] == magic[i];
  }

  lemma OneMagicIs(m: string)
    ensures IsMagic(m) <==> 2 <= |m| <= 129 && |m| % 2 == 0 && forall j :: 0 <= j < |m| ==> IsHexDigit(m[j])
  {
    forall j | 0 <= j < |m|
      ensures IsHexDigit(m[j]) <==> m[j] in "0123456789abcdef"
    {
      DigitsAre(m[j]);
    }
  }

  function Total(ds: seq<Descriptor>): int {
    if ds == [] then 0 else Total(ds[..|ds| - 1]) + (if ds[|ds| - 1].Descriptor? then ds[|ds| - 1].size else 0)
  }

  ghost predicate DistinctSlots(ds: seq<Descriptor>) {
    forall i, j :: 0 <= i < j < |ds| && ds[i].Descriptor? && ds[j].Descriptor? ==> ds[i].slot != ds[j].slot
  }

  /** What an accepted list of inputs is. */
  ghost predicate Acceptable(ds: seq<Descriptor>) {
    && |ds| <= 16 && (forall i :: 0 <= i < |ds| ==> ValidAlone(ds[i]))
    && DistinctSlots(ds) && Total(ds) <= 67_108_864
  }

  lemma {:induction false} TotalGrows(ds: seq<Descriptor>, n: nat)
    requires n <= |ds| && forall i :: 0 <= i < |ds| ==> ValidAlone(ds[i])
    ensures 0 <= Total(ds[..n]) <= Total(ds)
    decreases |ds|
  {
    if n == |ds| {
      assert ds[..n] == ds;
      if ds != [] {
        TotalGrows(ds[..|ds| - 1], |ds| - 1);
      }
    } else {
      assert ds[..|ds| - 1][..n] == ds[..n];
      TotalGrows(ds[..|ds| - 1], n);
    }
  }

  lemma PrefixAcceptable(ds: seq<Descriptor>, n: nat)
    requires Acceptable(ds) && n <= |ds|
    ensures Acceptable(ds[..n])
  {
    TotalGrows(ds, n);
  }

  function SlotsOf(ds: seq<Descriptor>): set<string> {
    set i | 0 <= i < |ds| && ds[i].Descriptor? :: ds[i].slot
  }

  lemma SlotsOfMore(ds: seq<Descriptor>, d: Descriptor)
    requires d.Descriptor?
    ensures SlotsOf(ds + [d]) == SlotsOf(ds) + {d.slot}
  {
    var more := ds + [d];
    forall slot | slot in SlotsOf(ds)
      ensures slot in SlotsOf(more)
    {
      var i :| 0 <= i < |ds| && ds[i].Descriptor? && ds[i].slot == slot;
      assert more[i] == ds[i];
    }
    assert more[|ds|] == d;
  }

  lemma DistinctMore(ds: seq<Descriptor>, d: Descriptor)
    requires DistinctSlots(ds) && d.Descriptor?
    ensures DistinctSlots(ds + [d]) <==> d.slot !in SlotsOf(ds)
  {
    var more := ds + [d];
    assert more[|ds|] == d;
    if d.slot in SlotsOf(ds) {
      var i :| 0 <= i < |ds| && ds[i].Descriptor? && ds[i].slot == d.slot;
      assert more[i] == ds[i];
    } else {
      forall i, j | 0 <= i < j < |more| && more[i].Descriptor? && more[j].Descriptor?
        ensures more[i].slot != more[j].slot
      {
        assert ds[i].slot in SlotsOf(ds);
      }
    }
  }

  /** One more descriptor is acceptable when it is valid, its slot is new, and the sum stays in bounds. */
  lemma OneMore(ds: seq<Descriptor>, d: Descriptor)
    requires Acceptable(ds) && |ds| < MAX_ITEMS
    ensures Acceptable(ds + [d]) <==> ValidAlone(d) && d.slot !in SlotsOf(ds) && Total(ds) + d.size <= AGGREGATE_MAX
    ensures ValidAlone(d) ==> Total(ds + [d]) == Total(ds) + d.size
  {
    var more := ds + [d];
    assert more[..|ds|] == ds;
    assert more[|ds|] == d;
    if d.Descriptor? {
      DistinctMore(ds, d);
    }
    if ValidAlone(d) {
      forall i | 0 <= i < |more|
        ensures ValidAlone(more[i])
      {
        assert i < |ds| ==> more[i] == ds[i];
      }
    }
  }

  /** `_validate_input_descriptors`: the running sum and the slot set accept exactly the acceptable lists. */
  method ValidateInputDescriptors(value: seq<Descriptor>) returns (ok: bool)
    ensures ok <==> Acceptable(value)
  {
    if |value| > MAX_ITEMS {
      return false;
    }
    var total, slots: set<string> := 0, {};
    var i := 0;
    while i < |value|
      invariant 0 <= i <= |value|
      invariant Acceptable(value[..i]) && slots == SlotsOf(value[..i]) && total == Total(value[..i])
    {
      var d := value[i];
      OneMore(value[..i], d);
      assert value[..i + 1] == value[..i] + [d];
      if !ValidAlone(d) || d.slot in slots || total + d.size > AGGREGATE_MAX {
        NotAcceptable(value, i + 1);
        return false;
      }
      SlotsOfMore(value[..i], d);
      total := total + d.size;
      slots := slots + {d.slot};
      i := i + 1;
    }
    assert value[..i] == value;
    ok := true;
  }

  lemma NotAcceptable(ds: seq<Descriptor>, n: nat)
    requires n <= |ds| && !Acceptable(ds[..n])
    ensures !Acceptable(ds)
  {
    if Acceptable(ds) {
      PrefixAcceptable(ds, n);
    }
  }

  // ---------------------------------------------------------------- the input map

  /** The dict comprehension over the accepted descriptors. */
  function InputMap(ds: seq<Descriptor>, values: seq<string>): map<string, string>
    requires |ds| == |values| && forall i :: 0 <= i < |ds| ==> ds[i].Descriptor?
  {
    if ds == [] then map[]
    else
      var n := |ds| - 1;
      InputMap(ds[..n], values[..n])[ds[n].slot := values[n]]
  }

  lemma {:induction false} InputKeys(ds: seq<Descriptor>, values: seq<string>)
    requires |ds| == |values| && forall i :: 0 <= i < |ds| ==> ds[i].Descriptor?
    ensures InputMap(ds, values).Keys == SlotsOf(ds)
    decreases |ds|
  {
    if ds != [] {
      var n := |ds| - 1;
      InputKeys(ds[..n], values[..n]);
      SlotsOfMore(ds[..n], ds[n]);
      assert ds[..n] + [ds[n]] == ds;
    }
  }

  /** One entry for each descriptor, none overwritten. */
  lemma {:induction false} InputMapHasAll(ds: seq<Descriptor>, values: seq<string>)
    requires |ds| == |values| && (forall i :: 0 <= i < |ds| ==> ds[i].Descriptor?) && DistinctSlots(ds)
    ensures var m := InputMap(ds, values);
            && |m| == |ds| && m.Keys == SlotsOf(ds)
            && forall i :: 0 <= i < |ds| ==> ds[i].slot in m && m[ds[i].slot] == values[i]
    decreases |ds|
  {
    InputKeys(ds, values);
    if ds != [] {
      var n := |ds| - 1;
      InputMapHasAll(ds[..n], values[..n]);
      assert ds[..n] + [ds[n]] == ds;
      DistinctMore(ds[..n], ds[n]);
      forall i | 0 <= i < n
        ensures ds[i].slot in SlotsOf(ds[..n])
      {
        assert ds[..n][i] == ds[i];
      }
      ValuesKept(ds, values, n);
    }
  }

  lemma ValuesKept(ds: seq<Descriptor>, values: seq<string>, n: nat)
    requires |ds| == |values| == n + 1 && (forall i :: 0 <= i < |ds| ==> ds[i].Descriptor?)
    requires var front := InputMap(ds[..n], values[..n]);
             && |front| == n && ds[n].slot !in front
             && forall i :: 0 <= i < n ==> ds[..n][i].slot in front && front[ds[..n][i].slot] == values[..n][i]
    ensures var m := InputMap(ds, values);
            |m| == |ds| && forall i :: 0 <= i < |ds| ==> ds[i].slot in m && m[ds[i].slot] == values[i]
  {
    forall i | 0 <= i < n
      ensures ds[i].slot == ds[..n][i].slot && values[i] == values[..n][i]
    {
    }
  }

  function TotalBytes(values: seq<string>): nat {
    if values == [] then 0 else TotalBytes(values[..|values| - 1]) + |values[|values| - 1]|
  }

  /** Inputs of their declared sizes total at most 64 MiB. */
  lemma {:induction false} BytesAreTotal(ds: seq<Descriptor>, values: seq<string>)
    requires |ds| == |values| && forall i :: 0 <= i < |ds| ==> ds[i].Descriptor? && |values[i]| == ds[i].size
    ensures TotalBytes(values) == Total(ds)
    decreases |ds|
  {
    if ds != [] {
      BytesAreTotal(ds[..|ds| - 1], values[..|ds| - 1]);
    }
  }
}
