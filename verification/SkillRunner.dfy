/**
 The skill runner's authenticated request: which descriptors it holds on every exit, what must
 have been checked before package code runs, and what is in the two output files.
 */
module SkillRunner {
  import opened Text
  import opened Wrappers
  import opened DirectoryTree
  import opened Descriptors
  import opened RuntimeWalk
  import opened RunnerInput
  import opened RunnerLimits

  const OUTPUT_MAX: nat := 67_108_864

  // ---------------------------------------------------------------- the request

  /** A Python value as `_validate_json` sees it. */
  datatype Value =
    | Plain
    | Float(finite: bool)
    | List(items: seq<Value>)
    | Dict(keysAreStrings: bool, values: seq<Value>)
    | Foreign

  predicate FiniteJson(v: Value) {
    match v
    case Plain => true
    case Float(finite) => finite
    case List(items) => forall i :: 0 <= i < |items| ==> FiniteJson(items[i])
    case Dict(keysAreStrings, values) =>
      (keysAreStrings || values == []) && forall i :: 0 <= i < |values| ==> FiniteJson(values[i])
    case Foreign => false
  }

  /** The fields that `_validate_script_descriptor` checks; a wrong type or key is `None` in the request. */
  datatype Script = Script(path: string, size: int, sha256: string)

  datatype Request = Request(
    keysClosed: bool,
    protocol: string,
    packageDigest: string,
    entrypointId: string,
    script: Option<Script>,
    arguments: Value,
    inputs: Option<seq<Descriptor>>,
    expectedKind: string,
    limitsDigest: string)

  predicate IsAlphanumeric(c: char) {
    'a' <= c <= 'z' || 'A' <= c <= 'Z' || '0' <= c <= '9'
  }

  predicate IsEntrypointId(s: string) {
    && 1 <= |s| <= 128 && IsAlphanumeric(s[0])
    && forall i :: 0 < i < |s| ==> IsAlphanumeric(s[i]) || s[i] == '_' || s[i] == '-'
  }

  predicate CanonicalScriptPath(path: string) {
    && "scripts/" <= path && '\\' !in path
    && forall i :: 0 <= i < |Split(path)| ==> Split(path)[i] !in {"", ".", ".."}
  }

  predicate ValidScript(s: Script) {
    CanonicalScriptPath(s.path) && 0 <= s.size <= INPUT_MAX && IsDigest(s.sha256)
  }

  predicate IsKind(kind: string) {
    kind == "observation" || kind == "artifact"
  }

  /** A component of a canonical path. */
  predicate IsComponent(part: string) {
    part != "" && part != "." && part != ".." && '/' !in part && '\\' !in part
  }

  /** The script's path is "scripts" and at least one more component, joined with slashes. */
  lemma CanonicalIff(path: string)
    ensures CanonicalScriptPath(path)
       <==> exists rest: seq<string> :: IsCanonical(path, rest)
  {
    if CanonicalScriptPath(path) {
      var rest := CanonicalParts(path);
    }
    forall rest: seq<string> | IsCanonical(path, rest)
      ensures CanonicalScriptPath(path)
    {
      CanonicalFrom(path, rest);
    }
  }

  predicate IsCanonical(path: string, rest: seq<string>) {
    && rest != [] && path == "scripts/" + JoinSlash(rest)
    && forall i :: 0 <= i < |rest| ==> IsComponent(rest[i])
  }

  lemma ScriptsFirst(path: string)
    requires "scripts/" <= path
    ensures Split(path) == ["scripts"] + Split(path[8..])
  {
    var rest := Split(path[8..]);
    var parts := ["scripts"] + rest;
    assert parts[1..] == rest;
    assert JoinSlash(parts) == "scripts" + "/" + path[8..];
    assert path[..8] == "scripts/" == "scripts" + "/";
    assert path == path[..8] + path[8..];
    assert '/' !in "scripts";
    SplitOfJoined(parts);
  }

  lemma {:induction false} SameCharacters(parts: seq<string>, c: char)
    requires c != '/'
    ensures c in JoinSlash(parts) <==> exists i :: 0 <= i < |parts| && c in parts[i]
  {
    if |parts| > 1 {
      SameCharacters(parts[1..], c);
      assert forall i :: 1 <= i < |parts| ==> parts[i] == parts[1..][i - 1];
      if c in JoinSlash(parts[1..]) {
        var i :| 0 <= i < |parts[1..]| && c in parts[1..][i];
        assert c in parts[i + 1];
      }
    }
  }

  lemma CanonicalParts(path: string) returns (rest: seq<string>)
    requires CanonicalScriptPath(path)
    ensures IsCanonical(path, rest)
  {
    ScriptsFirst(path);
    rest := Split(path[8..]);
    assert path == path[..8] + path[8..];
    SameCharacters(rest, '\\');
    assert forall i :: 0 <= i < |rest| ==> rest[i] == Split(path)[i + 1];
  }

  lemma CanonicalFrom(path: string, rest: seq<string>)
    requires IsCanonical(path, rest)
    ensures CanonicalScriptPath(path)
  {
    assert path[8..] == JoinSlash(rest);
    SplitOfJoined(rest);
    ScriptsFirst(path);
    SameCharacters(rest, '\\');
  }

  lemma EntrypointIdIs(s: string)
    ensures IsEntrypointId(s) <==> 1 <= |s| <= 128 && IsWord(s[0]) && forall i :: 1 <= i < |s| ==>
                                     IsWord(s[i]) || s[i] == '_' || s[i] == '-'
  {
  }

  /** An ASCII letter or digit. */
  predicate IsWord(c: char) {
    0x30 <= c as int <= 0x39 || 0x41 <= c as int <= 0x5A || 0x61 <= c as int <= 0x7A
  }

  /** The value found by descending from `v` along these positions. */
  function Inside(v: Value, path: seq<nat>): Option<Value> {
    if path == [] then Some(v)
    else if v.List? && path[0] < |v.items| then Inside(v.items[path[0]], path[1..])
    else if v.Dict? && path[0] < |v.values| then Inside(v.values[path[0]], path[1..])
    else None
  }

  predicate IsUnfit(v: Value) {
    v.Foreign? || v == Float(false) || (v.Dict? && !v.keysAreStrings && v.values != [])
  }

  /** Nothing in `v`, at any depth, is a foreign value, an infinite float or a key that is not a string. */
  ghost predicate AllFit(v: Value) {
    forall path :: Inside(v, path).Some? ==> !IsUnfit(Inside(v, path).value)
  }

  lemma {:induction false} FiniteJsonIff(v: Value)
    ensures FiniteJson(v) <==> AllFit(v)
    decreases v
  {
    var children := if v.List? then v.items else if v.Dict? then v.values else [];
    forall i | 0 <= i < |children|
      ensures FiniteJson(children[i]) <==> AllFit(children[i])
    {
      FiniteJsonIff(children[i]);
    }
    ChildrenFit(v, children);
  }

  lemma ChildrenFit(v: Value, children: seq<Value>)
    requires children == if v.List? then v.items else if v.Dict? then v.values else []
    ensures AllFit(v) <==> !IsUnfit(v) && forall i :: 0 <= i < |children| ==> AllFit(children[i])
  {
    if AllFit(v) {
      assert Inside(v, []) == Some(v);
      forall i, path: seq<nat> | 0 <= i < |children| && Inside(children[i], path).Some?
        ensures !IsUnfit(Inside(children[i], path).value)
      {
        assert ([i] + path)[1..] == path;
        assert Inside(v, [i] + path) == Inside(children[i], path);
      }
    }
    if !IsUnfit(v) && forall i :: 0 <= i < |children| ==> AllFit(children[i]) {
      forall path | Inside(v, path).Some?
        ensures !IsUnfit(Inside(v, path).value)
      {
        if path != [] {
          assert Inside(v, path) == Inside(children[path[0]], path[1..]);
        }
      }
    }
  }

  /** The identity checks of a request. */
  ghost predicate Identified(q: Request) {
    && q.keysClosed && q.protocol == "first-agent-skill-request-v1"
    && IsDigest(q.packageDigest) && IsEntrypointId(q.entrypointId)
    && q.script.Some? && (exists rest: seq<string> :: IsCanonical(q.script.value.path, rest))
    && 0 <= q.script.value.size <= 33_554_432 && IsDigest(q.script.value.sha256)
    && q.arguments.Dict? && AllFit(q.arguments)
    && q.inputs.Some? && Acceptable(q.inputs.value)
    && (q.expectedKind == "observation" || q.expectedKind == "artifact") && IsDigest(q.limitsDigest)
  }

  /** `_validate_request_identity`. */
  method ValidateRequestIdentity(q: Request) returns (ok: bool)
    ensures ok <==> Identified(q)
  {
    FiniteJsonIff(q.arguments);
    if q.script.Some? {
      CanonicalIff(q.script.value.path);
    }
    if !q.keysClosed || q.protocol != "first-agent-skill-request-v1" || !IsDigest(q.packageDigest) {
      return false;
    }
    if !IsEntrypointId(q.entrypointId) || q.script.None? || !ValidScript(q.script.value) {
      return false;
    }
    if !q.arguments.Dict? || !FiniteJson(q.arguments) || q.inputs.None? {
      return false;
    }
    var closed := ValidateInputDescriptors(q.inputs.value);
    ok := closed && IsKind(q.expectedKind) && IsDigest(q.limitsDigest);
  }

  // ---------------------------------------------------------------- exact inputs

  function HexValue(c: char): (n: int)
    ensures 0 <= n < 16
  {
    if '0' <= c <= '9' then c as int - '0' as int
    else if 'a' <= c <= 'f' then c as int - 'a' as int + 10
    else 0
  }

  /** `bytes.fromhex`. */
  function Unhex(h: string): string {
    if |h| < 2 then "" else [Byte(h[0], h[1])] + Unhex(h[2..])
  }

  function Byte(hi: char, lo: char): char {
    (16 * HexValue(hi) + HexValue(lo)) as char
  }

  const DIGITS := "0123456789abcdef"

  /** The two digits at position 2 * i of `h` spell the byte c. */
  predicate Spells(h: string, i: nat, c: char)
    requires 2 * i + 1 < |h|
  {
    (c as int) < 256 && h[2 * i] == DIGITS[c as int / 16] && h[2 * i + 1] == DIGITS[c as int % 16]
  }

  /** The bytes of `value` start with those that `h` spells, two digits for each. */
  predicate BeginsWithHex(value: string, h: string) {
    |h| / 2 <= |value| && forall i :: 0 <= i < |h| / 2 ==> Spells(h, i, value[i])
  }

  predicate IsHex(h: string) {
    |h| % 2 == 0 && forall i :: 0 <= i < |h| ==> IsHexDigit(h[i])
  }

  lemma HexValueIs(c: char)
    requires IsHexDigit(c)
    ensures DIGITS[HexValue(c)] == c
  {
  }

  lemma DigitOf(n: nat)
    requires n < 16
    ensures HexValue(DIGITS[n]) == n
  {
  }

  lemma NibblesOf(hi: int, lo: int)
    requires 0 <= hi < 16 && 0 <= lo < 16
    ensures (16 * hi + lo) / 16 == hi && (16 * hi + lo) % 16 == lo && 0 <= 16 * hi + lo < 256
  {
  }

  lemma DigitsOf(n: int, x: int, y: int, hi: char, lo: char)
    requires 0 <= x < 16 && 0 <= y < 16 && n == 16 * x + y && DIGITS[x] == hi && DIGITS[y] == lo
    ensures 0 <= n < 256 && DIGITS[n / 16] == hi && DIGITS[n % 16] == lo
  {
    NibblesOf(x, y);
  }

  lemma ByteIs(hi: char, lo: char)
    requires IsHexDigit(hi) && IsHexDigit(lo)
    ensures var n := Byte(hi, lo) as int;
            n < 256 && DIGITS[n / 16] == hi && DIGITS[n % 16] == lo
  {
    HexValueIs(hi);
    HexValueIs(lo);
    DigitsOf(Byte(hi, lo) as int, HexValue(hi), HexValue(lo), hi, lo);
  }

  lemma FirstSpells(h: string)
    requires |h| >= 2 && IsHexDigit(h[0]) && IsHexDigit(h[1])
    ensures Unhex(h) != "" && Spells(h, 0, Unhex(h)[0])
  {
    ByteIs(h[0], h[1]);
  }

  /** Every two digits are one byte, the first of them its upper half. */
  lemma {:induction false} UnhexSpells(h: string)
    requires IsHex(h)
    ensures |Unhex(h)| == |h| / 2 && forall i :: 0 <= i < |h| / 2 ==> Spells(h, i, Unhex(h)[i])
    decreases |h|
  {
    if h != "" {
      FirstSpells(h);
      UnhexSpells(h[2..]);
      forall i | 0 <= i < |h| / 2
        ensures Spells(h, i, Unhex(h)[i])
      {
        if i > 0 {
          assert Spells(h[2..], i - 1, Unhex(h[2..])[i - 1]);
        }
      }
    }
  }

  lemma OneSpelling(h: string, i: nat, c: char, d: char)
    requires 2 * i + 1 < |h| && Spells(h, i, c) && Spells(h, i, d)
    ensures c == d
  {
    DigitOf(c as int / 16);
    DigitOf(c as int % 16);
    DigitOf(d as int / 16);
    DigitOf(d as int % 16);
  }

  lemma BeginsIff(value: string, h: string)
    requires IsHex(h)
    ensures BeginsWithHex(value, h) <==> Unhex(h) <= value
  {
    UnhexSpells(h);
    if BeginsWithHex(value, h) {
      forall i | 0 <= i < |h| / 2
        ensures Unhex(h)[i] == value[i]
      {
        OneSpelling(h, i, Unhex(h)[i], value[i]);
      }
    }
  }

  predicate StartsWithOneOf(value: string, magic: seq<string>) {
    exists i :: 0 <= i < |magic| && Unhex(magic[i]) <= value
  }

  /** The size, the digest and, if any magic is declared, one of the declared beginnings. */
  predicate Matches(sha256: string -> string, d: Descriptor, value: string)
    requires d.Descriptor?
  {
    && |value| == d.size && sha256(value) == d.sha256 && |value| <= 33_554_432
    && (d.magic == [] || exists i :: 0 <= i < |d.magic| && BeginsWithHex(value, d.magic[i]))
  }

  lemma MagicIff(value: string, magic: seq<string>)
    requires ValidMagic(magic)
    ensures StartsWithOneOf(value, magic) <==> exists i :: 0 <= i < |magic| && BeginsWithHex(value, magic[i])
  {
    forall i | 0 <= i < |magic|
      ensures BeginsWithHex(value, magic[i]) <==> Unhex(magic[i]) <= value
    {
      BeginsIff(value, magic[i]);
    }
  }

  predicate ScriptMatches(sha256: string -> string, s: Script, value: string) {
    |value| == s.size && sha256(value) == s.sha256 && |value| <= 33_554_432
  }

  predicate SingleLink(t: Tree, node: nat) {
    forall k, l :: k in t.lookup && l in t.lookup && t.lookup[k] == node && t.lookup[l] == node ==> k == l
  }

  /** `fstat` and its checks: a regular file of this user with one link. */
  method CheckFile(k: Kernel, fd: nat) returns (error: Option<Error>)
    requires k.Valid() && fd in k.t.open
    modifies k`calls
    ensures k.calls == old(k.calls) + 1
    ensures error.None? <==> k.Works(old(k.calls)) && SingleLink(k.tree, k.t.nodes[fd])
  {
    error := k.Probe();
    if !SingleLink(k.tree, k.t.nodes[fd]) {
      error := Some(ValueError);
    }
  }

  /** `_open_session_directory`. */
  method OpenSessionDirectory(k: Kernel, session: nat) returns (r: Result<nat, Error>)
    requires k.Valid() && session < k.tree.next
    modifies k`t, k`calls, k`raised
    ensures k.Valid() && NewOnly(old(k.raised), k.raised, |old(k.t).nodes|) && old(k.calls) <= k.calls
    ensures r.Failure? ==> Balanced(old(k.t), k.t, {})
    ensures r.Success? ==>
      && k.raised == old(k.raised) && r.value == |old(k.t).nodes| && k.calls == old(k.calls) + 2
      && Balanced(old(k.t), k.t, {r.value}) && k.t == Opened(old(k.t), session)
    ensures r.Success? <==> k.Works(old(k.calls)) && k.Works(old(k.calls) + 1)
    ensures r.Failure? ==> old(k.calls) < k.calls && (k.Works(old(k.calls)) ==> old(k.calls) + 1 < k.calls)
  {
    ghost var a := k.t;
    BalancedStart(a);
    var fd := k.OpenPath(session);
    if fd.Failure? {
      return Failure(OSError);
    }
    BalancedOpen(a, a, {}, session);
    assert {} + {fd.value} == {fd.value};
    var error := k.Probe();
    if error.Some? {
      var e := Abandon(k, fd.value, error.value, a, {fd.value});
      assert {fd.value} - {fd.value} == {};
      return Failure(e);
    }
    r := Success(fd.value);
  }

  /** Read an open file whose size is what `fstat` says; its content is whatever it is by now. */
  method ReadOpened(k: Kernel, fd: nat) returns (r: Result<string, Error>)
    requires k.Valid() && fd in k.t.open
    modifies k`calls, k`readings, k`cut
    ensures r.Success? ==>
      && |r.value| <= INPUT_MAX && SingleLink(k.tree, k.t.nodes[fd])
      && k.readings == old(k.readings) + [(k.t.nodes[fd], r.value)]
    ensures old(k.calls) <= k.calls
    ensures old(k.cut) <= k.cut
    ensures ReadOnce(old(k.readings), k.readings, k.Quiet(old(k.calls), k.calls),
                     SingleLink(k.tree, k.t.nodes[fd]) && k.cut == old(k.cut), r.Success?)
  {
    var error := CheckFile(k, fd);
    if error.Some? {
      return Failure(error.value);
    }
    var content: string := *;
    var size: int := *;
    var f := new Source(content);
    var value := ReadBoundedFd(f, size, INPUT_MAX);
    if value.None? {
      k.cut := k.cut + 1;
      return Failure(ValueError);
    }
    k.readings := k.readings + [(k.t.nodes[fd], value.value)];
    error := k.Probe();
    r := if error.Some? then Failure(error.value) else Success(value.value);
  }

  /**
   Nothing was read to the end, and this is a failure; or one file was.  When nothing goes wrong
   (`quiet`: no call fails, the file is there with one link and keeps its size) it is the second,
   and a success.
   */
  ghost predicate ReadOnce(before: seq<(nat, string)>, after: seq<(nat, string)>, quiet: bool, there: bool, ok: bool) {
    if after == before then !ok && !(quiet && there)
    else before <= after && |after| == |before| + 1 && (quiet ==> ok)
  }

  lemma ThenClosed(before: seq<(nat, string)>, after: seq<(nat, string)>, quiet: bool, there: bool, ok: bool,
                   closed: bool)
    requires ReadOnce(before, after, quiet, there, ok)
    ensures ReadOnce(before, after, quiet && closed, there, ok && closed)
  {
  }

  /** `parts` lead to an entry, for a file with one link. */
  predicate HasPath(t: Tree, start: nat, parts: seq<string>)
    requires parts != []
  {
    var up := Walk(t, start, parts[..|parts| - 1]);
    up.Some? && HasEntry(t, Last(up.value), parts[|parts| - 1])
  }

  /** `inputs` has an entry of this name, for a file with one link. */
  predicate HasInput(t: Tree, session: nat, slot: string) {
    (session, "inputs") in t.lookup && HasEntry(t, t.lookup[(session, "inputs")], slot)
  }

  /** The file `name` of `dir`, which has no other name, was read to the end, and these were its bytes. */
  ghost predicate ReadIn(before: seq<(nat, string)>, after: seq<(nat, string)>, t: Tree, dir: nat, name: string,
                         bytes: string)
  {
    && HasEntry(t, dir, name)
    && after == before + [(t.lookup[(dir, name)], bytes)]
  }

  /** The same, by its path from `start`. */
  ghost predicate ReadExactly(before: seq<(nat, string)>, after: seq<(nat, string)>, t: Tree, start: nat,
                              parts: seq<string>, bytes: string)
  {
    && ReadFrom(before, after, t, start, parts, bytes)
    && forall k, l :: k in t.lookup && l in t.lookup && t.lookup[k] == t.lookup[l] == after[|before|].0 ==> k == l
  }

  lemma ReadAt(before: seq<(nat, string)>, after: seq<(nat, string)>, t: Tree, start: nat, parts: seq<string>,
               dir: nat, bytes: string)
    requires parts != [] && Leads(t, start, parts[..|parts| - 1], dir)
    requires ReadIn(before, after, t, dir, parts[|parts| - 1], bytes)
    ensures ReadExactly(before, after, t, start, parts, bytes)
  {
    LeadsToLast(t, start, parts, dir);
  }

  /** Read an open file and close it. */
  method ReadAndClose(k: Kernel, fd: nat, ghost a: Table, ghost kept: set<nat>) returns (r: Result<string, Error>)
    requires k.Valid() && Sound(a) && fd in k.t.open && fd !in kept && Balanced(a, k.t, kept + {fd})
    modifies k`t, k`calls, k`raised, k`readings, k`cut
    ensures k.Valid() && Balanced(a, k.t, kept) && NewOnly(old(k.raised), k.raised, |a.nodes|)
    ensures r.Success? ==>
      && |r.value| <= INPUT_MAX && SingleLink(k.tree, old(k.t).nodes[fd])
      && k.readings == old(k.readings) + [(old(k.t).nodes[fd], r.value)]
    ensures old(k.calls) <= k.calls && old(k.cut) <= k.cut
    ensures ReadOnce(old(k.readings), k.readings, k.Quiet(old(k.calls), k.calls),
                     SingleLink(k.tree, old(k.t).nodes[fd]) && k.cut == old(k.cut), r.Success?)
  {
    r := ReadOpened(k, fd);
    ghost var mid, whole, ok := k.calls, SingleLink(k.tree, k.t.nodes[fd]) && k.cut == old(k.cut), r.Success?;
    r := CloseAfter(k, fd, r, a, kept);
    k.QuietSplits(old(k.calls), mid, k.calls);
    k.QuietOnce(mid);
    ThenClosed(old(k.readings), k.readings, k.Quiet(old(k.calls), mid), whole, ok, k.Works(mid));
  }

  /** One `try: .. finally: os.close(fd)` around reading the entry `name` of `dir`; `dir` stays open. */
  method ReadEntry(k: Kernel, dir: nat, name: string, ghost a: Table, ghost kept: set<nat>)
      returns (r: Result<string, Error>)
    requires k.Valid() && Sound(a) && dir in k.t.open && Balanced(a, k.t, kept)
    modifies k`t, k`calls, k`raised, k`readings, k`cut
    ensures k.Valid() && Balanced(a, k.t, kept) && NewOnly(old(k.raised), k.raised, |a.nodes|)
    ensures r.Success? ==>
      |r.value| <= INPUT_MAX && ReadIn(old(k.readings), k.readings, k.tree, old(k.t).nodes[dir], name, r.value)
    ensures old(k.calls) <= k.calls && old(k.cut) <= k.cut
    ensures ReadOnce(old(k.readings), k.readings, k.Quiet(old(k.calls), k.calls),
                     HasEntry(k.tree, old(k.t).nodes[dir], name) && k.cut == old(k.cut), r.Success?)
  {
    ghost var node := k.t.nodes[dir];
    var fd := k.OpenAt(dir, name);
    k.QuietOnce(old(k.calls));
    if fd.Failure? {
      return Failure(OSError);
    }
    BalancedOpen(a, old(k.t), kept, k.tree.lookup[(node, name)]);
    EntryIff(k.tree, node, name);
    ghost var mid := k.calls;
    r := ReadAndClose(k, fd.value, a, kept);
    k.QuietSplits(old(k.calls), mid, k.calls);
  }

  lemma EntryIff(t: Tree, dir: nat, name: string)
    requires (dir, name) in t.lookup
    ensures HasEntry(t, dir, name) <==> SingleLink(t, t.lookup[(dir, name)])
  {
  }

  /** The end of a `finally` that closes one descriptor and keeps the others. */
  method CloseAfter(k: Kernel, fd: nat, outcome: Result<string, Error>, ghost a: Table, ghost kept: set<nat>)
      returns (r: Result<string, Error>)
    requires k.Valid() && Sound(a) && fd !in kept && Balanced(a, k.t, kept + {fd})
    modifies k`t, k`calls, k`raised
    ensures k.Valid() && Balanced(a, k.t, kept) && NewOnly(old(k.raised), k.raised, |a.nodes|)
    ensures k.calls == old(k.calls) + 1 && (r.Success? <==> outcome.Success? && k.Works(old(k.calls)))
    ensures r.Success? ==> r == outcome
  {
    var error := Finally(k, fd, if outcome.Failure? then Some(outcome.error) else None, a, kept + {fd});
    assert kept + {fd} - {fd} == kept;
    r := if error.Some? then Failure(error.value) else outcome;
  }

  /** The checks of the bytes, size and digest first. */
  method CheckInput(d: Descriptor, value: string, sha256: string -> string) returns (ok: bool)
    requires ValidAlone(d) && |value| <= INPUT_MAX
    ensures ok <==> Matches(sha256, d, value)
  {
    MagicIff(value, d.magic);
    if |value| != d.size || sha256(value) != d.sha256 {
      return false;
    }
    ok := d.magic == [] || StartsWithOneOf(value, d.magic);
  }

  /**
   `_read_exact_input`: three nested `finally` blocks; no descriptor is left on any exit, and the
   bytes are those of the slot's entry in `inputs`.
   */
  method ReadExactInput(k: Kernel, session: nat, d: Descriptor, sha256: string -> string)
      returns (r: Result<string, Error>)
    requires k.Valid() && session < k.tree.next && ValidAlone(d)
    modifies k`t, k`calls, k`raised, k`readings, k`cut
    ensures k.Valid() && Balanced(old(k.t), k.t, {}) && NewOnly(old(k.raised), k.raised, |old(k.t).nodes|)
    ensures r.Success? ==>
      && Matches(sha256, d, r.value)
      && ReadExactly(old(k.readings), k.readings, k.tree, session, ["inputs", d.slot], r.value)
    ensures old(k.calls) <= k.calls && old(k.cut) <= k.cut
    ensures k.Quiet(old(k.calls), k.calls) && HasInput(k.tree, session, d.slot) && k.cut == old(k.cut) ==>
      && old(k.readings) <= k.readings && |k.readings| == |old(k.readings)| + 1
      && (r.Success? <==> Matches(sha256, d, k.readings[|old(k.readings)|].1))
  {
    ghost var a := k.t;
    var dir := OpenSessionDirectory(k, session);
    if dir.Failure? {
      return Failure(dir.error);
    }
    k.QuietTwice(old(k.calls));
    ghost var mid := k.calls;
    r := ReadBelowInputs(k, dir.value, d.slot, a);
    k.QuietSplits(old(k.calls), mid, k.calls);
    if r.Success? {
      InputRead(old(k.readings), k.readings, k.tree, session, d.slot, r.value);
      var matches := CheckInput(d, r.value, sha256);
      r := if matches then r else Failure(ValueError);
    }
  }

  method ReadBelowInputs(k: Kernel, session: nat, slot: string, ghost a: Table) returns (r: Result<string, Error>)
    requires k.Valid() && Sound(a) && session in k.t.open && Balanced(a, k.t, {session})
    modifies k`t, k`calls, k`raised, k`readings, k`cut
    ensures k.Valid() && Balanced(a, k.t, {}) && NewOnly(old(k.raised), k.raised, |a.nodes|)
    ensures r.Success? ==>
      && |r.value| <= INPUT_MAX
      && InputIn(old(k.readings), k.readings, k.tree, old(k.t).nodes[session], slot, r.value)
    ensures old(k.calls) <= k.calls
    ensures old(k.cut) <= k.cut
    ensures ReadOnce(old(k.readings), k.readings, k.Quiet(old(k.calls), k.calls),
                     HasInput(k.tree, old(k.t).nodes[session], slot) && k.cut == old(k.cut), r.Success?)
  {
    r := ReadInputs(k, session, slot, a);
    assert {} + {session} == {session};
    r := CloseAfter(k, session, r, a, {});
  }

  /** The middle block: open `inputs`, read the slot in it, close it; the session stays open. */
  method ReadInputs(k: Kernel, session: nat, slot: string, ghost a: Table) returns (r: Result<string, Error>)
    requires k.Valid() && Sound(a) && session in k.t.open && Balanced(a, k.t, {session})
    modifies k`t, k`calls, k`raised, k`readings, k`cut
    ensures k.Valid() && Balanced(a, k.t, {session}) && NewOnly(old(k.raised), k.raised, |a.nodes|)
    ensures r.Success? ==>
      && |r.value| <= INPUT_MAX
      && InputIn(old(k.readings), k.readings, k.tree, old(k.t).nodes[session], slot, r.value)
    ensures old(k.calls) <= k.calls
    ensures old(k.cut) <= k.cut
    ensures ReadOnce(old(k.readings), k.readings, k.Quiet(old(k.calls), k.calls),
                     HasInput(k.tree, old(k.t).nodes[session], slot) && k.cut == old(k.cut), r.Success?)
  {
    ghost var node := k.t.nodes[session];
    var inputs := k.OpenAt(session, "inputs");
    if inputs.Failure? {
      return Failure(OSError);
    }
    BalancedOpen(a, old(k.t), {session}, k.tree.lookup[(node, "inputs")]);
    r := ReadThenClose(k, inputs.value, slot, a, {session});
  }

  /** The slot's entry in `inputs` was read. */
  ghost predicate InputIn(before: seq<(nat, string)>, after: seq<(nat, string)>, t: Tree, session: nat, slot: string,
                          bytes: string)
  {
    (session, "inputs") in t.lookup && ReadIn(before, after, t, t.lookup[(session, "inputs")], slot, bytes)
  }

  lemma InputRead(before: seq<(nat, string)>, after: seq<(nat, string)>, t: Tree, session: nat, slot: string,
                  bytes: string)
    requires InputIn(before, after, t, session, slot, bytes)
    ensures ReadExactly(before, after, t, session, ["inputs", slot], bytes)
  {
    InputsLead(t, session, slot);
    ReadAt(before, after, t, session, ["inputs", slot], t.lookup[(session, "inputs")], bytes);
  }

  lemma InputsLead(t: Tree, session: nat, slot: string)
    requires (session, "inputs") in t.lookup
    ensures Leads(t, session, ["inputs", slot][..1], t.lookup[(session, "inputs")])
  {
    assert ["inputs", slot][..1] == ["inputs"] && ["inputs"][..0] == [];
    assert Walk(t, session, []) == Some([session]);
  }

  method ReadThenClose(k: Kernel, dir: nat, name: string, ghost a: Table, ghost kept: set<nat>)
      returns (r: Result<string, Error>)
    requires k.Valid() && Sound(a) && dir in k.t.open && dir !in kept && Balanced(a, k.t, kept + {dir})
    modifies k`t, k`calls, k`raised, k`readings, k`cut
    ensures k.Valid() && Balanced(a, k.t, kept) && NewOnly(old(k.raised), k.raised, |a.nodes|)
    ensures r.Success? ==>
      |r.value| <= INPUT_MAX && ReadIn(old(k.readings), k.readings, k.tree, old(k.t).nodes[dir], name, r.value)
    ensures old(k.calls) <= k.calls
    ensures old(k.cut) <= k.cut
    ensures ReadOnce(old(k.readings), k.readings, k.Quiet(old(k.calls), k.calls),
                     HasEntry(k.tree, old(k.t).nodes[dir], name) && k.cut == old(k.cut), r.Success?)
  {
    r := ReadEntry(k, dir, name, a, kept + {dir});
    r := CloseAfter(k, dir, r, a, kept);
  }

  /**
   `_read_exact_script`: the walk hands ownership down, no descriptor is left on any exit, and the
   bytes are those of the script's path in the package.
   */
  method ReadExactScript(k: Kernel, package: nat, s: Script, sha256: string -> string)
      returns (r: Result<string, Error>)
    requires k.Valid() && package < k.tree.next
    modifies k`t, k`tree, k`calls, k`raised, k`readings, k`cut
    ensures k.Valid() && k.tree == old(k.tree) && Balanced(old(k.t), k.t, {})
    ensures NewOnly(old(k.raised), k.raised, |old(k.t).nodes|)
    ensures r.Success? ==>
      && ScriptMatches(sha256, s, r.value)
      && ReadExactly(old(k.readings), k.readings, k.tree, package, Split(s.path), r.value)
    ensures old(k.calls) <= k.calls && old(k.cut) <= k.cut
    ensures k.Quiet(old(k.calls), k.calls) && HasPath(k.tree, package, Split(s.path)) && k.cut == old(k.cut) ==>
      && old(k.readings) <= k.readings && |k.readings| == |old(k.readings)| + 1
      && (r.Success? <==> ScriptMatches(sha256, s, k.readings[|old(k.readings)|].1))
  {
    var root := OpenSessionDirectory(k, package);
    if root.Failure? {
      return Failure(root.error);
    }
    k.QuietTwice(old(k.calls));
    ghost var mid := k.calls;
    r := ReadBelowPackage(k, root.value, Split(s.path), old(k.t));
    k.QuietSplits(old(k.calls), mid, k.calls);
    if r.Success? && (|r.value| != s.size || sha256(r.value) != s.sha256) {
      r := Failure(ValueError);
    }
  }

  method ReadBelowPackage(k: Kernel, root: nat, parts: seq<string>, ghost a: Table) returns (r: Result<string, Error>)
    requires k.Valid() && Sound(a) && root in k.t.open && Balanced(a, k.t, {root}) && parts != []
    modifies k`t, k`tree, k`calls, k`raised, k`readings, k`cut
    ensures k.Valid() && k.tree == old(k.tree) && Balanced(a, k.t, {}) && NewOnly(old(k.raised), k.raised, |a.nodes|)
    ensures r.Success? ==>
      && |r.value| <= INPUT_MAX
      && ReadExactly(old(k.readings), k.readings, k.tree, old(k.t).nodes[root], parts, r.value)
    ensures old(k.calls) <= k.calls
    ensures old(k.cut) <= k.cut
    ensures ReadOnce(old(k.readings), k.readings, k.Quiet(old(k.calls), k.calls),
                     HasPath(k.tree, old(k.t).nodes[root], parts) && k.cut == old(k.cut), r.Success?)
  {
    ghost var start := k.t.nodes[root];
    var current := WalkToParent(k, root, parts, a);
    if current.Failure? {
      return Failure(current.error);
    }
    ghost var dir, mid := k.t.nodes[current.value], k.calls;
    assert {} + {current.value} == {current.value};
    r := ReadThenClose(k, current.value, parts[|parts| - 1], a, {});
    k.QuietSplits(old(k.calls), mid, k.calls);
    if r.Success? {
      ReadAt(old(k.readings), k.readings, k.tree, start, parts, dir, r.value);
    }
  }

  /** The loop over all parts but the last. */
  method WalkToParent(k: Kernel, root: nat, parts: seq<string>, ghost a: Table) returns (r: Result<nat, Error>)
    requires k.Valid() && Sound(a) && root in k.t.open && Balanced(a, k.t, {root}) && parts != []
    modifies k`t, k`tree, k`calls, k`raised
    ensures k.Valid() && k.tree == old(k.tree) && NewOnly(old(k.raised), k.raised, |a.nodes|)
    ensures old(k.calls) <= k.calls
    ensures r.Failure? ==> Balanced(a, k.t, {})
    ensures r.Success? ==>
      && Balanced(a, k.t, {r.value}) && r.value in k.t.open
      && Leads(k.tree, old(k.t).nodes[root], parts[..|parts| - 1], k.t.nodes[r.value])
    ensures r.Success? <==>
      k.Quiet(old(k.calls), k.calls) && Walk(k.tree, old(k.t).nodes[root], parts[..|parts| - 1]).Some?
  {
    ghost var start, front := k.t.nodes[root], parts[..|parts| - 1];
    var current := root;
    var i := 0;
    while i < |parts| - 1
      invariant 0 <= i <= |parts| - 1 && k.Valid() && k.tree == old(k.tree)
      invariant Balanced(a, k.t, {current}) && NewOnly(old(k.raised), k.raised, |a.nodes|)
      invariant current in k.t.open && Leads(k.tree, start, parts[..i], k.t.nodes[current])
      invariant old(k.calls) <= k.calls && k.Quiet(old(k.calls), k.calls)
    {
      ghost var node, mid := k.t.nodes[current], k.calls;
      assert front[..i] == parts[..i];
      var child := StepBelow(k, current, parts[i], false, a);
      k.QuietSplits(old(k.calls), mid, k.calls);
      if child.Failure? {
        if (node, parts[i]) !in k.tree.lookup {
          StopsBelow(k.tree, start, front, i, node);
        }
        return child;
      }
      LeadsOneMore(k.tree, start, parts, i, node);
      current := child.value;
      i := i + 1;
    }
    r := Success(current);
  }

  // ---------------------------------------------------------------- pinned outputs

  /** `node` is what `name` means in `dir`, and has no other name. */
  predicate IsEntry(t: Tree, dir: nat, name: string, node: nat) {
    && (dir, name) in t.lookup && t.lookup[(dir, name)] == node
    && forall k :: k in t.lookup && t.lookup[k] == node ==> k == (dir, name)
  }

  /** `dir` has an entry of this name, for a file with one link. */
  predicate HasEntry(t: Tree, dir: nat, name: string) {
    (dir, name) in t.lookup && forall k :: k in t.lookup && t.lookup[k] == t.lookup[(dir, name)] ==> k == (dir, name)
  }

  lemma EntriesDiffer(t: Tree, dir: nat, x: nat, y: nat)
    requires IsEntry(t, dir, "result.json", x) && IsEntry(t, dir, "artifact.bin", y)
    ensures x != y
  {
    assert (dir, "result.json").1 != (dir, "artifact.bin").1;
  }

  /** One turn of the pinning loop. */
  method PinOne(k: Kernel, dir: nat, name: string, ghost a: Table, ghost kept: set<nat>) returns (r: Result<nat, Error>)
    requires k.Valid() && Sound(a) && dir in k.t.open && Balanced(a, k.t, kept)
    modifies k`t, k`calls, k`raised
    ensures k.Valid() && NewOnly(old(k.raised), k.raised, |a.nodes|) && old(k.calls) <= k.calls
    ensures r.Failure? ==> Balanced(a, k.t, kept)
    ensures r.Success? ==>
      && k.raised == old(k.raised) && r.value !in kept && Balanced(a, k.t, kept + {r.value})
      && k.t.open == old(k.t).open + {r.value} && old(k.t).nodes <= k.t.nodes
      && r.value == |old(k.t).nodes| == |k.t.nodes| - 1 && k.calls == old(k.calls) + 2
      && IsEntry(k.tree, old(k.t).nodes[dir], name, k.t.nodes[r.value])
    ensures r.Success? <==>
      k.Works(old(k.calls)) && k.Works(old(k.calls) + 1) && HasEntry(k.tree, old(k.t).nodes[dir], name)
  {
    var fd := k.OpenAt(dir, name);
    if fd.Failure? {
      return Failure(OSError);
    }
    BalancedOpen(a, old(k.t), kept, k.tree.lookup[(old(k.t).nodes[dir], name)]);
    var error := CheckFile(k, fd.value);
    if error.Some? {
      var e := Abandon(k, fd.value, error.value, a, kept + {fd.value});
      assert kept + {fd.value} - {fd.value} == kept;
      return Failure(e);
    }
    r := Success(fd.value);
  }

  /** The two pinned descriptors are open on the two output files, which are different files. */
  ghost predicate PinnedOutputs(k: Kernel, session: nat, x: nat, y: nat)
    reads k
  {
    && x < |k.t.nodes| && y < |k.t.nodes| && x != y && k.t.nodes[x] != k.t.nodes[y]
    && IsEntry(k.tree, session, "result.json", k.t.nodes[x])
    && IsEntry(k.tree, session, "artifact.bin", k.t.nodes[y])
  }

  /** Both outputs can be pinned: their entries are files with one link, and calls c to c + 5 work. */
  ghost predicate Pinnable(answers: nat -> Option<Error>, t: Tree, session: nat, c: nat) {
    answers(c).None? && answers(c + 1).None? && PinnableFrom(answers, t, session, c + 2)
  }

  /** Once the session directory is open: their entries are files with one link, and calls c to c + 3 work. */
  ghost predicate PinnableFrom(answers: nat -> Option<Error>, t: Tree, session: nat, c: nat) {
    && HasEntry(t, session, "result.json") && HasEntry(t, session, "artifact.bin")
    && answers(c).None? && answers(c + 1).None? && answers(c + 2).None? && answers(c + 3).None?
  }

  /**
   `_pin_precreated_outputs`, whose calls are: open and check the session directory, open and check
   each output, and close the directory.  A success adds exactly the two descriptors.  A failure
   adds none, except exactly when both were pinned and the close of the directory raised: no
   handler covers that, and both stay open.
   */
  method PinPrecreatedOutputs(k: Kernel, session: nat) returns (r: Result<(nat, nat), Error>, ghost stranded: set<nat>)
    requires k.Valid() && session < k.tree.next
    modifies k`t, k`calls, k`raised
    ensures k.Valid() && NewOnly(old(k.raised), k.raised, |old(k.t).nodes|) && old(k.calls) <= k.calls
    ensures r.Success? <==> Pinnable(k.answers, k.tree, session, old(k.calls)) && k.Works(old(k.calls) + 6)
    ensures r.Success? ==>
      && stranded == {} && k.raised == old(k.raised) && PinnedOutputs(k, session, r.value.0, r.value.1)
      && r.value == (|old(k.t).nodes| + 1, |old(k.t).nodes| + 2)
      && Balanced(old(k.t), k.t, {r.value.0, r.value.1})
    ensures r.Failure? ==> Balanced(old(k.t), k.t, stranded)
    ensures stranded == if Pinnable(k.answers, k.tree, session, old(k.calls)) && !k.Works(old(k.calls) + 6)
                        then {|old(k.t).nodes| + 1, |old(k.t).nodes| + 2} else {}
    ensures stranded != {} ==>
      && k.raised == old(k.raised) + [|old(k.t).nodes|]
      && PinnedOutputs(k, session, |old(k.t).nodes| + 1, |old(k.t).nodes| + 2)
  {
    stranded := {};
    var pinned := OpenAndPin(k, session);
    if pinned.Failure? {
      return Failure(pinned.error), {};
    }
    var (d, x, y) := pinned.value;
    assert {d} + {x, y} == {d, x, y};
    CloseLeaves(old(k.t), k.t, d, {x, y});
    var closed := k.Close(d);
    if closed {
      r := Success((x, y));
    } else {
      stranded := {x, y};
      r := Failure(OSError);
    }
  }

  /** Everything but the last close: the session directory and both outputs, or nothing. */
  method OpenAndPin(k: Kernel, session: nat) returns (r: Result<(nat, nat, nat), Error>)
    requires k.Valid() && session < k.tree.next
    modifies k`t, k`calls, k`raised
    ensures k.Valid() && NewOnly(old(k.raised), k.raised, |old(k.t).nodes|) && old(k.calls) <= k.calls
    ensures r.Success? <==> Pinnable(k.answers, k.tree, session, old(k.calls))
    ensures r.Failure? ==> Balanced(old(k.t), k.t, {})
    ensures r.Success? ==>
      var n := |old(k.t).nodes|;
      && r.value == (n, n + 1, n + 2) && k.raised == old(k.raised) && k.calls == old(k.calls) + 6
      && PinnedOutputs(k, session, n + 1, n + 2) && Balanced(old(k.t), k.t, {n, n + 1, n + 2})
  {
    var dir := OpenSessionDirectory(k, session);
    if dir.Failure? {
      return Failure(dir.error);
    }
    var both := PinBothOrClose(k, dir.value, session, old(k.t));
    r := if both.Failure? then Failure(both.error) else Success((dir.value, both.value.0, both.value.1));
  }

  /** Both outputs, or nothing: the session directory is closed as well. */
  method PinBothOrClose(k: Kernel, d: nat, session: nat, ghost a: Table) returns (r: Result<(nat, nat), Error>)
    requires k.Valid() && Sound(a) && d in k.t.open && Balanced(a, k.t, {d}) && k.t.nodes[d] == session
    modifies k`t, k`calls, k`raised
    ensures k.Valid() && NewOnly(old(k.raised), k.raised, |a.nodes|) && old(k.calls) <= k.calls
    ensures r.Failure? ==> Balanced(a, k.t, {})
    ensures r.Success? <==> PinnableFrom(k.answers, k.tree, session, old(k.calls))
    ensures r.Success? ==>
      && k.raised == old(k.raised) && k.calls == old(k.calls) + 4 && PinnedOutputs(k, session, r.value.0, r.value.1)
      && r.value == (|old(k.t).nodes|, |old(k.t).nodes| + 1)
      && d !in {r.value.0, r.value.1} && Balanced(a, k.t, {d, r.value.0, r.value.1})
  {
    r := PinBoth(k, d, session, a);
    if r.Failure? {
      var e := Abandon(k, d, r.error, a, {d});
      assert {d} - {d} == {};
      return Failure(e);
    }
  }

  /** The loop and its `except`: on a failure only the session directory is still open. */
  method PinBoth(k: Kernel, d: nat, session: nat, ghost a: Table) returns (r: Result<(nat, nat), Error>)
    requires k.Valid() && Sound(a) && d in k.t.open && Balanced(a, k.t, {d}) && k.t.nodes[d] == session
    modifies k`t, k`calls, k`raised
    ensures k.Valid() && NewOnly(old(k.raised), k.raised, |a.nodes|) && old(k.calls) <= k.calls
    ensures r.Failure? ==> Balanced(a, k.t, {d})
    ensures r.Success? <==> PinnableFrom(k.answers, k.tree, session, old(k.calls))
    ensures r.Success? ==>
      && k.raised == old(k.raised) && k.calls == old(k.calls) + 4 && PinnedOutputs(k, session, r.value.0, r.value.1)
      && r.value == (|old(k.t).nodes|, |old(k.t).nodes| + 1)
      && d !in {r.value.0, r.value.1} && Balanced(a, k.t, {d, r.value.0, r.value.1})
  {
    var first := PinOne(k, d, "result.json", a, {d});
    if first.Failure? {
      return Failure(first.error);
    }
    var x := first.value;
    assert {d} + {x} == {d, x};
    var second := PinOne(k, d, "artifact.bin", a, {d, x});
    if second.Failure? {
      var e := Abandon(k, x, second.error, a, {d, x});
      assert {d, x} - {x} == {d};
      return Failure(e);
    }
    var y := second.value;
    assert {d, x} + {y} == {d, x, y};
    EntriesDiffer(k.tree, session, k.t.nodes[x], k.t.nodes[y]);
    r := Success((x, y));
  }

  /** A session in which everything works but call 6, the close of the directory. */
  const SESSION := Tree(0, map[(0, "result.json") := 1, (0, "artifact.bin") := 2], 3, map[1 := "", 2 := ""])

  function FailsAt(n: nat): nat -> Option<Error> {
    i => if i == n then Some(OSError) else None
  }

  /** One failing close is enough to leave both outputs open. */
  lemma PinningCanStrand()
    ensures WellFormed(SESSION)
    ensures Pinnable(FailsAt(6), SESSION, 0, 0) && FailsAt(6)(6).Some?
    ensures forall n: nat :: n != 6 ==> FailsAt(6)(n).None?
  {
    SessionEntry("result.json", 1);
    SessionEntry("artifact.bin", 2);
  }

  lemma SessionEntry(name: string, node: nat)
    requires (name == "result.json" && node == 1) || (name == "artifact.bin" && node == 2)
    ensures IsEntry(SESSION, 0, name, node)
  {
    assert SESSION.lookup.Keys == {(0, "result.json"), (0, "artifact.bin")};
  }

  /** That run. */
  method StrandingRun() returns (k: Kernel)
    ensures fresh(k) && k.raised == [0] && k.t.open == {1, 2}
  {
    PinningCanStrand();
    k := new Kernel(SESSION, FailsAt(6));
    ghost var a := k.t;
    assert a.nodes == [] && a.open == {};
    var r;
    ghost var stranded;
    r, stranded := PinPrecreatedOutputs(k, 0);
    assert stranded == {1, 2} && Balanced(a, k.t, stranded);
  }

  lemma CloseLeaves(a: Table, b: Table, fd: nat, rest: set<nat>)
    requires Sound(a) && fd !in rest && Balanced(a, b, {fd} + rest)
    ensures Balanced(a, ClosedAll(b, [fd]), rest)
  {
    BalancedClose(a, b, {fd} + rest, [fd]);
    assert {fd} + rest - (set x | x in [fd]) == rest;
  }

  /** The executor's `finally`: the artifact stays open exactly when closing the result raises. */
  method ReleaseOutputs(k: Kernel, x: nat, y: nat, ghost a: Table) returns (ok: bool, ghost stranded: set<nat>)
    requires k.Valid() && Sound(a) && x != y && Balanced(a, k.t, {x, y})
    modifies k`t, k`calls, k`raised
    ensures k.Valid() && Balanced(a, k.t, stranded) && old(k.calls) <= k.calls
    ensures ok <==> k.raised == old(k.raised)
    ensures stranded == if k.Works(old(k.calls)) then {} else {y}
    ensures k.raised == old(k.raised) + if !k.Works(old(k.calls)) then [x]
                                        else if !k.Works(old(k.calls) + 1) then [y]
                                        else []
  {
    assert {x} + {y} == {x, y};
    CloseLeaves(a, k.t, x, {y});
    ok := k.Close(x);
    stranded := {y};
    if ok {
      assert {y} + {} == {y};
      CloseLeaves(a, k.t, y, {});
      ok := k.Close(y);
      stranded := {};
    }
  }

  // ---------------------------------------------------------------- writing them

  /** `bytes` put at `offset`, after zeros when the file is shorter than that. */
  function Splice(file: string, offset: nat, bytes: string): string {
    if |file| < offset then file + seq(offset - |file|, _ => '\0') + bytes
    else if |file| < offset + |bytes| then file[..offset] + bytes
    else file[..offset] + bytes + file[offset + |bytes|..]
  }

  /** File contents by node, and how far each descriptor has been written. */
  class Store {
    var files: map<nat, string>
    var offsets: map<nat, nat>
    ghost var truncated: seq<nat>

    constructor (files: map<nat, string>)
      ensures this.files == files && offsets == map[] && truncated == []
    {
      this.files := files;
      offsets := map[];
      truncated := [];
    }

    function Offset(fd: nat): nat
      reads this`offsets
    {
      if fd in offsets then offsets[fd] else 0
    }

    /** `os.ftruncate(fd, 0)`. */
    method Truncate(node: nat) returns (ok: bool)
      modifies this`files, this`truncated
      ensures ok ==> files == old(files)[node := ""] && truncated == old(truncated) + [node]
      ensures !ok ==> files == old(files) && truncated == old(truncated)
    {
      ok := *;
      if ok {
        files := files[node := ""];
        truncated := truncated + [node];
      }
    }

    /** `os.write`: some of the bytes, at least one. */
    method Write(fd: nat, node: nat, bytes: string) returns (n: Option<nat>)
      requires node in files && bytes != ""
      modifies this`files, this`offsets
      ensures n.None? ==> files == old(files) && offsets == old(offsets)
      ensures n.Some? ==>
        && 0 < n.value <= |bytes| && offsets == old(offsets)[fd := old(Offset(fd)) + n.value]
        && files == old(files)[node := Splice(old(files)[node], old(Offset(fd)), bytes[..n.value])]
    {
      if * {
        return None;
      }
      var written: int := *;
      if written <= 0 || |bytes| < written {
        written := |bytes|;
      }
      n := Some(written);
      files := files[node := Splice(files[node], Offset(fd), bytes[..written])];
      offsets := offsets[fd := Offset(fd) + written];
    }
  }

  lemma SpliceAppends(content: string, i: nat, n: nat)
    requires i + n <= |content|
    ensures Splice(content[..i], i, content[i..][..n]) == content[..i + n]
  {
    assert content[..i + n] == content[..i] + content[i..][..n];
  }

  /** `_write_all` on a file just truncated: for every pattern of short writes all of it, or a prefix. */
  method WriteAll(store: Store, fd: nat, node: nat, content: string) returns (ok: bool)
    requires node in store.files && store.files[node] == "" && store.Offset(fd) == 0
    modifies store`files, store`offsets
    ensures node in store.files && store.files[node] <= content && (ok ==> store.files[node] == content)
    ensures store.files == old(store.files)[node := store.files[node]]
    ensures store.offsets == old(store.offsets) || store.offsets == old(store.offsets)[fd := store.Offset(fd)]
  {
    var offset := 0;
    while offset < |content|
      invariant 0 <= offset <= |content| && store.Offset(fd) == offset
      invariant store.offsets == old(store.offsets) || store.offsets == old(store.offsets)[fd := offset]
      invariant node in store.files && store.files[node] == content[..offset]
      invariant store.files == old(store.files)[node := content[..offset]]
    {
      var n := store.Write(fd, node, content[offset..]);
      if n.None? {
        return false;
      }
      SpliceAppends(content, offset, n.value);
      offset := offset + n.value;
    }
    assert content[..offset] == content;
    ok := true;
  }

  /**
   What one call of `_write_pinned_precreated` did to the files: nothing until the truncation,
   and from then on this file holds a prefix of the content, all of it on success.
   */
  ghost predicate WroteOne(f0: map<nat, string>, f1: map<nat, string>, log: seq<nat>, node: nat, content: string,
                           ok: bool) {
    || (log == [] && !ok && f1 == f0)
    || (log == [node] && node in f1 && f1 == f0[node := f1[node]] && f1[node] <= content
        && (ok ==> f1[node] == content))
  }

  /** `_write_pinned_precreated`. */
  method WritePinnedPrecreated(k: Kernel, store: Store, fd: nat, content: string)
      returns (ok: bool, ghost log: seq<nat>)
    requires k.Valid() && fd in k.t.open && store.Offset(fd) == 0
    modifies store, k`calls
    ensures store.truncated == old(store.truncated) + log
    ensures WroteOne(old(store.files), store.files, log, k.t.nodes[fd], content, ok) && old(k.calls) <= k.calls
    ensures forall g: nat :: g != fd ==> store.Offset(g) == old(store.Offset(g))
  {
    var node := k.t.nodes[fd];
    log := [];
    var error := CheckFile(k, fd);
    if error.Some? {
      return false, [];
    }
    ok := store.Truncate(node);
    if !ok {
      return false, [];
    }
    log := [node];
    ok := WriteAll(store, fd, node, content);
    if ok {
      error := k.Probe();
      ok := error.None?;
    }
    assert store.files == old(store.files)[node := store.files[node]];
  }

  /**
   The two writes: the artifact is truncated only after the whole result is written, and is not
   touched at all when there is none.
   */
  ghost predicate Wrote(f0: map<nat, string>, f1: map<nat, string>, log: seq<nat>, x: nat, y: nat,
                        result: string, artifact: Option<string>, ok: bool)
  {
    || (WroteOne(f0, f1, log, x, result, ok) && (ok ==> artifact.None?))
    || (artifact.Some? && log != [] && log[0] == x && WroteOne(f0[x := result], f1, log[1..], y, artifact.value, ok))
  }

  method WriteOutputs(k: Kernel, store: Store, x: nat, y: nat, result: string, artifact: Option<string>)
      returns (ok: bool, ghost log: seq<nat>)
    requires k.Valid() && x in k.t.open && y in k.t.open && x != y && store.Offset(x) == 0 && store.Offset(y) == 0
    modifies store, k`calls
    ensures store.truncated == old(store.truncated) + log
    ensures Wrote(old(store.files), store.files, log, k.t.nodes[x], k.t.nodes[y], result, artifact, ok)
    ensures old(k.calls) <= k.calls
  {
    ok, log := WritePinnedPrecreated(k, store, x, result);
    if ok && artifact.Some? {
      ghost var more: seq<nat>;
      ok, more := WritePinnedPrecreated(k, store, y, artifact.value);
      assert (log + more)[1..] == more;
      log := log + more;
    }
  }
}
