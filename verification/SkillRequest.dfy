/** `_execute_authenticated_request`: from a parsed request to the two output files. */
module SkillRequest {
  import opened Text
  import opened Wrappers
  import opened DirectoryTree
  import opened Descriptors
  import opened RunnerInput
  import opened RunnerLimits
  import opened SkillRunner

  datatype Artifact = NoArtifact | Bytes(content: string) | NotBytes

  /** The dict that package code returned; None for anything without exactly its three keys. */
  datatype Raw = Raw(kind: string, payload: Value, artifact: Artifact)

  /** SHA-256, `_limit_digest` and `_result_bytes` (None when encoding raises). */
  datatype Codec = Codec(sha256: string -> string, limits: Profile -> string, encode: (string, Value) -> Option<string>)

  function ArtifactBytes(raw: Raw): Option<string> {
    if raw.artifact.Bytes? then Some(raw.artifact.content) else None
  }

  function ArtifactSize(raw: Raw): nat {
    if raw.artifact.Bytes? then |raw.artifact.content| else 0
  }

  /** Which answers are written. */
  predicate Deliverable(q: Request, c: Codec, raw: Raw) {
    && raw.kind == q.expectedKind && (raw.kind == "observation" || raw.kind == "artifact")
    && FiniteJson(raw.payload) && !raw.artifact.NotBytes? && c.encode(raw.kind, raw.payload).Some?
    && |c.encode(raw.kind, raw.payload).value| + (if raw.artifact.Bytes? then |raw.artifact.content| else 0)
       <= 67_108_864
  }

  /** What the runner writes for `raw`: the result and, if there is one, the artifact. */
  function Outputs(q: Request, c: Codec, raw: Raw): (out: Option<(string, Option<string>)>)
    ensures out.Some? <==> Deliverable(q, c, raw)
    ensures out.Some? ==>
      && raw.kind == q.expectedKind && IsKind(raw.kind) && FiniteJson(raw.payload)
      && c.encode(raw.kind, raw.payload) == Some(out.value.0)
      && out.value.1 == (if raw.artifact.Bytes? then Some(raw.artifact.content) else None)
      && (out.value.1.None? <==> raw.artifact.NoArtifact?)
      && |out.value.0| + (if out.value.1.Some? then |out.value.1.value| else 0) <= OUTPUT_MAX
  {
    if raw.kind != q.expectedKind || !IsKind(raw.kind) || !FiniteJson(raw.payload) || raw.artifact.NotBytes? then None
    else
      var result := c.encode(raw.kind, raw.payload);
      if result.None? then None
      else
        var size := ArtifactSize(raw);
        if |result.value| > OUTPUT_MAX || size > OUTPUT_MAX || |result.value| + size > OUTPUT_MAX then None
        else Some((result.value, ArtifactBytes(raw)))
  }

  ghost predicate InputsMatch(sha256: string -> string, ds: seq<Descriptor>, values: seq<string>) {
    |values| == |ds| && forall i :: 0 <= i < |ds| ==> ds[i].Descriptor? && Matches(sha256, ds[i], values[i])
  }

  /** Package code: whether any of it has run, what it was given, and the descriptors it found. */
  class Package {
    var ran: bool
    ghost var script: string
    ghost var read: seq<string>
    ghost var table: Table
    ghost var given: Option<map<string, string>>

    constructor ()
      ensures !ran && given == None
    {
      ran := false;
      script := "";
      read := [];
      table := Table({}, multiset{}, []);
      given := None;
    }

    /** Executing the script's top level; whether it then exports a callable `run`. */
    method Load(script: string, ghost read: seq<string>, ghost table: Table) returns (callable: bool)
      modifies this
      ensures ran && this.script == script && this.read == read && this.table == table && given == old(given)
    {
      ran := true;
      this.script := script;
      this.read := read;
      this.table := table;
      callable := *;
    }

    /** Calling `run`; None when it raises, or returns something of another shape. */
    method Run(inputs: map<string, string>) returns (raw: Option<Raw>)
      modifies this`given
      ensures given == Some(inputs)
    {
      given := Some(inputs);
      raw := *;
    }
  }

  /** Two descriptors opened since `base` are still open, on the two output files, which are different files. */
  ghost predicate OutputsOpen(t: Tree, base: Table, table: Table, session: nat) {
    var x, y := |base.nodes| + 1, |base.nodes| + 2;
    && x in table.open && y in table.open && y < |table.nodes| && table.nodes[x] != table.nodes[y]
    && IsEntry(t, session, "result.json", table.nodes[x]) && IsEntry(t, session, "artifact.bin", table.nodes[y])
  }

  lemma StillOpen(t: Tree, a: Table, b: Table, table: Table, session: nat)
    requires OutputsOpen(t, a, b, session) && Balanced(b, table, {})
    ensures OutputsOpen(t, a, table, session)
  {
  }

  lemma StillKept(a: Table, b: Table, c: Table, kept: set<nat>)
    requires Sound(a) && Balanced(a, b, kept) && Balanced(b, c, {})
    ensures Balanced(a, c, kept)
  {
    BalancedThen(a, b, c, kept, {});
    assert kept + {} == kept;
  }

  /** The limits that the request names were applied. */
  ghost predicate Limited(q: Request, c: Codec, limits: Limits, v0: Values)
    requires limits.Valid() && HasAll(v0)
    reads limits
  {
    && ByDigest(c.limits, q.limitsDigest).Some?
    && AllApplied(limits.process, ByDigest(c.limits, q.limitsDigest).value, v0, limits.v)
  }

  /** What must hold before any package code runs, and what it is then given. */
  ghost predicate Cleared(q: Request, c: Codec, limits: Limits, package: Package, v0: Values)
    requires limits.Valid() && HasAll(v0)
    reads limits, package
  {
    Identified(q) && Limited(q, c, limits, v0) && GivenExactly(q, c, package)
  }

  /** The request passes all checks that come before the pinning of the outputs. */
  ghost predicate Served(q: Request, c: Codec, limits: Limits, v0: Values, first: nat, available: bool)
    requires HasAll(v0)
    reads limits
  {
    && Identified(q) && available && ByDigest(c.limits, q.limitsDigest).Some?
    && AllPermitted(limits.process, ByDigest(c.limits, q.limitsDigest).value, v0) && limits.Quiet(first, limits.calls)
  }

  /** The code is the declared script, and what it is called with is the map of the declared inputs. */
  ghost predicate GivenExactly(q: Request, c: Codec, package: Package)
    requires Identified(q)
    reads package
  {
    && ScriptMatches(c.sha256, q.script.value, package.script)
    && InputsMatch(c.sha256, q.inputs.value, package.read)
    && (package.given.Some? ==> package.given.value == InputMap(q.inputs.value, package.read))
  }

  /** The input map of an accepted request: every slot once, of its declared bytes, 64 MiB at most. */
  lemma InputsAreExact(q: Request, sha256: string -> string, values: seq<string>)
    requires Identified(q) && InputsMatch(sha256, q.inputs.value, values)
    ensures var ds, m := q.inputs.value, InputMap(q.inputs.value, values);
      && |m| == |ds| <= MAX_ITEMS && TotalBytes(values) <= AGGREGATE_MAX
      && forall i :: 0 <= i < |ds| ==> ds[i].slot in m && Matches(sha256, ds[i], m[ds[i].slot])
  {
    InputMapHasAll(q.inputs.value, values);
    BytesAreTotal(q.inputs.value, values);
  }

  lemma OneMoreInput(sha256: string -> string, ds: seq<Descriptor>, i: nat, values: seq<string>, value: string)
    requires i < |ds| && ds[i].Descriptor? && Matches(sha256, ds[i], value) && InputsMatch(sha256, ds[..i], values)
    ensures InputsMatch(sha256, ds[..i + 1], values + [value])
    ensures InputMap(ds[..i + 1], values + [value]) == InputMap(ds[..i], values)[ds[i].slot := value]
  {
    assert (values + [value])[..i] == values && ds[..i + 1][..i] == ds[..i];
  }

  /** The i-th input is not there with one link, or the i-th reading since `before` is not what it declares. */
  ghost predicate InputRefused(t: Tree, session: nat, before: seq<(nat, string)>, after: seq<(nat, string)>,
                               ds: seq<Descriptor>, i: nat, sha256: string -> string)
  {
    && i < |ds| && ds[i].Descriptor?
    && (!HasInput(t, session, ds[i].slot)
        || (|before| + i < |after| && !Matches(sha256, ds[i], after[|before| + i].1)))
  }

  /** The same of the script, after n inputs. */
  ghost predicate ScriptRefused(t: Tree, root: nat, before: seq<(nat, string)>, after: seq<(nat, string)>, n: nat,
                                s: Script, sha256: string -> string)
  {
    || !HasPath(t, root, Split(s.path))
    || (|before| + n < |after| && !ScriptMatches(sha256, s, after[|before| + n].1))
  }

  /** A call failed, a file was cut, or an input was refused. */
  ghost predicate InputsHindered(quiet: bool, whole: bool, t: Tree, session: nat, before: seq<(nat, string)>,
                                 after: seq<(nat, string)>, ds: seq<Descriptor>, sha256: string -> string)
  {
    !quiet || !whole || exists i :: InputRefused(t, session, before, after, ds, i, sha256)
  }

  /** Why package code does not run. */
  ghost predicate Hindered(quiet: bool, whole: bool, t: Tree, session: nat, root: nat, before: seq<(nat, string)>,
                           after: seq<(nat, string)>, ds: seq<Descriptor>, s: Script, sha256: string -> string)
  {
    || InputsHindered(quiet, whole, t, session, before, after, ds, sha256)
    || ScriptRefused(t, root, before, after, |ds|, s, sha256)
  }

  lemma StillHindered(quiet: bool, later: bool, whole: bool, t: Tree, session: nat, root: nat,
                      before: seq<(nat, string)>, after: seq<(nat, string)>, ds: seq<Descriptor>, s: Script,
                      sha256: string -> string)
    requires Hindered(quiet, whole, t, session, root, before, after, ds, s, sha256) && (later ==> quiet)
    ensures Hindered(later, whole, t, session, root, before, after, ds, s, sha256)
  {
  }

  /** One turn of the comprehension. */
  method ReadNext(k: Kernel, session: nat, ds: seq<Descriptor>, i: nat, sha256: string -> string, ghost a: Table,
                  ghost first: nat, ghost cut: nat, ghost before: seq<(nat, string)>)
      returns (value: Result<string, Error>)
    requires k.Valid() && session < k.tree.next && i < |ds| && ValidAlone(ds[i]) && Sound(a) && Balanced(a, k.t, {})
    requires first <= k.calls && cut <= k.cut && before <= k.readings && |k.readings| == |before| + i
    modifies k`t, k`calls, k`raised, k`readings, k`cut
    ensures k.Valid() && Balanced(a, k.t, {}) && NewOnly(old(k.raised), k.raised, |old(k.t).nodes|)
    ensures old(k.calls) <= k.calls && old(k.cut) <= k.cut && |old(k.t).nodes| <= |k.t.nodes|
    ensures value.Success? ==>
      Matches(sha256, ds[i], value.value) && before <= k.readings && |k.readings| == |before| + i + 1
    ensures value.Failure? ==>
      InputsHindered(k.Quiet(first, k.calls), k.cut == cut, k.tree, session, before, k.readings, ds, sha256)
  {
    ghost var b := k.t;
    value := ReadExactInput(k, session, ds[i], sha256);
    BalancedThen(a, b, k.t, {}, {});
    k.QuietSplits(first, old(k.calls), k.calls);
    if value.Failure? {
      InputNotRead(k.tree, session, before, old(k.readings), k.readings, ds, i, sha256,
                   k.Quiet(old(k.calls), k.calls), k.cut == old(k.cut));
    }
  }

  lemma InputNotRead(t: Tree, session: nat, before: seq<(nat, string)>, mid: seq<(nat, string)>,
                     after: seq<(nat, string)>, ds: seq<Descriptor>, i: nat, sha256: string -> string, quiet: bool,
                     whole: bool)
    requires i < |ds| && ds[i].Descriptor? && |mid| == |before| + i
    requires quiet && HasInput(t, session, ds[i].slot) && whole ==>
      mid <= after && |after| == |mid| + 1 && !Matches(sha256, ds[i], after[|mid|].1)
    ensures InputsHindered(quiet, whole, t, session, before, after, ds, sha256)
  {
    if quiet && whole {
      assert InputRefused(t, session, before, after, ds, i, sha256);
    }
  }

  lemma ScriptNotRead(t: Tree, root: nat, before: seq<(nat, string)>, mid: seq<(nat, string)>,
                      after: seq<(nat, string)>, n: nat, s: Script, sha256: string -> string, quiet: bool)
    requires |mid| == |before| + n
    requires quiet && HasPath(t, root, Split(s.path)) ==>
      mid <= after && |after| == |mid| + 1 && !ScriptMatches(sha256, s, after[|mid|].1)
    ensures !quiet || ScriptRefused(t, root, before, after, n, s, sha256)
  {
  }

  /** The dict comprehension that reads every input. */
  method ReadInputs(k: Kernel, session: nat, ds: seq<Descriptor>, sha256: string -> string)
      returns (inputs: Option<map<string, string>>, ghost values: seq<string>)
    requires k.Valid() && session < k.tree.next && Acceptable(ds)
    modifies k`t, k`calls, k`raised, k`readings, k`cut
    ensures k.Valid() && Balanced(old(k.t), k.t, {}) && NewOnly(old(k.raised), k.raised, |old(k.t).nodes|)
    ensures old(k.calls) <= k.calls && old(k.cut) <= k.cut
    ensures inputs.Some? ==>
      && InputsMatch(sha256, ds, values) && inputs.value == InputMap(ds, values)
      && old(k.readings) <= k.readings && |k.readings| == |old(k.readings)| + |ds|
    ensures inputs.None? ==>
      InputsHindered(k.Quiet(old(k.calls), k.calls), k.cut == old(k.cut), k.tree, session, old(k.readings), k.readings,
                     ds, sha256)
  {
    BalancedStart(k.t);
    var m: map<string, string> := map[];
    values := [];
    var i := 0;
    while i < |ds|
      invariant 0 <= i <= |ds| && k.Valid() && k.tree == old(k.tree) && Balanced(old(k.t), k.t, {})
      invariant NewOnly(old(k.raised), k.raised, |old(k.t).nodes|) && old(k.calls) <= k.calls && old(k.cut) <= k.cut
      invariant old(k.readings) <= k.readings && |k.readings| == |old(k.readings)| + i
      invariant InputsMatch(sha256, ds[..i], values) && m == InputMap(ds[..i], values)
    {
      var value := ReadNext(k, session, ds, i, sha256, old(k.t), old(k.calls), old(k.cut), old(k.readings));
      if value.Failure? {
        return None, values;
      }
      OneMoreInput(sha256, ds, i, values, value.value);
      m := m[ds[i].slot := value.value];
      values := values + [value.value];
      i := i + 1;
    }
    assert ds[..i] == ds;
    inputs := Some(m);
  }

  /** Every input, and then the script. */
  method ReadAll(k: Kernel, ds: seq<Descriptor>, s: Script, sha256: string -> string, session: nat, root: nat)
      returns (read: Option<(map<string, string>, string)>, ghost values: seq<string>)
    requires k.Valid() && session < k.tree.next && root < k.tree.next && Acceptable(ds)
    modifies k`t, k`tree, k`calls, k`raised, k`readings, k`cut
    ensures k.Valid() && k.tree == old(k.tree) && Balanced(old(k.t), k.t, {})
    ensures NewOnly(old(k.raised), k.raised, |old(k.t).nodes|) && old(k.calls) <= k.calls
    ensures read.Some? ==>
      && InputsMatch(sha256, ds, values) && read.value.0 == InputMap(ds, values)
      && ScriptMatches(sha256, s, read.value.1)
    ensures read.None? ==>
      Hindered(k.Quiet(old(k.calls), k.calls), k.cut == old(k.cut), k.tree, session, root, old(k.readings), k.readings,
               ds, s, sha256)
  {
    ghost var a := k.t;
    var inputs;
    inputs, values := ReadInputs(k, session, ds, sha256);
    if inputs.None? {
      return None, values;
    }
    var script := ReadScript(k, root, s, sha256, a, old(k.calls), old(k.cut), old(k.readings), |ds|);
    read := if script.Failure? then None else Some((inputs.value, script.value));
  }

  /** The script, after n inputs. */
  method ReadScript(k: Kernel, root: nat, s: Script, sha256: string -> string, ghost a: Table, ghost first: nat,
                    ghost cut: nat, ghost before: seq<(nat, string)>, ghost n: nat)
      returns (script: Result<string, Error>)
    requires k.Valid() && root < k.tree.next && Sound(a) && Balanced(a, k.t, {})
    requires first <= k.calls && cut <= k.cut && before <= k.readings && |k.readings| == |before| + n
    modifies k`t, k`tree, k`calls, k`raised, k`readings, k`cut
    ensures k.Valid() && k.tree == old(k.tree) && Balanced(a, k.t, {}) && old(k.calls) <= k.calls
    ensures NewOnly(old(k.raised), k.raised, |old(k.t).nodes|)
    ensures script.Success? ==> ScriptMatches(sha256, s, script.value)
    ensures script.Failure? ==>
      !k.Quiet(first, k.calls) || k.cut != cut || ScriptRefused(k.tree, root, before, k.readings, n, s, sha256)
  {
    ghost var b := k.t;
    script := ReadExactScript(k, root, s, sha256);
    BalancedThen(a, b, k.t, {}, {});
    k.QuietSplits(first, old(k.calls), k.calls);
    if script.Failure? {
      ScriptNotRead(k.tree, root, before, old(k.readings), k.readings, n, s, sha256,
                    k.Quiet(old(k.calls), k.calls) && k.cut == old(k.cut));
    }
  }

  /** Everything before the package's result comes back. */
  method RunPackage(k: Kernel, package: Package, q: Request, c: Codec, session: nat, root: nat)
      returns (raw: Option<Raw>)
    requires k.Valid() && session < k.tree.next && root < k.tree.next && Identified(q)
    requires !package.ran && package.given == None
    modifies k`t, k`tree, k`calls, k`raised, k`readings, k`cut, package
    ensures k.Valid() && k.tree == old(k.tree) && Balanced(old(k.t), k.t, {})
    ensures NewOnly(old(k.raised), k.raised, |old(k.t).nodes|) && old(k.calls) <= k.calls
    ensures raw.Some? ==> package.ran
    ensures package.ran ==> GivenExactly(q, c, package) && Balanced(old(k.t), package.table, {})
    ensures !package.ran ==>
      Hindered(k.Quiet(old(k.calls), k.calls), k.cut == old(k.cut), k.tree, session, root, old(k.readings), k.readings,
               q.inputs.value, q.script.value, c.sha256)
  {
    raw := None;
    ghost var values: seq<string>;
    var read;
    read, values := ReadAll(k, q.inputs.value, q.script.value, c.sha256, session, root);
    if read.None? {
      return;
    }
    var callable := package.Load(read.value.1, values, k.t);
    if callable {
      raw := package.Run(read.value.0);
    }
  }

  /**
   What a request did to the two output files.  Nothing was truncated unless the package's
   result was accepted; with nothing truncated both files are as they were; and a success wrote
   exactly the encoded result and, if there is one, the artifact.  `faulty` says that a close
   raised; without that, complete writes are a success.
   */
  ghost predicate Delivered(q: Request, c: Codec, f0: map<nat, string>, f1: map<nat, string>, log: seq<nat>,
                            x: nat, y: nat, answer: Option<Raw>, faulty: bool)
  {
    if log == [] then answer.None? && f1 == f0
    else exists raw: Raw, ok: bool ::
           && DeliveredFor(q, c, f0, f1, log, x, y, raw, ok)
           && (answer.Some? ==> ok && answer.value == raw) && (ok && !faulty ==> answer.Some?)
  }

  ghost predicate DeliveredFor(q: Request, c: Codec, f0: map<nat, string>, f1: map<nat, string>, log: seq<nat>,
                               x: nat, y: nat, raw: Raw, ok: bool)
  {
    && Outputs(q, c, raw).Some?
    && Wrote(f0, f1, log, x, y, Outputs(q, c, raw).value.0, Outputs(q, c, raw).value.1, ok)
  }

  /** On success both files hold exactly what was returned; no other file is changed. */
  lemma SuccessIsExact(q: Request, c: Codec, f0: map<nat, string>, f1: map<nat, string>, log: seq<nat>, x: nat, y: nat,
                       raw: Raw, faulty: bool)
    requires x != y && Delivered(q, c, f0, f1, log, x, y, Some(raw), faulty)
    ensures Outputs(q, c, raw).Some?
    ensures var out := Outputs(q, c, raw).value;
      && x in f1 && f1[x] == out.0
      && (out.1.Some? ==> y in f1 && f1[y] == out.1.value && f1 == f0[x := out.0][y := out.1.value])
      && (out.1.None? ==> f1 == f0[x := out.0])
  {
    assert log != [];
  }

  /** Accept the package's result and write it. */
  method Deliver(k: Kernel, store: Store, rx: nat, ry: nat, q: Request, c: Codec, raw: Option<Raw>)
      returns (answer: Option<Raw>)
    requires k.Valid() && rx in k.t.open && ry in k.t.open && rx != ry
    requires store.truncated == [] && store.offsets == map[]
    modifies store, k`calls
    ensures store.truncated != [] ==> raw.Some?
    ensures Delivered(q, c, old(store.files), store.files, store.truncated, k.t.nodes[rx], k.t.nodes[ry], answer, false)
    ensures old(k.calls) <= k.calls
  {
    answer := None;
    if raw.None? || Outputs(q, c, raw.value).None? {
      return;
    }
    var out := Outputs(q, c, raw.value).value;
    var ok;
    ghost var log: seq<nat>;
    ok, log := WriteOutputs(k, store, rx, ry, out.0, out.1);
    assert store.truncated == log;
    assert DeliveredFor(q, c, old(store.files), store.files, log, k.t.nodes[rx], k.t.nodes[ry], raw.value, ok);
    answer := if ok then raw else None;
  }

  /**
   What stays open after a request whose pinning began at call c: both outputs exactly when they
   were pinned and the directory's close raised, the artifact's exactly when they were pinned and
   the close of the result raised, and otherwise nothing.
   */
  ghost predicate LeftOpen(k: Kernel, session: nat, base: Table, c: nat, before: seq<nat>, stranded: set<nat>)
    requires before <= k.raised
    reads k
  {
    var x := |base.nodes| + 1;
    var pinned := Pinnable(k.answers, k.tree, session, c);
    stranded == if pinned && !k.Works(c + 6) then {x, x + 1}
                else if pinned && x in k.raised[|before|..] then {x + 1}
                else {}
  }

  /**
   `_execute_authenticated_request`.  Code runs only when everything was checked and applied and
   both outputs are pinned, and then it runs unless a call fails, a file is cut while it is read,
   or an input or the script is not what the request declares; on every exit the descriptors are
   those of the start, unless a close raised at one of two places.
   */
  method ExecuteAuthenticatedRequest(k: Kernel, limits: Limits, store: Store, package: Package, q: Request, c: Codec,
                                     session: nat, root: nat, available: bool)
      returns (answer: Option<Raw>, ghost stranded: set<nat>, ghost x: nat, ghost y: nat)
    requires k.Valid() && limits.Valid() && session < k.tree.next && root < k.tree.next
    requires !package.ran && package.given == None && store.truncated == [] && store.offsets == map[]
    modifies k`t, k`tree, k`calls, k`raised, k`readings, k`cut, limits, store, package
    ensures k.Valid() && limits.Valid() && k.tree == old(k.tree) && Balanced(old(k.t), k.t, stranded)
    ensures old(k.raised) <= k.raised
    ensures if Served(q, c, limits, old(limits.v), old(limits.calls), available)
            then LeftOpen(k, session, old(k.t), old(k.calls), old(k.raised), stranded)
            else stranded == {} && k.t == old(k.t) && k.calls == old(k.calls)
    ensures k.raised == old(k.raised) || answer.Some? ==> stranded == {}
    ensures package.ran ==>
      && Cleared(q, c, limits, package, old(limits.v)) && OutputsOpen(k.tree, old(k.t), package.table, session)
    ensures Served(q, c, limits, old(limits.v), old(limits.calls), available) ==>
      Pinnable(k.answers, k.tree, session, old(k.calls)) && k.Works(old(k.calls) + 6) ==>
        !package.ran ==>
          Hindered(k.Quiet(old(k.calls), k.calls), k.cut == old(k.cut), k.tree, session, root, old(k.readings),
                   k.readings, q.inputs.value, q.script.value, c.sha256)
    ensures package.ran ==>
      x != y && IsEntry(k.tree, session, "result.json", x) && IsEntry(k.tree, session, "artifact.bin", y)
    ensures store.truncated != [] ==> package.ran
    ensures Delivered(q, c, old(store.files), store.files, store.truncated, x, y, answer, k.raised != old(k.raised))
  {
    BalancedStart(k.t);
    answer, stranded, x, y := None, {}, 0, 0;
    var known := ValidateRequestIdentity(q);
    if !known {
      return;
    }
    var applied := limits.ApplyHardLimits(c.limits, q.limitsDigest, available);
    if !applied {
      return;
    }
    answer, stranded, x, y := ServeRequest(k, store, package, q, c, session, root);
  }

  /** The rest, once the limits are applied: pin the outputs, run the package, write, and release. */
  method ServeRequest(k: Kernel, store: Store, package: Package, q: Request, c: Codec, session: nat, root: nat)
      returns (answer: Option<Raw>, ghost stranded: set<nat>, ghost x: nat, ghost y: nat)
    requires k.Valid() && session < k.tree.next && root < k.tree.next && Identified(q)
    requires !package.ran && package.given == None && store.truncated == [] && store.offsets == map[]
    modifies k`t, k`tree, k`calls, k`raised, k`readings, k`cut, store, package
    ensures k.Valid() && k.tree == old(k.tree) && Balanced(old(k.t), k.t, stranded)
    ensures old(k.raised) <= k.raised && LeftOpen(k, session, old(k.t), old(k.calls), old(k.raised), stranded)
    ensures k.raised == old(k.raised) || answer.Some? ==> stranded == {}
    ensures package.ran ==> GivenExactly(q, c, package) && OutputsOpen(k.tree, old(k.t), package.table, session)
    ensures !package.ran && Pinnable(k.answers, k.tree, session, old(k.calls)) && k.Works(old(k.calls) + 6) ==>
      Hindered(k.Quiet(old(k.calls), k.calls), k.cut == old(k.cut), k.tree, session, root, old(k.readings), k.readings,
               q.inputs.value, q.script.value, c.sha256)
    ensures package.ran ==>
      x != y && IsEntry(k.tree, session, "result.json", x) && IsEntry(k.tree, session, "artifact.bin", y)
    ensures store.truncated != [] ==> package.ran
    ensures Delivered(q, c, old(store.files), store.files, store.truncated, x, y, answer, k.raised != old(k.raised))
  {
    answer, x, y := None, 0, 0;
    var outputs;
    outputs, stranded := PinPrecreatedOutputs(k, session);
    if outputs.Failure? {
      return;
    }
    x, y := k.t.nodes[outputs.value.0], k.t.nodes[outputs.value.1];
    ghost var mid := k.calls;
    answer, stranded := RunAndDeliver(k, store, package, q, c, session, root, outputs.value.0, outputs.value.1,
                                      old(k.t));
    k.QuietSplits(old(k.calls), mid, k.calls);
    if !package.ran {
      StillHindered(k.Quiet(mid, k.calls), k.Quiet(old(k.calls), k.calls), k.cut == old(k.cut), k.tree, session,
                    root, old(k.readings), k.readings, q.inputs.value, q.script.value, c.sha256);
    }
  }

  /** The body of the last `try`, and its `finally`. */
  method RunAndDeliver(k: Kernel, store: Store, package: Package, q: Request, c: Codec, session: nat, root: nat,
                       rx: nat, ry: nat, ghost a: Table)
      returns (answer: Option<Raw>, ghost stranded: set<nat>)
    requires k.Valid() && session < k.tree.next && root < k.tree.next && Identified(q)
    requires !package.ran && package.given == None && store.truncated == [] && store.offsets == map[]
    requires Sound(a) && Balanced(a, k.t, {rx, ry}) && PinnedOutputs(k, session, rx, ry)
    requires rx == |a.nodes| + 1 && ry == |a.nodes| + 2
    modifies k`t, k`tree, k`calls, k`raised, k`readings, k`cut, store, package
    ensures k.Valid() && k.tree == old(k.tree) && Balanced(a, k.t, stranded)
    ensures old(k.raised) <= k.raised && stranded == if rx in k.raised[|old(k.raised)|..] then {ry} else {}
    ensures answer.Some? ==> stranded == {}
    ensures package.ran ==> GivenExactly(q, c, package) && OutputsOpen(k.tree, a, package.table, session)
    ensures old(k.calls) <= k.calls
    ensures !package.ran ==>
      Hindered(k.Quiet(old(k.calls), k.calls), k.cut == old(k.cut), k.tree, session, root, old(k.readings), k.readings,
               q.inputs.value, q.script.value, c.sha256)
    ensures store.truncated != [] ==> package.ran
    ensures Delivered(q, c, old(store.files), store.files, store.truncated, old(k.t).nodes[rx], old(k.t).nodes[ry],
                      answer, k.raised != old(k.raised))
  {
    answer := RunAndWrite(k, store, package, q, c, session, root, rx, ry, a);
    ghost var log, mid := k.raised, k.calls;
    var closed;
    closed, stranded := ReleaseOutputs(k, rx, ry, a);
    k.QuietSplits(old(k.calls), mid, k.calls);
    if !package.ran {
      StillHindered(k.Quiet(old(k.calls), mid), k.Quiet(old(k.calls), k.calls), k.cut == old(k.cut), k.tree, session,
                    root, old(k.readings), k.readings, q.inputs.value, q.script.value, c.sha256);
    }
    OnlyHere(old(k.raised), log, k.raised, rx, |old(k.t).nodes|);
    if !closed {
      answer := None;
    }
  }

  /** The body of that `try`: both outputs stay open all the time. */
  method RunAndWrite(k: Kernel, store: Store, package: Package, q: Request, c: Codec, session: nat, root: nat,
                     rx: nat, ry: nat, ghost a: Table)
      returns (answer: Option<Raw>)
    requires k.Valid() && session < k.tree.next && root < k.tree.next && Identified(q)
    requires !package.ran && package.given == None && store.truncated == [] && store.offsets == map[]
    requires Sound(a) && Balanced(a, k.t, {rx, ry}) && PinnedOutputs(k, session, rx, ry)
    requires rx == |a.nodes| + 1 && ry == |a.nodes| + 2
    modifies k`t, k`tree, k`calls, k`raised, k`readings, k`cut, store, package
    ensures k.Valid() && k.tree == old(k.tree) && Balanced(a, k.t, {rx, ry}) && old(k.t).nodes <= k.t.nodes
    ensures NewOnly(old(k.raised), k.raised, |old(k.t).nodes|)
    ensures package.ran ==> GivenExactly(q, c, package) && OutputsOpen(k.tree, a, package.table, session)
    ensures old(k.calls) <= k.calls
    ensures !package.ran ==>
      Hindered(k.Quiet(old(k.calls), k.calls), k.cut == old(k.cut), k.tree, session, root, old(k.readings), k.readings,
               q.inputs.value, q.script.value, c.sha256)
    ensures store.truncated != [] ==> package.ran
    ensures Delivered(q, c, old(store.files), store.files, store.truncated, old(k.t).nodes[rx], old(k.t).nodes[ry],
                      answer, false)
  {
    assert OutputsOpen(k.tree, a, k.t, session);
    var raw := RunPinned(k, package, q, c, session, root, a, {rx, ry});
    ghost var mid := k.calls;
    answer := Deliver(k, store, rx, ry, q, c, raw);
    k.QuietSplits(old(k.calls), mid, k.calls);
    if !package.ran {
      StillHindered(k.Quiet(old(k.calls), mid), k.Quiet(old(k.calls), k.calls), k.cut == old(k.cut), k.tree, session,
                    root, old(k.readings), k.readings, q.inputs.value, q.script.value, c.sha256);
    }
  }

  /** Package code runs while the outputs stay open. */
  method RunPinned(k: Kernel, package: Package, q: Request, c: Codec, session: nat, root: nat, ghost a: Table,
                   ghost kept: set<nat>)
      returns (raw: Option<Raw>)
    requires k.Valid() && session < k.tree.next && root < k.tree.next && Identified(q)
    requires !package.ran && package.given == None
    requires Sound(a) && Balanced(a, k.t, kept) && OutputsOpen(k.tree, a, k.t, session)
    modifies k`t, k`tree, k`calls, k`raised, k`readings, k`cut, package
    ensures k.Valid() && k.tree == old(k.tree) && Balanced(a, k.t, kept) && old(k.t).nodes <= k.t.nodes
    ensures NewOnly(old(k.raised), k.raised, |old(k.t).nodes|)
    ensures raw.Some? ==> package.ran
    ensures package.ran ==> GivenExactly(q, c, package) && OutputsOpen(k.tree, a, package.table, session)
    ensures old(k.calls) <= k.calls
    ensures !package.ran ==>
      Hindered(k.Quiet(old(k.calls), k.calls), k.cut == old(k.cut), k.tree, session, root, old(k.readings), k.readings,
               q.inputs.value, q.script.value, c.sha256)
  {
    raw := RunPackage(k, package, q, c, session, root);
    if package.ran {
      StillOpen(k.tree, a, old(k.t), package.table, session);
    }
    StillKept(a, old(k.t), k.t, kept);
  }

  /** Whether `fd` is new in the log depends on its last part only. */
  lemma OnlyHere(before: seq<nat>, log: seq<nat>, after: seq<nat>, fd: nat, bound: nat)
    requires NewOnly(before, log, bound) && log <= after && fd < bound
    ensures fd in after[|before|..] <==> fd in after[|log|..]
  {
    assert forall i :: |before| <= i < |log| ==> after[i] == log[i];
    assert forall i :: |before| <= i < |after| ==> after[|before|..][i - |before|] == after[i];
    assert forall i :: |log| <= i < |after| ==> after[|log|..][i - |log|] == after[i];
  }
}
