/**
 The bytes of the transport attempt ledger: how one record is written, how the recorder
 decodes a whole file (`_decode_records`) and how the acceptance driver counts the same
 file (`_transport_counts`).

 File contents are strings in which every char stands for one byte.  The three standard
 library functions involved are parameters collected in `Library`; `Lawful` says what is
 required of them, and `ALawfulLibraryExists` that the requirement can be met.
 */
module LedgerFormat {
  import opened Text
  import opened Wrappers

  datatype Kind = Model | Web

  datatype Record = Record(kind: Kind, digest: string)

  datatype Json = JString(text: string) | JObject(fields: map<string, Json>) | JOther

  /** `bytes.decode("utf-8")`, `json.loads` (None when it raises) and `sha256(..).hexdigest()`. */
  datatype Library = Library(utf8: string -> Option<string>, loads: string -> Option<Json>, sha256: string -> string)

  const SCHEMA := "first-agent/transport-attempt/v1"
  const MAX_LEDGER_BYTES := 1_000_000
  const KEYS := {"schema", "kind", "destination_digest"}

  // ---------------------------------------------------------------- one record

  predicate IsRecord(r: Record) {
    IsDigest(r.digest)
  }

  function KindName(k: Kind): string {
    match k
    case Model => "model"
    case Web => "web"
  }

  function Document(r: Record): Json {
    JObject(map["schema" := JString(SCHEMA), "kind" := JString(KindName(r.kind)),
                "destination_digest" := JString(r.digest)])
  }

  const OPENING := "{\"destination_digest\":\""
  const KIND_FIELD := "\",\"kind\":\""
  const SCHEMA_FIELD := "\",\"schema\":\""
  const CLOSING := "\"}"

  /** `json.dumps(document, sort_keys=True, separators=(",", ":"))`. */
  function Line(r: Record): string {
    OPENING + r.digest + KIND_FIELD + KindName(r.kind) + SCHEMA_FIELD + SCHEMA + CLOSING
  }

  function Payload(r: Record): string {
    Line(r) + "\n"
  }

  function EncodeAll(rs: seq<Record>): string {
    if rs == [] then "" else EncodeAll(rs[..|rs| - 1]) + Payload(rs[|rs| - 1])
  }

  /** The checks at the head of `record`: a call that fails them raises before any file is touched. */
  function Admit(lib: Library, kind: string, destination: string): Option<Record> {
    if kind !in {"model", "web"} then None
    else if destination == "" || exists i :: 0 <= i < |destination| && destination[i] < ' ' then None
    else Some(Record(if kind == "model" then Model else Web, lib.sha256(destination)))
  }

  // ---------------------------------------------------------------- lines

  /** The line boundaries of Python's `str.splitlines`. */
  predicate IsBreak(c: char) {
    '\n' <= c <= '\r' || '\U{1C}' <= c <= '\U{1E}' || c == '\U{85}' || '\U{2028}' <= c <= '\U{2029}'
  }

  predicate Unbroken(t: string) {
    forall i :: 0 <= i < |t| ==> !IsBreak(t[i])
  }

  predicate Ascii(t: string) {
    forall i :: 0 <= i < |t| ==> t[i] < '\U{80}'
  }

  predicate Terminated(t: string) {
    t == "" || t[|t| - 1] == '\n'
  }

  function BreakAt(t: string): (n: nat)
    ensures n <= |t| && Unbroken(t[..n])
    ensures n < |t| ==> IsBreak(t[n])
  {
    if t == "" || IsBreak(t[0]) then 0
    else
      var n := 1 + BreakAt(t[1..]);
      assert t[..n] == [t[0]] + t[1..][..n - 1];
      n
  }

  /** The width of the boundary that starts at n: a carriage return and line feed count as one. */
  function BreakWidth(t: string, n: nat): (w: nat)
    requires n < |t|
    ensures 1 <= w <= |t| - n
  {
    if t[n] == '\r' && n + 1 < |t| && t[n + 1] == '\n' then 2 else 1
  }

  function SplitLines(t: string): seq<string>
    decreases |t|
  {
    if t == "" then []
    else
      var n := BreakAt(t);
      if n == |t| then [t] else [t[..n]] + SplitLines(t[n + BreakWidth(t, n)..])
  }

  lemma BreakAtIs(t: string, n: nat)
    requires n <= |t| && Unbroken(t[..n]) && (n < |t| ==> IsBreak(t[n]))
    ensures BreakAt(t) == n
  {
    var m := BreakAt(t);
    if m < n {
      BreakBreaks(t, m, n);
    } else if n < m {
      BreakBreaks(t, n, m);
    }
  }

  lemma BreakBreaks(t: string, m: nat, n: nat)
    requires m < n <= |t| && IsBreak(t[m])
    ensures !Unbroken(t[..n])
  {
    assert t[..n][m] == t[m];
  }

  lemma LastBreak(a: string)
    requires Terminated(a) && a != ""
    ensures BreakAt(a) < |a|
  {
    assert IsBreak(a[|a| - 1]);
    assert a[..|a|] == a;
  }

  lemma SplitFirst(t: string, n: nat)
    requires n < |t| && Unbroken(t[..n]) && IsBreak(t[n])
    ensures SplitLines(t) == [t[..n]] + SplitLines(t[n + BreakWidth(t, n)..])
  {
    BreakAtIs(t, n);
  }

  lemma {:induction false} SplitLinesAppend(a: string, b: string)
    requires Terminated(a)
    ensures SplitLines(a + b) == SplitLines(a) + SplitLines(b)
    decreases |a|
  {
    if a == "" {
      assert a + b == b;
    } else {
      LastBreak(a);
      var n := BreakAt(a);
      var rest := TerminatedRest(a, n);
      SplitFirstOfAppend(a, b, n);
      SplitLinesAppend(rest, b);
      Regroup(a[..n], SplitLines(rest), SplitLines(b));
    }
  }

  lemma Regroup(first: string, rest: seq<string>, more: seq<string>)
    ensures [first] + (rest + more) == [first] + rest + more
  {
  }

  lemma TerminatedRest(a: string, n: nat) returns (rest: string)
    requires Terminated(a) && n < |a| && Unbroken(a[..n]) && IsBreak(a[n])
    ensures rest == a[n + BreakWidth(a, n)..] && Terminated(rest) && |rest| < |a|
    ensures SplitLines(a) == [a[..n]] + SplitLines(rest)
  {
    SplitFirst(a, n);
    rest := a[n + BreakWidth(a, n)..];
  }

  lemma SplitFirstOfAppend(a: string, b: string, n: nat)
    requires Terminated(a) && n < |a| && Unbroken(a[..n]) && IsBreak(a[n])
    ensures SplitLines(a + b) == [a[..n]] + SplitLines(a[n + BreakWidth(a, n)..] + b)
  {
    SameBreak(a, b, n);
    SplitFirst(a + b, n);
  }

  lemma SameBreak(a: string, b: string, n: nat)
    requires Terminated(a) && n < |a| && IsBreak(a[n])
    ensures (a + b)[..n] == a[..n] && (a + b)[n] == a[n] && BreakWidth(a + b, n) == BreakWidth(a, n)
    ensures (a + b)[n + BreakWidth(a, n)..] == a[n + BreakWidth(a, n)..] + b
  {
    assert n + 1 < |a| ==> (a + b)[n + 1] == a[n + 1];
  }

  lemma SplitOneLine(line: string)
    requires Unbroken(line) && line != ""
    ensures SplitLines(line) == [line]
    ensures SplitLines(line + "\n") == [line]
  {
    assert BreakAt(line) == |line|;
    var t := line + "\n";
    assert t[..|line|] == line;
    SplitFirst(t, |line|);
    assert t[|line| + 1..] == "";
  }

  /** A line boundary: a carriage return and line feed, or any one of the ten single ones. */
  predicate IsEnd(end: string) {
    end == "\r\n" || (|end| == 1 && end[0] as int in [0x0A, 0x0B, 0x0C, 0x0D, 0x1C, 0x1D, 0x1E, 0x85, 0x2028, 0x2029])
  }

  function Joined(lines: seq<string>, ends: seq<string>): string
    requires |lines| == |ends|
  {
    if lines == [] then "" else lines[0] + ends[0] + Joined(lines[1..], ends[1..])
  }

  /** Lines without boundaries, each with its own; the last may lack one unless it is empty. */
  predicate Lined(lines: seq<string>, ends: seq<string>) {
    && |lines| == |ends|
    && (forall i :: 0 <= i < |lines| ==> Unbroken(lines[i]))
    && (forall i :: 0 <= i < |lines| ==> IsEnd(ends[i]) || (i == |lines| - 1 && ends[i] == "" && lines[i] != ""))
    && (forall i :: 0 <= i < |lines| - 1 && ends[i] == "\r" && lines[i + 1] == "" ==> ends[i + 1] != "\n")
  }

  /** `splitlines` gives back the lines that were joined with their boundaries. */
  lemma {:induction false} SplitJoins(lines: seq<string>, ends: seq<string>)
    requires Lined(lines, ends)
    ensures SplitLines(Joined(lines, ends)) == lines
    decreases |lines|
  {
    if lines != [] {
      var rest := Joined(lines[1..], ends[1..]);
      SplitJoins(lines[1..], ends[1..]);
      if ends[0] == "" {
        assert lines[0] + ends[0] + rest == lines[0];
        SplitOneLine(lines[0]);
      } else {
        FirstOfRest(lines[1..], ends[1..]);
        FirstLine(lines[0], ends[0], rest);
      }
    }
  }

  lemma FirstOfRest(lines: seq<string>, ends: seq<string>)
    requires Lined(lines, ends)
    ensures var rest := Joined(lines, ends);
            rest != "" && rest[0] == '\n' ==> lines != [] && lines[0] == "" && ends[0] == "\n"
  {
    if lines != [] && lines[0] != "" {
      assert Joined(lines, ends)[0] == lines[0][0];
    }
  }

  lemma FirstLine(line: string, end: string, rest: string)
    requires Unbroken(line) && IsEnd(end) && (end == "\r" ==> rest == "" || rest[0] != '\n')
    ensures SplitLines(line + end + rest) == [line] + SplitLines(rest)
  {
    var t := line + end + rest;
    BreaksAre(end[0]);
    assert t[..|line|] == line && t[|line|] == end[0];
    assert t[|line| + |end|..] == rest;
    SplitFirst(t, |line|);
  }

  // ---------------------------------------------------------------- the recorder's decoder

  function ParseRecord(j: Option<Json>): Option<Record> {
    if j.Some? && j.value.JObject? && j.value.fields.Keys == KEYS then
      var f := j.value.fields;
      if f["schema"] == JString(SCHEMA)
         && (f["kind"] == JString("model") || f["kind"] == JString("web"))
         && f["destination_digest"].JString? && IsDigest(f["destination_digest"].text)
      then Some(Record(if f["kind"] == JString("model") then Model else Web, f["destination_digest"].text))
      else None
    else None
  }

  function ParseLines(lib: Library, lines: seq<string>): Option<seq<Record>> {
    if lines == [] then Some([])
    else
      var last := ParseRecord(lib.loads(lines[|lines| - 1]));
      var rest := ParseLines(lib, lines[..|lines| - 1]);
      if last.Some? && rest.Some? then Some(rest.value + [last.value]) else None
  }

  function DecodeText(lib: Library, bytes: string): Option<seq<Record>> {
    var text := lib.utf8(bytes);
    if text.None? then None else ParseLines(lib, SplitLines(text.value))
  }

  /** `_decode_records`; None is the OSError. */
  function Decode(lib: Library, bytes: string): Option<seq<Record>> {
    if bytes == "" then Some([])
    else if |bytes| > MAX_LEDGER_BYTES || bytes[|bytes| - 1] != '\n' then None
    else DecodeText(lib, bytes)
  }

  /** One `os.read` of a regular file from its start. */
  function ReadAtMost(bytes: string, n: nat): string {
    if |bytes| <= n then bytes else bytes[..n]
  }

  function ModelCount(rs: seq<Record>): (n: nat)
    ensures n <= |rs|
  {
    if rs == [] then 0 else ModelCount(rs[..|rs| - 1]) + (if rs[|rs| - 1].kind == Model then 1 else 0)
  }

  // ---------------------------------------------------------------- the acceptance driver's reader

  datatype Counts = Counts(model: nat, web: nat)

  function Tally(rs: seq<Record>): Counts {
    Counts(ModelCount(rs), |rs| - ModelCount(rs))
  }

  /** What `read_text` does to line ends. */
  function UniversalNewlines(t: string): string
    decreases |t|
  {
    if t == "" then ""
    else if t[0] == '\r' then "\n" + UniversalNewlines(t[BreakWidth(t, 0)..])
    else [t[0]] + UniversalNewlines(t[1..])
  }

  function CountText(lib: Library, bytes: string): Option<Counts> {
    var text := lib.utf8(bytes);
    if text.None? then None
    else
      var records := ParseLines(lib, SplitLines(UniversalNewlines(text.value)));
      if records.None? then None else Some(Tally(records.value))
  }

  /** `_transport_counts`; `file` is None when the path does not exist, the result None when it raises. */
  method TransportCounts(lib: Library, file: Option<string>) returns (counts: Option<Counts>)
    ensures counts == if file.None? then Some(Counts(0, 0)) else CountText(lib, file.value)
  {
    if file.None? {
      return Some(Counts(0, 0));
    }
    var text := lib.utf8(file.value);
    if text.None? {
      return None;
    }
    var lines := SplitLines(UniversalNewlines(text.value));
    var total := Counts(0, 0);
    var i := 0;
    while i < |lines|
      invariant 0 <= i <= |lines|
      invariant ParseLines(lib, lines[..i]).Some? && total == Tally(ParseLines(lib, lines[..i]).value)
    {
      var record := ParseRecord(lib.loads(lines[i]));
      ParseNext(lib, lines, i);
      if record.None? {
        PrefixMustParse(lib, lines, i + 1);
        return None;
      }
      if record.value.kind == Model {
        total := total.(model := total.model + 1);
      } else {
        total := total.(web := total.web + 1);
      }
      i := i + 1;
    }
    assert lines[..i] == lines;
    counts := Some(total);
  }

  lemma ParseNext(lib: Library, lines: seq<string>, i: nat)
    requires i < |lines| && ParseLines(lib, lines[..i]).Some?
    ensures var record := ParseRecord(lib.loads(lines[i]));
            var before, now := ParseLines(lib, lines[..i]).value, ParseLines(lib, lines[..i + 1]);
            if record.None? then now.None?
            else now == Some(before + [record.value])
                 && Tally(now.value) == if record.value.kind == Model
                                        then Counts(Tally(before).model + 1, Tally(before).web)
                                        else Counts(Tally(before).model, Tally(before).web + 1)
  {
    assert lines[..i + 1][..i] == lines[..i];
    var record := ParseRecord(lib.loads(lines[i]));
    if record.Some? {
      TallyAppend(ParseLines(lib, lines[..i]).value, record.value);
    }
  }

  /** The number of model records is the number of positions that hold one. */
  lemma {:induction false} ModelCountIs(rs: seq<Record>)
    ensures ModelCount(rs) == |set i | 0 <= i < |rs| && rs[i].kind == Model|
    decreases |rs|
  {
    var models := set i | 0 <= i < |rs| && rs[i].kind == Model;
    if rs == [] {
      assert models == {};
    } else {
      ModelCountIs(rs[..|rs| - 1]);
      OneMoreModel(rs);
    }
  }

  lemma OneMoreModel(rs: seq<Record>)
    requires rs != []
    ensures var n := |rs| - 1;
            |set i | 0 <= i < |rs| && rs[i].kind == Model|
            == |set i | 0 <= i < |rs[..n]| && rs[..n][i].kind == Model| + if rs[n].kind == Model then 1 else 0
  {
    var n := |rs| - 1;
    var before := set i | 0 <= i < |rs[..n]| && rs[..n][i].kind == Model;
    assert (set i | 0 <= i < |rs| && rs[i].kind == Model) == if rs[n].kind == Model then before + {n} else before;
  }

  lemma TallyAppend(rs: seq<Record>, r: Record)
    ensures ModelCount(rs + [r]) == ModelCount(rs) + (if r.kind == Model then 1 else 0)
  {
    assert (rs + [r])[..|rs|] == rs;
  }

  lemma {:induction false} PrefixMustParse(lib: Library, lines: seq<string>, n: nat)
    requires n <= |lines| && ParseLines(lib, lines[..n]).None?
    ensures ParseLines(lib, lines).None?
    decreases |lines|
  {
    if n < |lines| {
      assert lines[..|lines| - 1][..n] == lines[..n];
      PrefixMustParse(lib, lines[..|lines| - 1], n);
    } else {
      assert lines[..n] == lines;
    }
  }

  lemma {:induction false} UniversalNewlinesBefore(t: string, n: nat)
    requires n <= |t| && Unbroken(t[..n])
    ensures UniversalNewlines(t) == t[..n] + UniversalNewlines(t[n..])
  {
    if n == 0 {
      assert t[0..] == t;
    } else {
      assert !IsBreak(t[..n][0]);
      assert t[1..][..n - 1] == t[..n][1..];
      UniversalNewlinesBefore(t[1..], n - 1);
      assert t[1..][n - 1..] == t[n..];
      assert t[..n] == [t[0]] + t[1..][..n - 1];
    }
  }

  /** `read_text` changes which line ends a text has, never its lines. */
  lemma {:induction false} SameLines(t: string)
    ensures SplitLines(UniversalNewlines(t)) == SplitLines(t)
    decreases |t|
  {
    var n := BreakAt(t);
    UniversalNewlinesBefore(t, n);
    if n == |t| {
      assert t[..n] + "" == t;
    } else {
      var after := if t[n] == '\r' then t[n + BreakWidth(t, n)..] else t[n + 1..];
      var end := if t[n] == '\r' then '\n' else t[n];
      TranslatedBreak(t, n, after, end);
      SameLines(after);
      SplitJoined(t[..n], end, UniversalNewlines(after));
      SplitFirst(t, n);
    }
  }

  lemma TranslatedBreak(t: string, n: nat, after: string, end: char)
    requires n < |t| && IsBreak(t[n])
    requires after == if t[n] == '\r' then t[n + BreakWidth(t, n)..] else t[n + 1..]
    requires end == if t[n] == '\r' then '\n' else t[n]
    ensures UniversalNewlines(t[n..]) == [end] + UniversalNewlines(after)
    ensures after == t[n + BreakWidth(t, n)..]
  {
    assert BreakWidth(t[n..], 0) == BreakWidth(t, n);
    assert t[n..][BreakWidth(t, n)..] == t[n + BreakWidth(t, n)..];
    assert t[n..][1..] == t[n + 1..];
  }

  lemma SplitJoined(line: string, end: char, rest: string)
    requires Unbroken(line) && IsBreak(end) && end != '\r'
    ensures SplitLines(line + ([end] + rest)) == [line] + SplitLines(rest)
  {
    Parts(line, end, rest);
    SplitFirst(line + ([end] + rest), |line|);
  }

  lemma Parts(line: string, end: char, rest: string)
    requires end != '\r'
    ensures var t := line + ([end] + rest);
      && t[..|line|] == line && t[|line|] == end && BreakWidth(t, |line|) == 1 && t[|line| + 1..] == rest
  {
  }

  /** Both readers see the same lines, so the driver's count is the tally of the decoded records. */
  lemma CountIsTally(lib: Library, bytes: string)
    ensures CountText(lib, bytes)
         == if DecodeText(lib, bytes).None? then None else Some(Tally(DecodeText(lib, bytes).value))
  {
    if lib.utf8(bytes).Some? {
      SameLines(lib.utf8(bytes).value);
    }
  }

  // ---------------------------------------------------------------- what the decoder takes

  lemma BreaksAre(c: char)
    ensures IsBreak(c) <==> c as int in [0x0A, 0x0B, 0x0C, 0x0D, 0x1C, 0x1D, 0x1E, 0x85, 0x2028, 0x2029]
  {
  }

  /** A loaded line with exactly the three fields, the schema, an admitted kind and 64 lower-case hex digits. */
  predicate IsAttempt(j: Option<Json>, kind: string, digest: string) {
    && j.Some? && j.value.JObject?
    && j.value.fields == map["schema" := JString("first-agent/transport-attempt/v1"), "kind" := JString(kind),
                             "destination_digest" := JString(digest)]
    && (kind == "model" || kind == "web")
    && |digest| == 64 && forall i :: 0 <= i < 64 ==> digest[i] in "0123456789abcdef"
  }

  lemma AttemptParses(j: Option<Json>, kind: string, digest: string)
    requires IsAttempt(j, kind, digest)
    ensures ParseRecord(j) == Some(Record(if kind == "model" then Model else Web, digest))
  {
    assert j.value.fields.Keys == KEYS;
  }

  lemma ParsedIsAttempt(j: Option<Json>)
    requires ParseRecord(j).Some?
    ensures IsAttempt(j, if ParseRecord(j).value.kind == Model then "model" else "web", ParseRecord(j).value.digest)
  {
    var f := j.value.fields;
    assert f.Keys == {"schema", "kind", "destination_digest"};
    forall i | 0 <= i < 64
      ensures f["destination_digest"].text[i] in "0123456789abcdef"
    {
      DigitsAre(f["destination_digest"].text[i]);
    }
  }

  lemma {:induction false} ParsesEach(lib: Library, lines: seq<string>)
    ensures ParseLines(lib, lines).Some? <==> forall i :: 0 <= i < |lines| ==> ParseRecord(lib.loads(lines[i])).Some?
    ensures ParseLines(lib, lines).Some? ==>
      && |ParseLines(lib, lines).value| == |lines|
      && forall i :: 0 <= i < |lines| ==> ParseRecord(lib.loads(lines[i])) == Some(ParseLines(lib, lines).value[i])
    decreases |lines|
  {
    if lines != [] {
      ParsesEach(lib, lines[..|lines| - 1]);
    }
  }

  /**
   The decoder takes a file exactly when it is empty, or is no longer than the read limit, ends
   its last line, is UTF-8 and has an attempt on every line; it returns their kinds and digests.
   */
  lemma DecodeIff(lib: Library, bytes: string)
    ensures Decode(lib, bytes).Some? <==>
      || bytes == ""
      || (&& |bytes| <= 1_000_000 && bytes[|bytes| - 1] == '\n' && lib.utf8(bytes).Some?
          && forall line :: line in SplitLines(lib.utf8(bytes).value) ==>
               exists kind, digest :: IsAttempt(lib.loads(line), kind, digest))
    ensures Decode(lib, bytes).Some? && bytes != "" ==>
      var lines, rs := SplitLines(lib.utf8(bytes).value), Decode(lib, bytes).value;
      && |rs| == |lines|
      && forall i :: 0 <= i < |lines| ==>
           IsAttempt(lib.loads(lines[i]), if rs[i].kind == Model then "model" else "web", rs[i].digest)
  {
    if bytes != "" && lib.utf8(bytes).Some? {
      var lines := SplitLines(lib.utf8(bytes).value);
      ParsesEach(lib, lines);
      forall i | 0 <= i < |lines|
        ensures ParseRecord(lib.loads(lines[i])).Some? <==>
                  exists kind, digest :: IsAttempt(lib.loads(lines[i]), kind, digest)
        ensures ParseRecord(lib.loads(lines[i])).Some? ==>
                  var r := ParseRecord(lib.loads(lines[i])).value;
                  IsAttempt(lib.loads(lines[i]), if r.kind == Model then "model" else "web", r.digest)
      {
        AttemptIff(lib.loads(lines[i]));
      }
    }
  }

  /** The line loads to an attempt of this kind. */
  ghost predicate IsKindLine(lib: Library, line: string, kind: string) {
    exists digest :: IsAttempt(lib.loads(line), kind, digest)
  }

  lemma KindLineIs(lib: Library, line: string, kind: string)
    requires kind == "model" || kind == "web"
    ensures IsKindLine(lib, line, kind) <==>
      ParseRecord(lib.loads(line)).Some? && (ParseRecord(lib.loads(line)).value.kind == Model <==> kind == "model")
  {
    var j := lib.loads(line);
    if ParseRecord(j).Some? {
      ParsedIsAttempt(j);
    }
    forall digest | IsAttempt(j, kind, digest)
      ensures ParseRecord(j) == Some(Record(if kind == "model" then Model else Web, digest))
    {
      AttemptParses(j, kind, digest);
    }
  }

  /** The driver raises unless every line of the text is an attempt, and then counts those of each kind. */
  lemma DriverCounts(lib: Library, bytes: string)
    ensures CountText(lib, bytes).Some? <==>
      && lib.utf8(bytes).Some?
      && forall line :: line in SplitLines(lib.utf8(bytes).value) ==>
           IsKindLine(lib, line, "model") || IsKindLine(lib, line, "web")
    ensures CountText(lib, bytes).Some? ==>
      var lines := SplitLines(lib.utf8(bytes).value);
      && CountText(lib, bytes).value.model == |set i | 0 <= i < |lines| && IsKindLine(lib, lines[i], "model")|
      && CountText(lib, bytes).value.model + CountText(lib, bytes).value.web == |lines|
  {
    CountIsTally(lib, bytes);
    if lib.utf8(bytes).Some? {
      var lines := SplitLines(lib.utf8(bytes).value);
      ParsesEach(lib, lines);
      forall i | 0 <= i < |lines|
        ensures ParseRecord(lib.loads(lines[i])).Some? <==>
                  IsKindLine(lib, lines[i], "model") || IsKindLine(lib, lines[i], "web")
        ensures ParseRecord(lib.loads(lines[i])).Some? ==>
                  (IsKindLine(lib, lines[i], "model") <==> ParseRecord(lib.loads(lines[i])).value.kind == Model)
      {
        KindLineIs(lib, lines[i], "model");
        KindLineIs(lib, lines[i], "web");
      }
      if ParseLines(lib, lines).Some? {
        CountedLines(lib, lines, ParseLines(lib, lines).value);
      }
    }
  }

  lemma CountedLines(lib: Library, lines: seq<string>, rs: seq<Record>)
    requires |rs| == |lines|
    requires forall i :: 0 <= i < |lines| ==> (IsKindLine(lib, lines[i], "model") <==> rs[i].kind == Model)
    ensures ModelCount(rs) == |set i | 0 <= i < |lines| && IsKindLine(lib, lines[i], "model")|
  {
    ModelCountIs(rs);
    assert (set i | 0 <= i < |lines| && IsKindLine(lib, lines[i], "model"))
        == (set i | 0 <= i < |rs| && rs[i].kind == Model);
  }

  lemma AttemptIff(j: Option<Json>)
    ensures ParseRecord(j).Some? <==> exists kind, digest :: IsAttempt(j, kind, digest)
    ensures ParseRecord(j).Some? ==>
      IsAttempt(j, if ParseRecord(j).value.kind == Model then "model" else "web", ParseRecord(j).value.digest)
  {
    if ParseRecord(j).Some? {
      ParsedIsAttempt(j);
    }
    forall kind, digest | IsAttempt(j, kind, digest)
      ensures ParseRecord(j).Some?
    {
      AttemptParses(j, kind, digest);
    }
  }

  // ---------------------------------------------------------------- laws of the library

  /** An ASCII tail neither repairs nor breaks UTF-8, and decodes to itself. */
  ghost predicate KeepsAsciiTail(lib: Library, head: string, tail: string) {
    Ascii(tail) ==>
      lib.utf8(head + tail) == if lib.utf8(head).Some? then Some(lib.utf8(head).value + tail) else None
  }

  /** A dumped document loads back, and a JSON object that lost its end does not load. */
  ghost predicate LoadsLine(lib: Library, r: Record, n: nat) {
    IsRecord(r) && n <= |Line(r)| ==>
      lib.loads(Line(r)[..n]) == if n == |Line(r)| then Some(Document(r)) else None
  }

  ghost predicate Lawful(lib: Library) {
    && lib.utf8("") == Some("")
    && (forall head, tail :: KeepsAsciiTail(lib, head, tail))
    && (forall r, n :: LoadsLine(lib, r, n))
    && (forall destination :: IsDigest(lib.sha256(destination)))
  }

  lemma LineShape(r: Record)
    requires IsRecord(r)
    ensures Ascii(Line(r)) && Unbroken(Line(r)) && Ascii(Payload(r))
    ensures |Payload(r)| == if r.kind == Model then 149 else 147
  {
    PlainPieces(r.kind);
    forall i | 0 <= i < |r.digest|
      ensures ' ' <= r.digest[i] < '\U{80}'
    {
      assert IsHexDigit(r.digest[i]);
    }
    PlainAppend(OPENING, r.digest);
    PlainAppend(OPENING + r.digest, KIND_FIELD);
    PlainAppend(OPENING + r.digest + KIND_FIELD, KindName(r.kind));
    PlainAppend(OPENING + r.digest + KIND_FIELD + KindName(r.kind), SCHEMA_FIELD);
    PlainAppend(OPENING + r.digest + KIND_FIELD + KindName(r.kind) + SCHEMA_FIELD, SCHEMA);
    PlainAppend(OPENING + r.digest + KIND_FIELD + KindName(r.kind) + SCHEMA_FIELD + SCHEMA, CLOSING);
  }

  predicate Plain(t: string) {
    forall i :: 0 <= i < |t| ==> ' ' <= t[i] < '\U{80}'
  }

  lemma PlainPieces(k: Kind)
    ensures Plain(OPENING) && Plain(KIND_FIELD) && Plain(KindName(k))
    ensures Plain(SCHEMA_FIELD) && Plain(SCHEMA) && Plain(CLOSING)
  {
  }

  lemma PlainAppend(a: string, b: string)
    requires Plain(a) && Plain(b)
    ensures Plain(a + b)
  {
  }

  // ---------------------------------------------------------------- appending to a ledger

  /** Everything up to and including the last line feed. */
  function WholeLines(bytes: string): string {
    if Terminated(bytes) then bytes else WholeLines(bytes[..|bytes| - 1])
  }

  /** The records of the complete lines of a file, whatever follows them. */
  function Records(lib: Library, bytes: string): seq<Record> {
    var decoded := DecodeText(lib, WholeLines(bytes));
    if decoded.Some? then decoded.value else []
  }

  lemma {:induction false} WholeLinesBefore(bytes: string, tail: string)
    requires Terminated(bytes) && Unbroken(tail)
    ensures WholeLines(bytes + tail) == bytes
    decreases |tail|
  {
    if tail == "" {
      assert bytes + tail == bytes;
    } else {
      var n := |tail| - 1;
      assert (bytes + tail)[..|bytes + tail| - 1] == bytes + tail[..n];
      assert !IsBreak(tail[n]);
      WholeLinesBefore(bytes, tail[..n]);
    }
  }

  /** Decoding leaves the final line feed in place. */
  lemma DecodedTextTerminated(lib: Library, bytes: string)
    requires Lawful(lib) && Terminated(bytes) && lib.utf8(bytes).Some?
    ensures Terminated(lib.utf8(bytes).value)
  {
    if bytes != "" {
      var head := bytes[..|bytes| - 1];
      assert bytes == head + "\n";
      assert KeepsAsciiTail(lib, head, "\n");
    }
  }

  /** One appended payload is one more record, and nothing else. */
  lemma DecodeAppend(lib: Library, bytes: string, r: Record)
    requires Lawful(lib) && IsRecord(r) && Terminated(bytes)
    ensures DecodeText(lib, bytes + Payload(r))
         == if DecodeText(lib, bytes).Some? then Some(DecodeText(lib, bytes).value + [r]) else None
  {
    LineShape(r);
    assert KeepsAsciiTail(lib, bytes, Payload(r));
    if lib.utf8(bytes).Some? {
      var text := lib.utf8(bytes).value;
      DecodedTextTerminated(lib, bytes);
      SplitLinesAppend(text, Payload(r));
      SplitOneLine(Line(r));
      LastLineParses(lib, SplitLines(text), r);
    }
  }

  lemma LastLineParses(lib: Library, lines: seq<string>, r: Record)
    requires Lawful(lib) && IsRecord(r)
    ensures ParseLines(lib, lines + [Line(r)])
         == if ParseLines(lib, lines).Some? then Some(ParseLines(lib, lines).value + [r]) else None
  {
    LineParses(lib, r);
    ParseOneMore(lib, lines, Line(r), r);
  }

  lemma LineParses(lib: Library, r: Record)
    requires Lawful(lib) && IsRecord(r)
    ensures ParseRecord(lib.loads(Line(r))) == Some(r)
  {
    assert LoadsLine(lib, r, |Line(r)|);
    assert Line(r)[..|Line(r)|] == Line(r);
    assert Document(r).fields.Keys == KEYS;
  }

  lemma ParseOneMore(lib: Library, lines: seq<string>, line: string, r: Record)
    requires ParseRecord(lib.loads(line)) == Some(r)
    ensures ParseLines(lib, lines + [line])
         == if ParseLines(lib, lines).Some? then Some(ParseLines(lib, lines).value + [r]) else None
  {
    assert (lines + [line])[..|lines|] == lines;
  }

  lemma RecordsOfWhole(lib: Library, bytes: string, r: Record)
    requires Lawful(lib) && IsRecord(r) && Decode(lib, bytes).Some?
    ensures Terminated(bytes) && Terminated(bytes + Payload(r))
    ensures Records(lib, bytes) == Decode(lib, bytes).value
    ensures Records(lib, bytes + Payload(r)) == Records(lib, bytes) + [r]
  {
    DecodeEmpty(lib);
    DecodeAppend(lib, bytes, r);
  }

  lemma DecodeEmpty(lib: Library)
    requires Lawful(lib)
    ensures DecodeText(lib, "") == Some([])
  {
  }

  /** A torn line hides nothing, adds nothing, and closes the ledger. */
  lemma TornLine(lib: Library, bytes: string, r: Record, n: nat)
    requires Lawful(lib) && IsRecord(r) && Terminated(bytes) && 0 < n < |Payload(r)|
    ensures Records(lib, bytes + Payload(r)[..n]) == Records(lib, bytes)
    ensures WholeLines(bytes + Payload(r)[..n]) == bytes
    ensures Decode(lib, bytes + Payload(r)[..n]).None?
  {
    LineShape(r);
    assert Payload(r)[..n] == Line(r)[..n];
    assert !IsBreak(Line(r)[n - 1]);
    WholeLinesBefore(bytes, Line(r)[..n]);
  }

  lemma EncodeLast(base: string, rs: seq<Record>, r: Record)
    ensures base + EncodeAll(rs + [r]) == base + EncodeAll(rs) + Payload(r)
    ensures Terminated(base + EncodeAll(rs + [r]))
  {
    assert (rs + [r])[..|rs|] == rs;
    assert (base + EncodeAll(rs)) + Payload(r) == base + (EncodeAll(rs) + Payload(r));
  }

  /** What `EncodeAll` writes after a file is what decoding finds after it. */
  ghost predicate DecodesTo(lib: Library, base: string, rs: seq<Record>) {
    && Terminated(base + EncodeAll(rs))
    && DecodeText(lib, base + EncodeAll(rs))
       == if DecodeText(lib, base).Some? then Some(DecodeText(lib, base).value + rs) else None
  }

  lemma DecodesToStep(lib: Library, base: string, rs: seq<Record>, r: Record)
    requires Lawful(lib) && IsRecord(r) && DecodesTo(lib, base, rs)
    ensures DecodesTo(lib, base, rs + [r])
  {
    EncodeLast(base, rs, r);
    DecodeAppend(lib, base + EncodeAll(rs), r);
    if DecodeText(lib, base).Some? {
      assert DecodeText(lib, base).value + rs + [r] == DecodeText(lib, base).value + (rs + [r]);
    }
  }

  /** Writing records and decoding them is the identity, on top of any decodable file. */
  lemma {:induction false} RoundTrip(lib: Library, base: string, rs: seq<Record>)
    requires Lawful(lib) && Terminated(base) && forall r :: r in rs ==> IsRecord(r)
    ensures DecodesTo(lib, base, rs)
    decreases |rs|
  {
    if rs == [] {
      RoundTripOfNone(lib, base);
    } else {
      RoundTrip(lib, base, rs[..|rs| - 1]);
      RoundTripStep(lib, base, rs);
    }
  }

  lemma RoundTripStep(lib: Library, base: string, rs: seq<Record>)
    requires Lawful(lib) && rs != [] && IsRecord(rs[|rs| - 1]) && DecodesTo(lib, base, rs[..|rs| - 1])
    ensures DecodesTo(lib, base, rs)
  {
    DecodesToStep(lib, base, rs[..|rs| - 1], rs[|rs| - 1]);
    assert rs == rs[..|rs| - 1] + [rs[|rs| - 1]];
  }

  lemma RoundTripOfNone(lib: Library, base: string)
    requires Terminated(base)
    ensures DecodesTo(lib, base, [])
  {
    assert base + EncodeAll([]) == base;
    assert DecodeText(lib, base).Some? ==> DecodeText(lib, base).value + [] == DecodeText(lib, base).value;
  }

  /** The decoder accepts exactly the countable files that end their last line and fit its read limit. */
  lemma RecorderAndDriverAgree(lib: Library, bytes: string)
    requires Lawful(lib)
    ensures Decode(lib, bytes).Some?
       <==> CountText(lib, bytes).Some? && Terminated(bytes) && |bytes| <= MAX_LEDGER_BYTES
    ensures Decode(lib, bytes).Some? ==> CountText(lib, bytes) == Some(Tally(Decode(lib, bytes).value))
  {
    CountIsTally(lib, bytes);
    DecodeEmpty(lib);
  }

  /**
   On a torn ledger the driver raises, except when exactly the line feed is missing: then it
   counts the record that the recorder refuses.
   */
  lemma DriverOnTornLine(lib: Library, bytes: string, r: Record, n: nat)
    requires Lawful(lib) && IsRecord(r) && Decode(lib, bytes).Some? && 0 < n < |Payload(r)|
    ensures CountText(lib, bytes + Payload(r)[..n]).Some? <==> n == |Line(r)|
    ensures n == |Line(r)| ==>
      CountText(lib, bytes + Payload(r)[..n]) == Some(Tally(Decode(lib, bytes).value + [r]))
  {
    LineShape(r);
    DecodeEmpty(lib);
    var tail := Line(r)[..n];
    assert Payload(r)[..n] == tail;
    var text := lib.utf8(bytes).value;
    DecodedTextTerminated(lib, bytes);
    assert KeepsAsciiTail(lib, bytes, tail);
    SplitLinesAppend(text, tail);
    SplitOneLine(tail);
    assert LoadsLine(lib, r, n);
    var lines := SplitLines(text);
    assert (lines + [tail])[..|lines|] == lines;
    if n == |Line(r)| {
      assert tail == Line(r);
      LastLineParses(lib, lines, r);
    }
    CountIsTally(lib, bytes + tail);
  }

  // ---------------------------------------------------------------- the laws can be met

  /** No line is a proper prefix of another, and a line determines its record. */
  lemma LineIsPrefixFree(r: Record, q: Record, n: nat)
    requires IsRecord(r) && IsRecord(q) && n <= |Line(r)| && Line(r)[..n] == Line(q)
    ensures n == |Line(r)| && r == q
  {
    var start, kind := |OPENING|, |OPENING| + 64 + |KIND_FIELD|;
    assert Line(r)[kind] == KindName(r.kind)[0] && Line(q)[kind] == KindName(q.kind)[0];
    assert Line(r)[..n][kind] == Line(r)[kind];
    forall i | 0 <= i < 64
      ensures r.digest[i] == q.digest[i]
    {
      assert Line(r)[start + i] == r.digest[i] && Line(q)[start + i] == q.digest[i];
      assert Line(r)[..n][start + i] == Line(r)[start + i];
    }
    assert r.digest == q.digest;
  }

  ghost function LoadLine(text: string): Option<Json> {
    if exists r :: IsRecord(r) && Line(r) == text
    then
      var r :| IsRecord(r) && Line(r) == text;
      Some(Document(r))
    else None
  }

  lemma ALawfulLibraryExists() returns (lib: Library)
    ensures Lawful(lib)
  {
    lib := Library(bytes => Some(bytes), text => LoadLine(text), destination => seq(64, i => '0'));
    forall r, n: nat
      ensures LoadsLine(lib, r, n)
    {
      if IsRecord(r) && n <= |Line(r)| {
        forall q | IsRecord(q) && Line(q) == Line(r)[..n]
          ensures n == |Line(r)| && q == r
        {
          LineIsPrefixFree(r, q, n);
        }
        assert n == |Line(r)| ==> Line(r)[..n] == Line(r);
      }
    }
  }
}
