/** Hexadecimal digests and Python's order on strings. */
module Text {
  predicate IsHexDigit(c: char) {
    '0' <= c <= '9' || 'a' <= c <= 'f'
  }

  lemma DigitsAre(c: char)
    ensures IsHexDigit(c) <==> c in "0123456789abcdef"
  {
    assert IsHexDigit(c) ==> c == "0123456789abcdef"[if c <= '9' then c as int - 48 else c as int - 87];
  }

  predicate IsDigest(s: string) {
    |s| == 64 && forall i :: 0 <= i < |s| ==> IsHexDigit(s[i])
  }

  predicate StringBelow(a: string, b: string) {
    b != "" && (a == "" || a[0] < b[0] || (a[0] == b[0] && StringBelow(a[1..], b[1..])))
  }

  lemma {:induction false} StringOrder(a: string, b: string, c: string)
    ensures a == b || StringBelow(a, b) || StringBelow(b, a)
    ensures StringBelow(a, b) && StringBelow(b, c) ==> StringBelow(a, c)
    ensures !StringBelow(a, a)
    decreases |a|
  {
    if a != "" {
      var b', c' := if b == "" then "" else b[1..], if c == "" then "" else c[1..];
      StringOrder(a[1..], b', c');
      assert b != "" && a[0] == b[0] && a[1..] == b[1..] ==> a == [b[0]] + b[1..] == b;
    }
  }

  /** `"/".join(parts)`. */
  function JoinSlash(parts: seq<string>): string {
    if parts == [] then "" else if |parts| == 1 then parts[0] else parts[0] + "/" + JoinSlash(parts[1..])
  }

  /** `s.split("/")`. */
  function Split(s: string): (parts: seq<string>)
    ensures parts != [] && JoinSlash(parts) == s && forall i :: 0 <= i < |parts| ==> '/' !in parts[i]
  {
    if s == "" then [""]
    else if s[0] == '/' then [""] + Split(s[1..])
    else
      var rest := Split(s[1..]);
      [[s[0]] + rest[0]] + rest[1..]
  }

  /** Only the components without a slash that join to a string are its split. */
  lemma {:induction false} SplitOfJoined(parts: seq<string>)
    requires parts != [] && forall i :: 0 <= i < |parts| ==> '/' !in parts[i]
    ensures Split(JoinSlash(parts)) == parts
    decreases |parts|, if parts == [] then 0 else |parts[0]|
  {
    if parts[0] != "" {
      var rest := [parts[0][1..]] + parts[1..];
      SplitOfJoined(rest);
      assert parts[0] == [parts[0][0]] + rest[0] && rest[1..] == parts[1..];
      assert parts == [[parts[0][0]] + rest[0]] + rest[1..];
      OneMoreChar(rest, parts[0][0]);
    } else if |parts| > 1 {
      SplitOfJoined(parts[1..]);
      assert parts == [""] + parts[1..];
      SplitSlash(JoinSlash(parts[1..]));
    }
  }

  lemma SplitSlash(s: string)
    ensures Split("/" + s) == [""] + Split(s)
  {
    assert ("/" + s)[1..] == s;
  }

  lemma OneMoreChar(parts: seq<string>, c: char)
    requires parts != [] && c != '/' && Split(JoinSlash(parts)) == parts
    ensures Split(JoinSlash([[c] + parts[0]] + parts[1..])) == [[c] + parts[0]] + parts[1..]
  {
    JoinOneMoreChar(parts, c);
    assert ([c] + JoinSlash(parts))[1..] == JoinSlash(parts);
  }

  lemma JoinOneMoreChar(parts: seq<string>, c: char)
    requires parts != []
    ensures JoinSlash([[c] + parts[0]] + parts[1..]) == [c] + JoinSlash(parts)
  {
    var more := [[c] + parts[0]] + parts[1..];
    assert more[1..] == parts[1..];
    if |parts| > 1 {
      assert [c] + parts[0] + "/" + JoinSlash(parts[1..]) == [c] + (parts[0] + "/" + JoinSlash(parts[1..]));
    }
  }

  /** The strings agree before n, where the second goes on and the first ends or is smaller. */
  predicate SmallerAt(a: string, b: string, n: nat) {
    n <= |a| && n < |b| && a[..n] == b[..n] && (n == |a| || a[n] < b[n])
  }

  lemma {:induction false} SmallerIsBelow(a: string, b: string, n: nat)
    requires SmallerAt(a, b, n)
    ensures StringBelow(a, b)
    decreases n
  {
    if n > 0 {
      assert a[..n][0] == b[..n][0] && a[..n][1..] == b[..n][1..];
      assert a[1..][..n - 1] == a[..n][1..] && b[1..][..n - 1] == b[..n][1..];
      SmallerIsBelow(a[1..], b[1..], n - 1);
    }
  }

  lemma {:induction false} BelowIsSmaller(a: string, b: string) returns (n: nat)
    requires StringBelow(a, b)
    ensures SmallerAt(a, b, n)
    decreases |a|
  {
    if a == "" || a[0] < b[0] {
      n := 0;
    } else {
      n := BelowIsSmaller(a[1..], b[1..]);
      assert a[..n + 1] == [a[0]] + a[1..][..n] && b[..n + 1] == [b[0]] + b[1..][..n];
      n := n + 1;
    }
  }

  /** Python's order on strings: the first difference decides. */
  lemma StringBelowIff(a: string, b: string)
    ensures StringBelow(a, b) <==> exists n :: SmallerAt(a, b, n)
  {
    if StringBelow(a, b) {
      var n := BelowIsSmaller(a, b);
    }
    forall n | SmallerAt(a, b, n)
      ensures StringBelow(a, b)
    {
      SmallerIsBelow(a, b, n);
    }
  }
}
