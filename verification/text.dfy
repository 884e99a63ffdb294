/** String helpers with the meaning of the Python built-ins the driver uses:
    `str.find`, `str.split`, `str.replace`, `str.upper`, `str.endswith`,
    `str(int)`, `int(str)` and `os.path.basename`. */
module Text {
  import opened Wrappers

  /* ---------- characters and digits ---------- */

  predicate IsDigit(c: char) {
    '0' <= c <= '9'
  }

  predicate AllDigits(s: string) {
    forall i :: 0 <= i < |s| ==> IsDigit(s[i])
  }

  function DigitChar(d: nat): (c: char)
    requires d < 10
    ensures IsDigit(c)
  {
    (('0' as int) + d) as char
  }

  function DigitValue(c: char): (d: nat)
    requires IsDigit(c)
    ensures d < 10
  {
    (c as int) - ('0' as int)
  }

  /* ---------- str(n) and int(s) ---------- */

  /** Decimal rendering of a natural number, as Python's `str(n)`. */
  function NatToString(n: nat): (s: string)
    ensures |s| > 0 && AllDigits(s)
    ensures n < 10 <==> |s| == 1
  {
    if n < 10 then [DigitChar(n)] else NatToString(n / 10) + [DigitChar(n % 10)]
  }

  /** Decimal value of a digit string (the empty string has value 0). */
  function DigitsValue(s: string): nat
    requires AllDigits(s)
  {
    if |s| == 0 then 0 else DigitsValue(s[..|s| - 1]) * 10 + DigitValue(s[|s| - 1])
  }

  /** Python's `str(i)` on an integer: an optional minus sign, then digits. */
  function IntToString(i: int): string {
    if i < 0 then "-" + NatToString(-i) else NatToString(i)
  }

  /** Strings that Python's `int()` accepts, restricted to an optional sign
      followed by at least one decimal digit (no surrounding whitespace, no
      underscores). */
  predicate IsIntLiteral(s: string) {
    if |s| > 0 && (s[0] == '-' || s[0] == '+') then |s| > 1 && AllDigits(s[1..])
    else |s| > 0 && AllDigits(s)
  }

  /** Python's `int(s)`: None where Python raises ValueError. */
  function ParseInt(s: string): (r: Option<int>)
    ensures r.Some? <==> IsIntLiteral(s)
  {
    if !IsIntLiteral(s) then None
    else if s[0] == '-' then Some(-(DigitsValue(s[1..]) as int))
    else if s[0] == '+' then Some(DigitsValue(s[1..]))
    else Some(DigitsValue(s))
  }

  lemma {:induction false} NatToStringRoundTrip(n: nat)
    ensures DigitsValue(NatToString(n)) == n
    decreases n
  {
    if n >= 10 {
      var s := NatToString(n);
      assert s[..|s| - 1] == NatToString(n / 10);
      NatToStringRoundTrip(n / 10);
    }
  }

  /** `int(str(i)) == i` for every integer. */
  lemma IntToStringRoundTrip(i: int)
    ensures IsIntLiteral(IntToString(i))
    ensures ParseInt(IntToString(i)) == Some(i)
  {
    var s := IntToString(i);
    if i < 0 {
      var t := NatToString(-i);
      assert s == "-" + t;
      assert s[1..] == t;
      NatToStringRoundTrip(-i);
      assert IsIntLiteral(s);
    } else {
      var t := NatToString(i);
      assert s == t;
      assert IsDigit(t[0]);
      NatToStringRoundTrip(i);
      assert IsIntLiteral(s);
    }
  }

  lemma IntToStringHasNoSeparator(i: int, c: char)
    requires c == '.' || c == ':' || c == '/' || c == ','
    ensures c !in IntToString(i)
  {
    var s := IntToString(i);
    if i < 0 {
      assert s[1..] == NatToString(-i);
      assert forall k :: 1 <= k < |s| ==> s[k] == s[1..][k - 1];
    }
  }

  /* ---------- searching, splitting, joining ---------- */

  /** Python's `s.find(c)` for a one-character needle: the index of the first
      occurrence, or -1. */
  function Find(s: string, c: char): (r: int)
    ensures -1 <= r < |s|
    ensures r == -1 <==> c !in s
    ensures r >= 0 ==> s[r] == c && c !in s[..r]
  {
    if |s| == 0 then -1
    else if s[0] == c then 0
    else
      var k := Find(s[1..], c);
      assert s[1..][..if k < 0 then 0 else k] == s[1..if k < 0 then 1 else k + 1];
      if k < 0 then -1 else k + 1
  }

  /** Python's `s.split(c)` for a one-character separator. */
  function Split(s: string, c: char): (r: seq<string>)
    ensures |r| >= 1
    ensures forall k :: 0 <= k < |r| ==> c !in r[k]
    ensures c !in s ==> r == [s]
    decreases |s|
  {
    var k := Find(s, c);
    if k < 0 then [s] else [s[..k]] + Split(s[k + 1..], c)
  }

  /** The pieces joined with `sep` between consecutive pieces
      (Python's `sep.join(pieces)`). */
  function Join(pieces: seq<string>, sep: string): string {
    if |pieces| == 0 then ""
    else if |pieces| == 1 then pieces[0]
    else pieces[0] + sep + Join(pieces[1..], sep)
  }

  /** Every occurrence of `a` replaced by `b`; `RemoveChar` is the deleting
      variant, Python's `s.replace(a, '')`. */
  function ReplaceChar(s: string, a: char, b: char): (r: string)
    ensures |r| == |s|
    ensures forall k :: 0 <= k < |s| ==> r[k] == (if s[k] == a then b else s[k])
  {
    if |s| == 0 then "" else [if s[0] == a then b else s[0]] + ReplaceChar(s[1..], a, b)
  }

  function RemoveChar(s: string, a: char): (r: string)
    ensures a !in r
    ensures |r| <= |s|
    ensures forall x :: x != a ==> (x in r <==> x in s)
    ensures a !in s ==> r == s
  {
    if |s| == 0 then ""
    else if s[0] == a then RemoveChar(s[1..], a)
    else
      var t := RemoveChar(s[1..], a);
      assert forall x :: x in s <==> x == s[0] || x in s[1..];
      [s[0]] + t
  }

  /** Splitting at `a` and joining with `b` is the same as replacing every
      `a` by `b`. */
  lemma {:induction false} JoinSplitIsReplace(s: string, a: char, b: char)
    ensures Join(Split(s, a), [b]) == ReplaceChar(s, a, b)
    decreases |s|
  {
    var k := Find(s, a);
    if k < 0 {
      assert Split(s, a) == [s];
      ReplaceAbsent(s, a, b);
    } else {
      var head, rest := s[..k], s[k + 1..];
      var tail := Split(rest, a);
      assert Split(s, a) == [head] + tail;
      JoinSplitIsReplace(rest, a, b);
      assert ([head] + tail)[1..] == tail;
      assert Join([head] + tail, [b]) == head + [b] + Join(tail, [b]);
      CutAt(s, k);
      ReplaceAround(head, rest, a, b);
    }
  }

  /** Splitting at `a` and joining with nothing is deleting every `a`:
      Python's `s.replace(a, '')`, which keeps the other characters in
      order. */
  lemma {:induction false} JoinSplitIsRemove(s: string, a: char)
    ensures Join(Split(s, a), "") == RemoveChar(s, a)
    decreases |s|
  {
    var k := Find(s, a);
    if k < 0 {
      assert Split(s, a) == [s];
    } else {
      JoinSplitIsRemove(s[k + 1..], a);
      SplitRemoveStep(s, a, k);
    }
  }

  lemma SplitRemoveStep(s: string, a: char, k: nat)
    requires k == Find(s, a)
    requires Join(Split(s[k + 1..], a), "") == RemoveChar(s[k + 1..], a)
    ensures Join(Split(s, a), "") == RemoveChar(s, a)
  {
    var head, rest := s[..k], s[k + 1..];
    var tail := Split(rest, a);
    assert Split(s, a) == [head] + tail;
    JoinCons(head, tail);
    CutAt(s, k);
    RemoveAround(head, rest, a);
    assert RemoveChar(s, a) == head + RemoveChar(rest, a);
  }

  lemma JoinCons(head: string, tail: seq<string>)
    requires |tail| > 0
    ensures Join([head] + tail, "") == head + Join(tail, "")
  {
    assert ([head] + tail)[1..] == tail;
    assert head + "" == head;
  }

  lemma RemoveAround(head: string, rest: string, a: char)
    requires a !in head
    ensures RemoveChar(head + [a] + rest, a) == head + RemoveChar(rest, a)
  {
    RemoveAppend(head + [a], rest, a);
    RemoveAppend(head, [a], a);
    assert RemoveChar([a], a) == [];
    assert RemoveChar(head, a) == head;
    assert RemoveChar(head + [a], a) == head;
  }

  lemma {:induction false} RemoveAppend(x: string, y: string, a: char)
    ensures RemoveChar(x + y, a) == RemoveChar(x, a) + RemoveChar(y, a)
    decreases |x|
  {
    if |x| > 0 {
      ConsAppend(x, y);
      RemoveAppend(x[1..], y, a);
      assert (x + y)[1..] == x[1..] + y;
    } else {
      assert x + y == y;
    }
  }

  lemma CutAt(s: string, k: nat)
    requires k < |s|
    ensures s == s[..k] + [s[k]] + s[k + 1..]
  {
    assert s[..k] + [s[k]] == s[..k + 1];
  }

  lemma ReplaceAbsent(s: string, a: char, b: char)
    requires a !in s
    ensures ReplaceChar(s, a, b) == s
  {
  }

  lemma ReplaceAround(head: string, rest: string, a: char, b: char)
    requires a !in head
    ensures ReplaceChar(head + [a] + rest, a, b) == head + [b] + ReplaceChar(rest, a, b)
  {
    ReplaceAppend(head + [a], rest, a, b);
    ReplaceAppend(head, [a], a, b);
    ReplaceAbsent(head, a, b);
    assert ReplaceChar([a], a, b) == [b];
  }

  lemma ReplaceAppend(x: string, y: string, a: char, b: char)
    ensures ReplaceChar(x + y, a, b) == ReplaceChar(x, a, b) + ReplaceChar(y, a, b)
  {
  }

  /** Appending to a non-empty sequence keeps its head in front. */
  lemma ConsAppend<T>(s: seq<T>, t: seq<T>)
    requires |s| > 0
    ensures s + t == [s[0]] + (s[1..] + t)
  {
    assert s == [s[0]] + s[1..];
  }

  lemma AppendAssoc<T>(a: seq<T>, b: seq<T>, c: seq<T>)
    ensures a + (b + c) == (a + b) + c
  {
  }

  /* ---------- other Python string built-ins ---------- */

  predicate EndsWith(s: string, suffix: string) {
    |suffix| <= |s| && s[|s| - |suffix|..] == suffix
  }

  predicate StartsWith(s: string, prefix: string) {
    |prefix| <= |s| && s[..|prefix|] == prefix
  }

  /** `os.path.basename(p)`: everything after the last '/'. */
  function Basename(p: string): (r: string)
    ensures '/' !in r
    ensures EndsWith(p, r)
    ensures '/' !in p ==> r == p
    ensures |r| < |p| ==> p[|p| - |r| - 1] == '/'
  {
    if |p| == 0 then ""
    else if p[|p| - 1] == '/' then ""
    else
      var r := Basename(p[..|p| - 1]) + [p[|p| - 1]];
      assert '/' !in p ==> '/' !in p[..|p| - 1];
      r
  }

  lemma {:induction false} BasenameAfterSlash(dir: string, name: string)
    requires '/' !in name
    ensures Basename(dir + "/" + name) == name
    decreases |name|
  {
    var p := dir + "/" + name;
    if |name| > 0 {
      var init := name[..|name| - 1];
      assert p[..|p| - 1] == dir + "/" + init;
      assert '/' !in init;
      BasenameAfterSlash(dir, init);
      assert name == init + [name[|name| - 1]];
    }
  }

  /** ASCII letters upper-cased, every other character unchanged. */
  function UpperChar(c: char): char {
    if 'a' <= c <= 'z' then ((c as int) - 32) as char else c
  }

  function Upper(s: string): (r: string)
    ensures |r| == |s|
    ensures forall k :: 0 <= k < |s| ==> r[k] == UpperChar(s[k])
  {
    if |s| == 0 then "" else [UpperChar(s[0])] + Upper(s[1..])
  }

  /** Upper-casing twice is upper-casing once. */
  lemma UpperIdempotent(s: string)
    ensures Upper(Upper(s)) == Upper(s)
  {
  }
}
