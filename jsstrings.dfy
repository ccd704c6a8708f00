/** The JavaScript string built-ins the core relies on: `Array.prototype.join`,
    `String.prototype.split` (as the reference reading of "lines"),
    `String.prototype.trim` and the decimal rendering of an integer in a template literal. */
module JsStrings {

  import opened Wrappers

  /** `parts.join(sep)`: the parts in order with `sep` between neighbours, nothing at either end. */
  function Join(parts: seq<string>, sep: string): string
    decreases |parts|
  {
    if |parts| == 0 then ""
    else if |parts| == 1 then parts[0]
    else parts[0] + sep + Join(parts[1..], sep)
  }

  /** Index of the first `c` in `s`, or `|s|` when there is none. This is the character
      search that `Split` is built on. `WorkoutController.FirstIndex` is a separate generic
      search over ids, used only to state insertion order; keeping this one here keeps the
      string module free of the controller's definitions. */
  function IndexOf(s: string, c: char): (k: nat)
    ensures k <= |s|
    ensures k < |s| ==> s[k] == c
    ensures forall i :: 0 <= i < k ==> s[i] != c
  {
    if |s| == 0 then 0
    else if s[0] == c then 0
    else 1 + IndexOf(s[1..], c)
  }

  /** `s.split(c)` for a one-character separator: the pieces between separators, at least one. */
  function Split(s: string, c: char): (r: seq<string>)
    ensures |r| > 0
    decreases |s|
  {
    var k := IndexOf(s, c);
    if k == |s| then [s] else [s[..k]] + Split(s[k + 1..], c)
  }

  /** Joining with `c` and splitting on `c` gives back the parts, provided no part contains `c`. */
  lemma {:induction false} SplitJoin(parts: seq<string>, c: char)
    requires |parts| > 0
    requires forall i :: 0 <= i < |parts| ==> c !in parts[i]
    ensures Split(Join(parts, [c]), c) == parts
    decreases |parts|
  {
    if |parts| == 1 {
      assert IndexOf(parts[0], c) == |parts[0]|;
    } else {
      var head, tail := parts[0], parts[1..];
      var rest := Join(tail, [c]);
      var s := head + [c] + rest;
      JoinCons(head, tail, [c]);
      assert parts == [head] + tail;
      IndexOfFirst(s, c, |head|);
      assert s[..|head|] == head;
      assert s[|head| + 1..] == rest;
      SplitJoin(tail, c);
    }
  }

  lemma IndexOfFirst(s: string, c: char, k: nat)
    requires k < |s| && s[k] == c
    requires forall i :: 0 <= i < k ==> s[i] != c
    ensures IndexOf(s, c) == k
  {
  }

  /** Splitting on `c` and joining with `c` gives back the string. */
  lemma {:induction false} JoinSplit(s: string, c: char)
    ensures Join(Split(s, c), [c]) == s
    decreases |s|
  {
    var k := IndexOf(s, c);
    if k < |s| {
      var rest := Split(s[k + 1..], c);
      assert Split(s, c) == [s[..k]] + rest;
      JoinSplit(s[k + 1..], c);
      JoinCons(s[..k], rest, [c]);
      assert s == s[..k] + [c] + s[k + 1..];
    }
  }

  lemma JoinCons(p: string, rest: seq<string>, sep: string)
    requires |rest| > 0
    ensures Join([p] + rest, sep) == p + sep + Join(rest, sep)
  {
    assert ([p] + rest)[1..] == rest;
  }

  /** With a non-empty separator, a join is empty exactly when there is no part or one empty part. */
  lemma {:induction false} JoinEmpty(parts: seq<string>, sep: string)
    requires sep != ""
    ensures Join(parts, sep) == "" <==> parts == [] || parts == [""]
    decreases |parts|
  {
    if |parts| >= 2 {
      assert |Join(parts, sep)| >= |sep|;
    }
  }

  // ---------------------------------------------------------------------------
  // String.prototype.trim

  /** The characters `trim` removes: ECMAScript WhiteSpace and LineTerminator code points. */
  predicate IsWhitespace(c: char) {
    c == '\t' || c == '\n' || c == '\U{000B}' || c == '\U{000C}' || c == '\r' || c == ' '
    || c == '\U{00A0}' || c == '\U{1680}' || ('\U{2000}' <= c <= '\U{200A}')
    || c == '\U{2028}' || c == '\U{2029}' || c == '\U{202F}' || c == '\U{205F}'
    || c == '\U{3000}' || c == '\U{FEFF}'
  }

  /** No whitespace at either end. */
  predicate IsTrimmed(s: string) {
    s == "" || (!IsWhitespace(s[0]) && !IsWhitespace(s[|s| - 1]))
  }

  /** Number of whitespace characters at the front of `s`. */
  function LeadingWhitespace(s: string): (k: nat)
    ensures k <= |s|
    ensures forall i :: 0 <= i < k ==> IsWhitespace(s[i])
    ensures k < |s| ==> !IsWhitespace(s[k])
    decreases |s|
  {
    if |s| > 0 && IsWhitespace(s[0]) then
      var k := 1 + LeadingWhitespace(s[1..]);
      assert forall i :: 1 <= i < k ==> s[i] == s[1..][i - 1];
      k
    else 0
  }

  /** Number of whitespace characters at the end of `s`. */
  function TrailingWhitespace(s: string): (k: nat)
    ensures k <= |s|
    ensures forall i :: |s| - k <= i < |s| ==> IsWhitespace(s[i])
    ensures k < |s| ==> !IsWhitespace(s[|s| - k - 1])
    decreases |s|
  {
    if |s| > 0 && IsWhitespace(s[|s| - 1]) then
      var k := 1 + TrailingWhitespace(s[..|s| - 1]);
      assert forall i :: |s| - k <= i < |s| - 1 ==> s[i] == s[..|s| - 1][i];
      k
    else 0
  }

  /** `s.trim()`: the piece of `s` left after the whitespace at both ends is cut off;
      no whitespace begins or ends it and everything cut off is whitespace. */
  function Trim(s: string): (r: string)
    ensures IsTrimmed(r)
    ensures var a := LeadingWhitespace(s);
      && a + |r| <= |s| && r == s[a..a + |r|]
      && (forall i :: 0 <= i < a ==> IsWhitespace(s[i]))
      && (forall i :: a + |r| <= i < |s| ==> IsWhitespace(s[i]))
  {
    var a := LeadingWhitespace(s);
    var b := TrailingWhitespace(s[a..]);
    TrimmedMiddle(s, a, b);
    s[a..|s| - b]
  }

  /** Cutting `a` whitespace characters off the front and then `b` off the back. */
  lemma TrimmedMiddle(s: string, a: nat, b: nat)
    requires a <= |s|
    requires a < |s| ==> !IsWhitespace(s[a])
    requires b <= |s| - a
    requires forall i :: |s| - a - b <= i < |s| - a ==> IsWhitespace(s[a..][i])
    requires b < |s| - a ==> !IsWhitespace(s[a..][|s| - a - b - 1])
    ensures IsTrimmed(s[a..|s| - b])
    ensures forall i :: |s| - b <= i < |s| ==> IsWhitespace(s[i])
  {
    var rest := s[a..];
    assert forall i :: |s| - b <= i < |s| ==> s[i] == rest[i - a];
    var r := s[a..|s| - b];
    assert r != "" ==> r[0] == s[a] && r[|r| - 1] == rest[|rest| - b - 1];
  }

  /** Trimming a string without whitespace at its ends leaves it alone; so trimming is idempotent. */
  lemma TrimIdentity(s: string)
    requires IsTrimmed(s)
    ensures Trim(s) == s
  {
  }

  lemma TrimIdempotent(s: string)
    ensures Trim(Trim(s)) == Trim(s)
  {
    TrimIdentity(Trim(s));
  }

  // ---------------------------------------------------------------------------
  // Decimal rendering of an integer, as `${n}` does for an integral number

  function DigitChar(d: nat): char
    requires d < 10
  {
    "0123456789"[d]
  }

  predicate IsDigit(c: char) {
    '0' <= c <= '9'
  }

  function DigitValue(c: char): nat
    requires IsDigit(c)
  {
    (c - '0') as nat
  }

  /** Decimal digits of `n`, most significant first, with no leading zero. */
  function NatToString(n: nat): (r: string)
    ensures |r| > 0 && AllDigits(r)
    ensures |r| > 1 ==> r[0] != '0'
  {
    if n < 10 then [DigitChar(n)] else NatToString(n / 10) + [DigitChar(n % 10)]
  }

  /** `${n}` for an integer: a minus sign before the digits of a negative number. */
  function IntToString(n: int): string {
    if n < 0 then "-" + NatToString(-n) else NatToString(n)
  }

  predicate AllDigits(s: string) {
    forall i :: 0 <= i < |s| ==> IsDigit(s[i])
  }

  /** Reads a string of decimal digits back as a number. */
  function ParseDigits(s: string): nat
    requires AllDigits(s)
  {
    if |s| == 0 then 0 else ParseDigits(s[..|s| - 1]) * 10 + DigitValue(s[|s| - 1])
  }

  /** Reads a rendered integer back: an optional minus sign and at least one decimal digit. */
  function ParseInt(s: string): Option<int> {
    if |s| > 1 && s[0] == '-' && AllDigits(s[1..]) then Some(-(ParseDigits(s[1..]) as int))
    else if |s| > 0 && AllDigits(s) then Some(ParseDigits(s) as int)
    else None
  }

  lemma {:induction false} ParseNatToString(n: nat)
    ensures ParseDigits(NatToString(n)) == n
  {
    if n >= 10 {
      var s := NatToString(n);
      ParseNatToString(n / 10);
      assert s[..|s| - 1] == NatToString(n / 10);
    }
  }

  /** The decimal rendering of an integer reads back as that integer. */
  lemma ParseIntToString(n: int)
    ensures ParseInt(IntToString(n)) == Some(n)
  {
    var s := IntToString(n);
    if n < 0 {
      var d := NatToString(-n);
      assert s == "-" + d && s[1..] == d;
      assert !IsDigit(s[0]);
      ParseNatToString(-n);
    } else {
      assert IsDigit(s[0]);
      ParseNatToString(n);
    }
  }

  // ---------------------------------------------------------------------------

  /** `s.startsWith(p)`. */
  predicate StartsWith(s: string, p: string) {
    |p| <= |s| && s[..|p|] == p
  }

  /** The `n` characters of `s` from position `k` on. */
  function Window(s: string, k: nat, n: nat): string
    requires k + n <= |s|
  {
    s[k..k + n]
  }

  /** `s.includes(sub)`: `sub` occurs at some position of `s`. */
  ghost predicate Contains(s: string, sub: string) {
    exists k: nat :: k + |sub| <= |s| && Window(s, k, |sub|) == sub
  }

  /** The pieces of a template written one after another. */
  function Concat(pieces: seq<string>): string {
    if |pieces| == 0 then "" else Concat(pieces[..|pieces| - 1]) + pieces[|pieces| - 1]
  }

  lemma {:induction false} ConcatSplit(pieces: seq<string>, k: nat)
    requires k <= |pieces|
    ensures Concat(pieces) == Concat(pieces[..k]) + Concat(pieces[k..])
    decreases |pieces|
  {
    if k < |pieces| {
      var n := |pieces| - 1;
      ConcatSplit(pieces[..n], k);
      assert pieces[..n][..k] == pieces[..k];
      assert pieces[k..][..|pieces[k..]| - 1] == pieces[..n][k..];
    } else {
      assert pieces[..k] == pieces;
      assert pieces[k..] == [];
    }
  }

  /** Any run of consecutive pieces occurs in the whole. */
  lemma ContainsRun(pieces: seq<string>, i: nat, j: nat)
    requires i <= j <= |pieces|
    ensures Contains(Concat(pieces), Concat(pieces[i..j]))
  {
    ConcatSplit(pieces, j);
    ConcatSplit(pieces[..j], i);
    assert pieces[..j][..i] == pieces[..i];
    assert pieces[..j][i..] == pieces[i..j];
    ContainsMiddle(Concat(pieces[..i]), Concat(pieces[i..j]), Concat(pieces[j..]));
  }

  /** Three consecutive pieces occur in the whole. */
  lemma ContainsThree(pieces: seq<string>, i: nat)
    requires i + 3 <= |pieces|
    ensures Contains(Concat(pieces), pieces[i] + pieces[i + 1] + pieces[i + 2])
  {
    ContainsRun(pieces, i, i + 3);
    var run := pieces[i..i + 3];
    assert run[..2][..1] == [pieces[i]];
    assert Concat(run[..2][..1]) == pieces[i];
    assert Concat(run) == pieces[i] + pieces[i + 1] + pieces[i + 2];
  }

  lemma ContainsMiddle(a: string, b: string, c: string)
    ensures Contains(a + b + c, b)
  {
    assert Window(a + b + c, |a|, |b|) == b;
  }
}
