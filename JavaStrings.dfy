/** The parts of java.lang.String, java.util.regex splitting, Integer/Long parsing and
    stream sorting that the core relies on, written out with Java's edge cases. */
module JavaStrings {
  import opened Wrappers

  // ---------------------------------------------------------------------------
  // Case
  // ---------------------------------------------------------------------------

  predicate IsUpperAscii(c: char) {
    'A' <= c <= 'Z'
  }

  /** toLowerCase on one character (ASCII letters only). */
  function LowerChar(c: char): (r: char)
    ensures !IsUpperAscii(r)
    ensures !IsUpperAscii(c) ==> r == c
    ensures IsUpperAscii(c) ==> r as int == c as int + 32
  {
    if IsUpperAscii(c) then (c as int + 32) as char else c
  }

  /** A string that toLowerCase leaves as it is. */
  predicate IsLower(s: string) {
    forall i :: 0 <= i < |s| ==> !IsUpperAscii(s[i])
  }

  function Lower(s: string): (r: string)
    ensures |r| == |s| && IsLower(r)
    ensures IsLower(s) ==> r == s
  {
    seq(|s|, i requires 0 <= i < |s| => LowerChar(s[i]))
  }

  lemma LowerIdempotent(s: string)
    ensures Lower(Lower(s)) == Lower(s)
  {
  }

  // ---------------------------------------------------------------------------
  // trim, startsWith, endsWith, indexOf
  // ---------------------------------------------------------------------------

  /** String.trim removes every character up to U+0020 from both ends. */
  predicate Trimmable(c: char) {
    c <= ' '
  }

  function TrimLeft(s: string): (r: string)
    ensures |r| <= |s| && forall i :: 0 <= i < |r| ==> r[i] == s[|s| - |r| + i]
    ensures forall i :: 0 <= i < |s| - |r| ==> Trimmable(s[i])
    ensures r == [] || !Trimmable(r[0])
  {
    if s != [] && Trimmable(s[0]) then
      var r := TrimLeft(s[1..]);
      assert s[1..][|s| - 1 - |r|..] == s[|s| - |r|..];
      assert forall i :: 1 <= i < |s| - |r| ==> s[i] == s[1..][i - 1];
      r
    else s
  }

  function TrimRight(s: string): (r: string)
    ensures |r| <= |s| && forall i :: 0 <= i < |r| ==> r[i] == s[i]
    ensures forall i :: |r| <= i < |s| ==> Trimmable(s[i])
    ensures r == [] || !Trimmable(r[|r| - 1])
  {
    if s != [] && Trimmable(s[|s| - 1]) then
      var r := TrimRight(s[..|s| - 1]);
      assert s[..|s| - 1][..|r|] == s[..|r|];
      r
    else s
  }

  function Trim(s: string): (r: string)
    ensures r == [] || (!Trimmable(r[0]) && !Trimmable(r[|r| - 1]))
  {
    TrimRight(TrimLeft(s))
  }

  /** A string with no trimmable character at either end is its own trim. */
  lemma TrimOfTrimmed(s: string)
    requires s == [] || (!Trimmable(s[0]) && !Trimmable(s[|s| - 1]))
    ensures Trim(s) == s
  {
  }

  /** A string with a non-blank first and last character, after one space, trims back to
      itself. */
  lemma TrimPadded(w: string)
    requires w != [] && !Trimmable(w[0]) && !Trimmable(w[|w| - 1])
    ensures Trim(" " + w) == w
  {
    var s := " " + w;
    assert Trimmable(s[0]) && s[1..] == w;
    assert TrimLeft(s) == TrimLeft(w) == w;
    assert TrimRight(w) == w;
  }

  predicate StartsWith(s: string, prefix: string) {
    |prefix| <= |s| && s[..|prefix|] == prefix
  }

  /** A one-character prefix is a test of the first character. */
  lemma StartsWithChar(s: string, c: char)
    requires s != []
    ensures StartsWith(s, [c]) <==> s[0] == c
  {
    assert |s[..1]| == 1 && s[..1][0] == s[0];
  }

  predicate EndsWith(s: string, suffix: string) {
    |suffix| <= |s| && s[|s| - |suffix|..] == suffix
  }

  /** String.indexOf(char): the first position of c, or -1. */
  function IndexOf(s: string, c: char): (i: int)
    ensures -1 <= i < |s|
    ensures i == -1 <==> c !in s
    ensures 0 <= i ==> s[i] == c && c !in s[..i]
  {
    if s == [] then -1
    else if s[0] == c then 0
    else
      var j := IndexOf(s[1..], c);
      assert s[1..][..if j < 0 then 0 else j] == s[1..if j < 0 then 1 else j + 1];
      if j == -1 then -1 else j + 1
  }

  // ---------------------------------------------------------------------------
  // String.split
  // ---------------------------------------------------------------------------

  /** The characters the regex class \s matches. */
  const Whitespace: set<char> := {' ', '\t', '\n', '\U{B}', '\U{C}', '\r'}

  predicate NoneOf(s: string, seps: set<char>) {
    forall i :: 0 <= i < |s| ==> s[i] !in seps
  }

  /** Position of the first separator, or |s| when there is none. */
  function FirstSep(s: string, seps: set<char>): (i: nat)
    ensures i <= |s| && NoneOf(s[..i], seps)
    ensures i < |s| ==> s[i] in seps
  {
    if s == [] || s[0] in seps then 0 else 1 + FirstSep(s[1..], seps)
  }

  /** End of the maximal run of separators that starts at i. */
  function RunEnd(s: string, i: nat, seps: set<char>): (j: nat)
    requires i <= |s|
    ensures i <= j <= |s|
    ensures forall k :: i <= k < j ==> s[k] in seps
    ensures j < |s| ==> s[j] !in seps
    decreases |s| - i
  {
    if i < |s| && s[i] in seps then RunEnd(s, i + 1, seps) else i
  }

  /** The text between matches, every piece kept: String.split with a negative limit.
      With runs, a maximal run of separators is one match (the regex "\\s+");
      otherwise every separator character is a match of its own (the regex ","). */
  function Pieces(s: string, seps: set<char>, runs: bool): (r: seq<string>)
    ensures |r| >= 1
    ensures forall k :: 0 <= k < |r| ==> NoneOf(r[k], seps)
    decreases |s|
  {
    var i := FirstSep(s, seps);
    if i == |s| then [s]
    else
      var j := if runs then RunEnd(s, i, seps) else i + 1;
      [s[..i]] + Pieces(s[j..], seps, runs)
  }

  function DropTrailingEmpty(ps: seq<string>): (r: seq<string>)
    ensures |r| <= |ps| && r == ps[..|r|]
    ensures r == [] || r[|r| - 1] != ""
    ensures forall k :: |r| <= k < |ps| ==> ps[k] == ""
  {
    if ps != [] && ps[|ps| - 1] == "" then DropTrailingEmpty(ps[..|ps| - 1]) else ps
  }

  /** String.split with limit 0: a string without any match is returned whole (so "" gives [""]);
      otherwise trailing empty pieces are removed (so "," split on ',' gives []). */
  function Split(s: string, seps: set<char>, runs: bool): (r: seq<string>)
    ensures forall k :: 0 <= k < |r| ==> NoneOf(r[k], seps)
  {
    if FirstSep(s, seps) == |s| then [s] else DropTrailingEmpty(Pieces(s, seps, runs))
  }

  function SplitOn(s: string, c: char): seq<string> {
    Split(s, {c}, false)
  }

  /** The pieces of a trimmed string split on runs of whitespace are all non-empty. */
  lemma {:induction false} PiecesOfTrimmedNonEmpty(s: string, seps: set<char>)
    requires s != [] && s[0] !in seps && s[|s| - 1] !in seps
    ensures forall k :: 0 <= k < |Pieces(s, seps, true)| ==> Pieces(s, seps, true)[k] != ""
    decreases |s|
  {
    var i := FirstSep(s, seps);
    if i < |s| {
      var j := RunEnd(s, i, seps);
      assert i > 0;
      assert j < |s|;
      PiecesOfTrimmedNonEmpty(s[j..], seps);
    }
  }

  function Join(ps: seq<string>, sep: string): string {
    if |ps| == 0 then ""
    else if |ps| == 1 then ps[0]
    else ps[0] + sep + Join(ps[1..], sep)
  }

  lemma {:induction false} JoinAppend(ps: seq<string>, x: string, sep: string)
    requires |ps| >= 1
    ensures Join(ps + [x], sep) == Join(ps, sep) + sep + x
    decreases |ps|
  {
    if |ps| == 1 {
      assert ps + [x] == [ps[0], x];
      assert Join([x], sep) == x;
    } else {
      assert (ps + [x])[1..] == ps[1..] + [x];
      JoinAppend(ps[1..], x, sep);
    }
  }

  /** When the last piece is not empty, split with limit 0 keeps every piece. */
  lemma SplitKeepsPieces(s: string, seps: set<char>, runs: bool)
    requires var ps := Pieces(s, seps, runs); ps[|ps| - 1] != ""
    ensures Split(s, seps, runs) == Pieces(s, seps, runs)
  {
  }

  /** Joining the pieces with the separator gives back the original string. */
  lemma {:induction false} JoinPieces(s: string, c: char)
    ensures Join(Pieces(s, {c}, false), [c]) == s
    decreases |s|
  {
    var i := FirstSep(s, {c});
    if i < |s| {
      var rest := Pieces(s[i + 1..], {c}, false);
      JoinPieces(s[i + 1..], c);
      assert Pieces(s, {c}, false) == [s[..i]] + rest;
      assert s == s[..i] + [c] + s[i + 1..];
    }
  }

  lemma {:induction false} FirstSepAfter(x: string, c: char, y: string)
    requires NoneOf(x, {c})
    ensures FirstSep(x + [c] + y, {c}) == |x|
    decreases |x|
  {
    if x != [] {
      FirstSepAfter(x[1..], c, y);
      assert (x + [c] + y)[1..] == x[1..] + [c] + y;
    }
  }

  /** Splitting a join of separator-free pieces gives back the pieces. */
  lemma {:induction false} PiecesOfJoin(ps: seq<string>, c: char)
    requires |ps| >= 1
    requires forall k :: 0 <= k < |ps| ==> NoneOf(ps[k], {c})
    ensures Pieces(Join(ps, [c]), {c}, false) == ps
    decreases |ps|
  {
    if |ps| == 1 {
      assert FirstSep(ps[0], {c}) == |ps[0]|;
    } else {
      var s := Join(ps, [c]);
      var rest := Join(ps[1..], [c]);
      assert s == ps[0] + [c] + rest;
      FirstSepAfter(ps[0], c, rest);
      assert s[..|ps[0]|] == ps[0];
      assert s[|ps[0]| + 1..] == rest;
      PiecesOfJoin(ps[1..], c);
    }
  }

  // ---------------------------------------------------------------------------
  // Lexicographic order (String.compareTo) and Stream.sorted
  // ---------------------------------------------------------------------------

  predicate LexLe(a: string, b: string)
    decreases |a|
  {
    a == [] || (b != [] && (a[0] < b[0] || (a[0] == b[0] && LexLe(a[1..], b[1..]))))
  }

  lemma {:induction false} LexLeTotal(a: string, b: string)
    ensures LexLe(a, b) || LexLe(b, a)
    decreases |a|
  {
    if a != [] && b != [] && a[0] == b[0] {
      LexLeTotal(a[1..], b[1..]);
    }
  }

  lemma {:induction false} LexLeReflexive(a: string)
    ensures LexLe(a, a)
    decreases |a|
  {
    if a != [] {
      LexLeReflexive(a[1..]);
    }
  }

  lemma {:induction false} LexLeAntisymmetric(a: string, b: string)
    requires LexLe(a, b) && LexLe(b, a)
    ensures a == b
    decreases |a|
  {
    if a != [] {
      LexLeAntisymmetric(a[1..], b[1..]);
      assert a == [a[0]] + a[1..] && b == [b[0]] + b[1..];
    }
  }

  lemma {:induction false} LexLeTransitive(a: string, b: string, c: string)
    requires LexLe(a, b) && LexLe(b, c)
    ensures LexLe(a, c)
    decreases |a|
  {
    if a != [] && a[0] == b[0] && b[0] == c[0] {
      LexLeTransitive(a[1..], b[1..], c[1..]);
    }
  }

  predicate Sorted(s: seq<string>) {
    forall i, j :: 0 <= i < j < |s| ==> LexLe(s[i], s[j])
  }

  function Insert(x: string, t: seq<string>): (r: seq<string>)
    requires Sorted(t)
    ensures Sorted(r)
    ensures multiset(r) == multiset(t) + multiset{x}
  {
    if t == [] then [x]
    else if LexLe(x, t[0]) then
      assert forall j :: 0 < j < |t| ==> LexLe(t[0], t[j]);
      assert forall j :: 0 < j < |t| ==> LexLe(x, t[j]) by {
        forall j | 0 < j < |t| ensures LexLe(x, t[j]) {
          LexLeTransitive(x, t[0], t[j]);
        }
      }
      [x] + t
    else
      LexLeTotal(x, t[0]);
      var rest := Insert(x, t[1..]);
      assert t == [t[0]] + t[1..];
      assert forall y :: y in multiset(rest) ==> LexLe(t[0], y) by {
        forall y | y in multiset(rest) ensures LexLe(t[0], y) {
          if y != x {
            assert y in multiset(t[1..]);
            var j :| 0 <= j < |t[1..]| && t[1..][j] == y;
            assert t[j + 1] == y;
          }
        }
      }
      assert forall j :: 0 <= j < |rest| ==> rest[j] in multiset(rest);
      [t[0]] + rest
  }

  /** Stream.sorted on strings: an ordered permutation of the input. */
  function Sort(s: seq<string>): (r: seq<string>)
    ensures Sorted(r)
    ensures multiset(r) == multiset(s)
  {
    if s == [] then []
    else
      assert s == s[..|s| - 1] + [s[|s| - 1]];
      Insert(s[|s| - 1], Sort(s[..|s| - 1]))
  }

  /** The head of a sorted sequence is below each of its elements. */
  lemma SortedHeadLe(a: seq<string>, y: string)
    requires Sorted(a) && y in multiset(a)
    ensures LexLe(a[0], y)
  {
    var i :| 0 <= i < |a| && a[i] == y;
    if i == 0 {
      LexLeReflexive(y);
    }
  }

  lemma SortedTail(a: seq<string>) returns (t: seq<string>)
    requires Sorted(a) && a != []
    ensures t == a[1..] && Sorted(t)
    ensures multiset(t) == multiset(a) - multiset{a[0]}
  {
    t := a[1..];
    assert a == [a[0]] + t;
  }

  /** The sorted arrangement of a multiset of strings is unique. */
  lemma {:induction false} SortedUnique(a: seq<string>, b: seq<string>)
    requires Sorted(a) && Sorted(b) && multiset(a) == multiset(b)
    ensures a == b
    decreases |a|
  {
    if a != [] {
      assert |b| == |multiset(b)| == |a|;
      assert a[0] in multiset(b) && b[0] in multiset(a);
      SortedHeadLe(b, a[0]);
      SortedHeadLe(a, b[0]);
      LexLeAntisymmetric(a[0], b[0]);
      var ta := SortedTail(a);
      var tb := SortedTail(b);
      SortedUnique(ta, tb);
    }
  }

  // ---------------------------------------------------------------------------
  // Decimal text: Integer.parseInt, Long.parseLong, %d
  // ---------------------------------------------------------------------------

  const IntMin: int := -0x8000_0000
  const IntMax: int := 0x7fff_ffff
  const LongMin: int := -0x8000_0000_0000_0000
  const LongMax: int := 0x7fff_ffff_ffff_ffff

  predicate IsDigit(c: char) {
    '0' <= c <= '9'
  }

  predicate AllDigits(s: string) {
    forall i :: 0 <= i < |s| ==> IsDigit(s[i])
  }

  function DigitChar(d: nat): (c: char)
    requires d < 10
    ensures IsDigit(c) && c as int - '0' as int == d
  {
    ('0' as int + d) as char
  }

  function DigitsValue(s: string): nat
    requires AllDigits(s)
  {
    if s == [] then 0 else DigitsValue(s[..|s| - 1]) * 10 + (s[|s| - 1] as int - '0' as int)
  }

  function NatToString(n: nat): (r: string)
    ensures r != [] && AllDigits(r)
  {
    if n < 10 then [DigitChar(n)] else NatToString(n / 10) + [DigitChar(n % 10)]
  }

  /** Decimal rendering of a Java integer (String.valueOf, or %d). */
  function IntToString(i: int): string {
    if i < 0 then "-" + NatToString(-i) else NatToString(i)
  }

  /** Integer.parseInt / Long.parseLong in radix 10: an optional sign, at least one ASCII decimal digit,
      and a value within [lo, hi]; anything else is a NumberFormatException (None). */
  function ParseDecimal(s: string, lo: int, hi: int): (r: Option<int>)
    ensures r.Some? ==> lo <= r.value <= hi
  {
    if s == [] then None
    else
      var digits := if s[0] == '-' || s[0] == '+' then s[1..] else s;
      if digits == [] || !AllDigits(digits) then None
      else
        var d: int := DigitsValue(digits);
        var v := if s[0] == '-' then -d else d;
        if lo <= v <= hi then Some(v) else None
  }

  function ParseInt(s: string): Option<int> {
    ParseDecimal(s, IntMin, IntMax)
  }

  function ParseLong(s: string): Option<int> {
    ParseDecimal(s, LongMin, LongMax)
  }

  lemma {:induction false} DigitsOfNat(n: nat)
    ensures DigitsValue(NatToString(n)) == n
    decreases n
  {
    if n >= 10 {
      DigitsOfNat(n / 10);
      var s := NatToString(n);
      assert s[..|s| - 1] == NatToString(n / 10);
    }
  }

  /** Parsing the decimal rendering of any in-range value gives the value back. */
  lemma ParseDecimalOfIntToString(n: int, lo: int, hi: int)
    requires lo <= n <= hi
    ensures ParseDecimal(IntToString(n), lo, hi) == Some(n)
  {
    if n < 0 {
      DigitsOfNat(-n);
      assert IntToString(n)[1..] == NatToString(-n);
    } else {
      DigitsOfNat(n);
      assert IsDigit(NatToString(n)[0]);
    }
  }

  /** A Java boolean as %b and String.valueOf render it. */
  function BoolToString(b: bool): string {
    if b then "true" else "false"
  }
}
