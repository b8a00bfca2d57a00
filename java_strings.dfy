/**
 * The parts of `java.lang.String` and `java.lang.Integer` the connector
 * relies on, written out so that their edge cases are part of the model:
 * `split` drops trailing empty pieces, `trim` removes every character up to
 * U+0020, `replace` substitutes every non-overlapping occurrence from the
 * left, and `int` arithmetic wraps around at 32 bits.
 */
module JavaStrings {
  import opened Wrappers

  /** A Java `int`. */
  type int32 = x: int | -0x8000_0000 <= x < 0x8000_0000

  const MIN_INT: int := -0x8000_0000
  const MAX_INT: int := 0x7fff_ffff
  const TWO_32: int := 0x1_0000_0000

  /** Two's-complement wrap-around of Java `int` arithmetic. */
  function Wrap32(x: int): (r: int32)
    ensures (x - r) % TWO_32 == 0
    ensures MIN_INT <= x <= MAX_INT ==> r == x
  {
    var m := x % TWO_32;
    if m < 0x8000_0000 then m else m - TWO_32
  }

  /** Values that agree modulo 2^32 wrap to the same `int`. */
  lemma WrapCongruent(x: int, y: int)
    requires (x - y) % TWO_32 == 0
    ensures Wrap32(x) == Wrap32(y)
  {
    var q := (x - y) / TWO_32;
    assert x - y == q * TWO_32;
    assert x == y + q * TWO_32;
    assert x % TWO_32 == y % TWO_32 by {
      var qy := y / TWO_32;
      assert y == qy * TWO_32 + y % TWO_32;
      assert x == (qy + q) * TWO_32 + y % TWO_32;
    }
  }

  /** An `int` sum that overflows upwards wraps to a negative value. */
  lemma WrapAbove(x: int)
    requires 0x8000_0000 <= x < TWO_32
    ensures Wrap32(x) == x - TWO_32
  {
  }

  /** An `int` difference that overflows downwards wraps to a positive value. */
  lemma WrapBelow(x: int)
    requires -TWO_32 <= x < -0x8000_0000
    ensures Wrap32(x) == x + TWO_32
  {
  }

  /** Adding to an already wrapped value wraps like adding to the exact one. */
  lemma WrapAdd(a: int, b: int)
    ensures Wrap32(Wrap32(a) + b) == Wrap32(a + b)
  {
    var w := Wrap32(a);
    var q := (a - w) / TWO_32;
    assert a - w == q * TWO_32;
    assert ((w + b) - (a + b)) == -q * TWO_32;
    assert ((w + b) - (a + b)) % TWO_32 == 0;
    WrapCongruent(w + b, a + b);
  }

  // ---------------------------------------------------------------- chars

  /** The characters `String.trim` removes: every code point up to U+0020. */
  predicate IsTrimmed(c: char) { c <= ' ' }

  predicate IsDigit(c: char) { '0' <= c <= '9' }

  /** `Character.toUpperCase`, restricted to the ASCII letters. */
  function UpperChar(c: char): (r: char)
    ensures 'a' <= c <= 'z' ==> 'A' <= r <= 'Z'
    ensures !('a' <= c <= 'z') ==> r == c
  {
    if 'a' <= c <= 'z' then (c as int - 32) as char else c
  }

  // ----------------------------------------------------- searching strings

  predicate StartsWith(s: string, prefix: string) {
    |prefix| <= |s| && s[..|prefix|] == prefix
  }

  predicate EndsWith(s: string, suffix: string) {
    |suffix| <= |s| && s[|s| - |suffix|..] == suffix
  }

  /** `String.indexOf(char)`: the first position of `c`, or -1. */
  function IndexOf(s: string, c: char): (r: int)
    ensures -1 <= r < |s|
    ensures r == -1 <==> c !in s
    ensures r >= 0 ==> s[r] == c && c !in s[..r]
  {
    if |s| == 0 then -1
    else if s[0] == c then 0
    else
      var k := IndexOf(s[1..], c);
      assert s[1..][..(if k < 0 then 0 else k)] == s[1..(if k < 0 then 1 else k + 1)];
      if k == -1 then -1 else k + 1
  }

  /** Number of occurrences of `c` in `s`. */
  function Count(c: char, s: string): nat {
    if |s| == 0 then 0
    else Count(c, s[..|s| - 1]) + (if s[|s| - 1] == c then 1 else 0)
  }

  lemma {:induction false} CountConcat(c: char, a: string, b: string)
    ensures Count(c, a + b) == Count(c, a) + Count(c, b)
    decreases |b|
  {
    if |b| == 0 {
      assert a + b == a;
    } else {
      assert (a + b)[..|a + b| - 1] == a + b[..|b| - 1];
      CountConcat(c, a, b[..|b| - 1]);
    }
  }

  lemma {:induction false} CountAbsent(c: char, s: string)
    ensures Count(c, s) == 0 <==> c !in s
    decreases |s|
  {
    if |s| > 0 {
      CountAbsent(c, s[..|s| - 1]);
      assert s == s[..|s| - 1] + [s[|s| - 1]];
    }
  }

  // ------------------------------------------------------------- trimming

  function TrimStart(s: string): (r: string)
    ensures |r| <= |s| && r == s[|s| - |r|..]
    ensures r == [] || !IsTrimmed(r[0])
  {
    if |s| > 0 && IsTrimmed(s[0]) then TrimStart(s[1..]) else s
  }

  function TrimEnd(s: string): (r: string)
    ensures |r| <= |s| && r == s[..|r|]
    ensures r == [] || !IsTrimmed(r[|r| - 1])
  {
    if |s| > 0 && IsTrimmed(s[|s| - 1]) then TrimEnd(s[..|s| - 1]) else s
  }

  /** `String.trim`: strip leading and trailing characters up to U+0020. */
  function Trim(s: string): (r: string)
    ensures |r| <= |s|
    ensures r == [] || (!IsTrimmed(r[0]) && !IsTrimmed(r[|r| - 1]))
  {
    TrimEnd(TrimStart(s))
  }

  /** A string with no trimmable character at either end is its own trim. */
  predicate IsTrim(s: string) {
    s == [] || (!IsTrimmed(s[0]) && !IsTrimmed(s[|s| - 1]))
  }

  lemma TrimOfTrimmed(s: string)
    requires IsTrim(s)
    ensures Trim(s) == s
  {
  }

  /** Leading trimming stops at the first kept character. */
  lemma {:induction false} TrimStartAround(a: string, c: char, b: string)
    requires !IsTrimmed(c)
    ensures TrimStart(a + [c] + b) == TrimStart(a) + [c] + b
    decreases |a|
  {
    if |a| > 0 {
      assert (a + [c] + b)[1..] == a[1..] + [c] + b;
      TrimStartAround(a[1..], c, b);
    } else {
      assert a + [c] + b == [c] + b;
    }
  }

  /** Trailing trimming never reaches back past a kept character. */
  lemma {:induction false} TrimEndConcat(a: string, b: string)
    requires |a| > 0 && !IsTrimmed(a[|a| - 1])
    ensures TrimEnd(a + b) == a + TrimEnd(b)
    decreases |b|
  {
    if |b| > 0 {
      assert (a + b)[..|a + b| - 1] == a + b[..|b| - 1];
      TrimEndConcat(a, b[..|b| - 1]);
    } else {
      assert a + b == a;
    }
  }

  /** Trimming around a kept character trims each side separately. */
  lemma TrimAround(a: string, c: char, b: string)
    requires !IsTrimmed(c)
    ensures Trim(a + [c] + b) == TrimStart(a) + [c] + TrimEnd(b)
  {
    TrimStartAround(a, c, b);
    TrimEndConcat(TrimStart(a) + [c], b);
  }

  /** The first occurrence lies after a prefix that does not hold it. */
  lemma IndexOfConcat(a: string, c: char, b: string)
    requires c !in a
    ensures IndexOf(a + [c] + b, c) == |a|
  {
    assert (a + [c] + b)[|a|] == c;
  }

  // ----------------------------------------------------------- upper case

  /** `String.toUpperCase`, ASCII letters only. */
  function ToUpper(s: string): (r: string)
    ensures |r| == |s|
    ensures forall i :: 0 <= i < |s| ==> r[i] == UpperChar(s[i])
  {
    seq(|s|, i requires 0 <= i < |s| => UpperChar(s[i]))
  }

  lemma ToUpperConcat(a: string, b: string)
    ensures ToUpper(a + b) == ToUpper(a) + ToUpper(b)
  {
  }

  /** Upper-casing keeps a trimmed string trimmed, leaves no lower-case letter and adds no other character. */
  lemma ToUpperShape(s: string, c: char)
    ensures IsTrim(s) ==> IsTrim(ToUpper(s))
    ensures forall i :: 0 <= i < |s| ==> !('a' <= ToUpper(s)[i] <= 'z')
    ensures c in ToUpper(s) && !('A' <= c <= 'Z') ==> c in s
  {
    if c in ToUpper(s) && !('A' <= c <= 'Z') {
      var k :| 0 <= k < |s| && ToUpper(s)[k] == c;
      assert s[k] == c;
    }
  }

  /** Upper-casing twice is upper-casing once. */
  lemma ToUpperIdempotent(s: string)
    ensures ToUpper(ToUpper(s)) == ToUpper(s)
  {
    forall i | 0 <= i < |s|
      ensures UpperChar(UpperChar(s[i])) == UpperChar(s[i])
    {
    }
  }

  /** A one-character prefix is the first character. */
  lemma StartsWithChar(s: string, c: char)
    ensures StartsWith(s, [c]) <==> |s| > 0 && s[0] == c
  {
    if |s| > 0 && s[0] == c {
      assert s[..1] == [c];
    }
  }

  /** Trimming adds no character. */
  lemma TrimInside(s: string, c: char)
    requires c in Trim(s)
    ensures c in s
  {
    var t := Trim(s);
    var u := TrimStart(s);
    assert t == TrimEnd(u);
    var k :| 0 <= k < |t| && t[k] == c;
    assert u[k] == c;
    assert s[|s| - |u| + k] == c;
  }

  /** Trimming never introduces a character, and its result is trimmed. */
  lemma TrimKeepsOut(s: string, c: char)
    requires c !in s
    ensures c !in Trim(s) && IsTrim(Trim(s))
  {
    if c in Trim(s) {
      TrimInside(s, c);
    }
  }

  /** `String.equalsIgnoreCase`, ASCII letters only. */
  predicate EqualsIgnoreCase(a: string, b: string) {
    ToUpper(a) == ToUpper(b)
  }

  // ------------------------------------------------------------ splitting

  /** Every piece between occurrences of `d`, empty pieces included. */
  function SplitAll(s: string, d: char): (r: seq<string>)
    ensures |r| >= 1
    ensures forall i :: 0 <= i < |r| ==> d !in r[i]
    decreases |s|
  {
    if |s| == 0 then [""]
    else
      var rest := SplitAll(s[1..], d);
      if s[0] == d then [""] + rest
      else [[s[0]] + rest[0]] + rest[1..]
  }

  /** The pieces glued back together with `d` between them. */
  function Join(ps: seq<string>, d: char): string
    requires |ps| >= 1
    decreases |ps|
  {
    if |ps| == 1 then ps[0] else ps[0] + [d] + Join(ps[1..], d)
  }

  function DropTrailingEmpty(ps: seq<string>): (r: seq<string>)
    ensures |r| <= |ps| && r == ps[..|r|]
    ensures r == [] || r[|r| - 1] != ""
    ensures forall i :: |r| <= i < |ps| ==> ps[i] == ""
  {
    if |ps| == 0 then []
    else if ps[|ps| - 1] == "" then DropTrailingEmpty(ps[..|ps| - 1])
    else ps
  }

  /**
   * `String.split` with a one-character delimiter: a string without the
   * delimiter gives itself alone; otherwise all pieces, less the trailing
   * empty ones.
   */
  function Split(s: string, d: char): (r: seq<string>)
    ensures forall i :: 0 <= i < |r| ==> d !in r[i]
    ensures d !in s ==> r == [s]
  {
    if d !in s then [s] else DropTrailingEmpty(SplitAll(s, d))
  }

  lemma {:induction false} SplitAllNoDelimiter(s: string, d: char)
    requires d !in s
    ensures SplitAll(s, d) == [s]
    decreases |s|
  {
    if |s| > 0 {
      SplitAllNoDelimiter(s[1..], d);
      assert [s[0]] + s[1..] == s;
    }
  }

  lemma {:induction false} SplitAllCons(a: string, d: char, b: string)
    requires d !in a
    ensures SplitAll(a + [d] + b, d) == [a] + SplitAll(b, d)
    decreases |a|
  {
    var s := a + [d] + b;
    if |a| == 0 {
      assert s[1..] == b;
    } else {
      assert s[1..] == a[1..] + [d] + b;
      SplitAllCons(a[1..], d, b);
      assert [a[0]] + a[1..] == a;
    }
  }

  /** Splitting undoes joining, as long as no piece holds the delimiter. */
  lemma {:induction false} SplitAllJoin(ps: seq<string>, d: char)
    requires |ps| >= 1
    requires forall i :: 0 <= i < |ps| ==> d !in ps[i]
    ensures SplitAll(Join(ps, d), d) == ps
    decreases |ps|
  {
    if |ps| == 1 {
      SplitAllNoDelimiter(ps[0], d);
    } else {
      SplitAllJoin(ps[1..], d);
      SplitAllCons(ps[0], d, Join(ps[1..], d));
      assert [ps[0]] + ps[1..] == ps;
    }
  }

  lemma {:induction false} JoinHasDelimiter(ps: seq<string>, d: char)
    requires |ps| >= 2
    ensures d in Join(ps, d)
  {
    assert Join(ps, d)[|ps[0]|] == d;
  }

  /**
   * `split` recovers the pieces of a join when no piece holds the delimiter
   * and the last piece, which `split` would otherwise drop, is non-empty.
   */
  lemma SplitJoin(ps: seq<string>, d: char)
    requires |ps| >= 1
    requires forall i :: 0 <= i < |ps| ==> d !in ps[i]
    requires |ps| == 1 || ps[|ps| - 1] != ""
    ensures Split(Join(ps, d), d) == ps
  {
    if |ps| == 1 {
    } else {
      JoinHasDelimiter(ps, d);
      SplitAllJoin(ps, d);
    }
  }

  /** The first piece of a split runs up to the first delimiter. */
  lemma {:induction false} SplitAllHead(s: string, d: char)
    ensures d in s ==> SplitAll(s, d)[0] == s[..IndexOf(s, d)]
    ensures d !in s ==> SplitAll(s, d)[0] == s
    decreases |s|
  {
    if |s| > 0 && s[0] != d {
      SplitAllHead(s[1..], d);
      assert s == [s[0]] + s[1..];
    }
  }

  /** Joining a piece in front adds the piece and a delimiter at the start. */
  lemma JoinCons(x: string, rest: seq<string>, d: char)
    requires |rest| >= 1
    ensures Join([x] + rest, d) == x + [d] + Join(rest, d)
  {
    assert ([x] + rest)[1..] == rest;
  }

  /** Joining one more piece adds a delimiter and the piece at the end. */
  lemma {:induction false} JoinSnoc(ps: seq<string>, x: string, d: char)
    requires |ps| >= 1
    ensures Join(ps + [x], d) == Join(ps, d) + [d] + x
    decreases |ps|
  {
    if |ps| > 1 {
      assert (ps + [x])[1..] == ps[1..] + [x];
      JoinSnoc(ps[1..], x, d);
    }
  }

  // ------------------------------------------------------------ replacing

  /** `String.replace(target, replacement)`: all occurrences, left to right. */
  function Replace(s: string, target: string, replacement: string): string
    requires |target| > 0
    decreases |s|
  {
    if |s| < |target| then s
    else if s[..|target|] == target then replacement + Replace(s[|target|..], target, replacement)
    else [s[0]] + Replace(s[1..], target, replacement)
  }

  /**
   * Replacing never adds occurrences of `c` when the replacement has no
   * more of them than the target, and removes at least one when it has
   * fewer and the target occurs at `at`.
   */
  lemma {:induction false} ReplaceCount(c: char, s: string, target: string, replacement: string, at: int)
    requires |target| > 0
    requires Count(c, replacement) < Count(c, target)
    requires at >= 0 ==> at + |target| <= |s| && s[at..at + |target|] == target
    ensures Count(c, Replace(s, target, replacement)) + (if at >= 0 then 1 else 0) <= Count(c, s)
    decreases |s|
  {
    if |s| < |target| {
    } else if s[..|target|] == target {
      var rest := s[|target|..];
      ReplaceCount(c, rest, target, replacement, -1);
      CountConcat(c, replacement, Replace(rest, target, replacement));
      assert s == target + rest;
      CountConcat(c, target, rest);
    } else {
      assert at != 0;
      var rest := s[1..];
      if at > 0 {
        SliceOfRest(s, at, |target|);
      }
      ReplaceCount(c, rest, target, replacement, if at > 0 then at - 1 else -1);
      CountConcat(c, [s[0]], Replace(rest, target, replacement));
      HeadAndRest(s);
      CountConcat(c, [s[0]], rest);
    }
  }

  lemma SliceOfRest(s: string, at: int, n: nat)
    requires 0 < at && at + n <= |s|
    ensures s[1..][at - 1..at - 1 + n] == s[at..at + n]
  {
  }

  lemma HeadAndRest(s: string)
    requires |s| > 0
    ensures s == [s[0]] + s[1..]
  {
  }

  /** Text before the target's first character cannot hold an occurrence. */
  lemma {:induction false} ReplaceSkip(a: string, s: string, target: string, replacement: string)
    requires |target| > 0 && target[0] !in a
    ensures Replace(a + s, target, replacement) == a + Replace(s, target, replacement)
    decreases |a|
  {
    if |a| > 0 {
      var tail := a[1..];
      PrependTail(a, s);
      NotInTail(target[0], a);
      ReplaceSkip(tail, s, target, replacement);
      var r := Replace(s, target, replacement);
      ReplaceMiss(a + s, target, replacement);
      PrependTail(a, r);
    } else {
      assert a + s == s;
    }
  }

  /** Text prefixed by a non-empty `a` starts with `a`'s head, followed by the rest of `a`. */
  lemma PrependTail(a: string, s: string)
    requires |a| > 0
    ensures (a + s)[0] == a[0] && (a + s)[1..] == a[1..] + s
    ensures [a[0]] + (a[1..] + s) == a + s
  {
  }

  lemma NotInTail(c: char, a: string)
    requires |a| > 0 && c !in a
    ensures c !in a[1..]
  {
    forall i | 0 <= i < |a| - 1 ensures a[1..][i] != c {
      assert a[1..][i] == a[i + 1];
    }
  }

  /** Text whose first character does not start the target keeps that character. */
  lemma ReplaceMiss(t: string, target: string, replacement: string)
    requires |target| > 0 && |t| > 0 && t[0] != target[0]
    ensures Replace(t, target, replacement) == [t[0]] + Replace(t[1..], target, replacement)
  {
    if |t| >= |target| {
      assert t[..|target|][0] == t[0];
    } else {
      assert Replace(t[1..], target, replacement) == t[1..];
      assert [t[0]] + t[1..] == t;
    }
  }

  /** An occurrence at the very start is replaced. */
  lemma ReplaceHead(target: string, s: string, replacement: string)
    requires |target| > 0
    ensures Replace(target + s, target, replacement) == replacement + Replace(s, target, replacement)
  {
    var t := target + s;
    assert t[..|target|] == target;
    assert t[|target|..] == s;
  }

  /** Text without the target's last character holds no occurrence. */
  lemma {:induction false} ReplaceAbsent(s: string, target: string, replacement: string)
    requires |target| > 0 && target[|target| - 1] !in s
    ensures Replace(s, target, replacement) == s
    decreases |s|
  {
    if |s| >= |target| {
      assert s[..|target|] != target by {
        assert s[|target| - 1] in s;
      }
      assert target[|target| - 1] !in s[1..] by {
        forall i | 0 <= i < |s| - 1 ensures s[1..][i] != target[|target| - 1] {
          assert s[1..][i] == s[i + 1];
        }
      }
      ReplaceAbsent(s[1..], target, replacement);
      assert [s[0]] + s[1..] == s;
    }
  }

  // -------------------------------------------------------------- numbers

  function DigitChar(d: nat): (c: char)
    requires d < 10
    ensures IsDigit(c)
  {
    ('0' as int + d) as char
  }

  function DigitValue(c: char): nat
    requires IsDigit(c)
  {
    c as int - '0' as int
  }

  predicate AllDigits(s: string) {
    forall i :: 0 <= i < |s| ==> IsDigit(s[i])
  }

  /** Decimal digits of a natural number, without leading zeros. */
  function NatToString(n: nat): (r: string)
    ensures |r| >= 1 && AllDigits(r)
  {
    if n < 10 then [DigitChar(n)] else NatToString(n / 10) + [DigitChar(n % 10)]
  }

  /** `Integer.toString` and `%d`: a minus sign for negatives, then digits. */
  function IntToString(x: int): (r: string)
    ensures |r| >= 1
    ensures forall i :: 0 <= i < |r| ==> IsDigit(r[i]) || r[i] == '-'
    ensures x >= 0 ==> AllDigits(r)
  {
    if x < 0 then "-" + NatToString(-x) else NatToString(x)
  }

  /** The value of a string of decimal digits (leading zeros allowed). */
  function DigitsValue(s: string): nat
    requires AllDigits(s)
  {
    if |s| == 0 then 0 else DigitsValue(s[..|s| - 1]) * 10 + DigitValue(s[|s| - 1])
  }

  /**
   * `Integer.parseInt`: an optional sign, then at least one digit, and a
   * value within the `int` range; anything else is a NumberFormatException
   * (here `None`).
   */
  function ParseInt(s: string): (r: Option<int32>)
    ensures r.Some? ==> |s| >= 1
    ensures r.Some? && r.value < 0 ==> s[0] == '-'
  {
    if |s| == 0 then None
    else if s[0] == '-' || s[0] == '+' then
      var body := s[1..];
      if |body| == 0 || !AllDigits(body) then None
      else
        var v: int := if s[0] == '-' then 0 - DigitsValue(body) as int else DigitsValue(body);
        if MIN_INT <= v <= MAX_INT then Some(v) else None
    else if !AllDigits(s) then None
    else if DigitsValue(s) <= MAX_INT then Some(DigitsValue(s))
    else None
  }

  lemma {:induction false} DigitsValueOfNat(n: nat)
    ensures DigitsValue(NatToString(n)) == n
  {
    if n >= 10 {
      var s := NatToString(n);
      assert s[..|s| - 1] == NatToString(n / 10);
      DigitsValueOfNat(n / 10);
    }
  }

  /** `Integer.parseInt` inverts `Integer.toString` on every `int`. */
  lemma ParseIntToString(x: int32)
    ensures ParseInt(IntToString(x)) == Some(x)
  {
    var s := IntToString(x);
    if x < 0 {
      var body := NatToString(-(x as int));
      assert s == "-" + body;
      assert s[1..] == body;
      DigitsValueOfNat(-(x as int));
    } else {
      DigitsValueOfNat(x);
      assert s[0] != '-' && s[0] != '+' by { assert IsDigit(s[0]); }
    }
  }

  /** Distinct `int` values print differently. */
  lemma IntToStringInjective(x: int32, y: int32)
    requires IntToString(x) == IntToString(y)
    ensures x == y
  {
    ParseIntToString(x);
    ParseIntToString(y);
  }
}
