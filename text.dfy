/**
 * The handful of Python `str` operations the adapters rely on, over `string`
 * (a `seq<char>` of Unicode scalar values): `lower`, `startswith`, `in` on
 * strings, `rstrip`, `str` of a natural number and the `repr` of a list of strings.
 */
module Text {

  /** Python's `str.isspace` for one character: the Unicode white-space characters. */
  predicate IsSpace(c: char) {
    || c == ' '
    || '\t' <= c <= '\r'
    || '\U{1c}' <= c <= '\U{1f}'
    || c == '\U{85}' || c == '\U{a0}' || c == '\U{1680}'
    || '\U{2000}' <= c <= '\U{200a}'
    || c == '\U{2028}' || c == '\U{2029}' || c == '\U{202f}' || c == '\U{205f}' || c == '\U{3000}'
  }

  predicate IsUpperAscii(c: char) {
    'A' <= c <= 'Z'
  }

  /** Python's `str.lower` on one character, for the ASCII letters the file-name patterns admit. */
  function LowerChar(c: char): (r: char)
    ensures !IsUpperAscii(r)
    ensures IsUpperAscii(c) ==> r as int == c as int + 32
    ensures !IsUpperAscii(c) ==> r == c
  {
    if IsUpperAscii(c) then (c as int + 32) as char else c
  }

  /** Python's `str.lower` on an ASCII string: every letter lower-cased, every other character kept. */
  function Lower(s: string): (r: string)
    ensures |r| == |s|
    ensures forall i :: 0 <= i < |s| ==> r[i] == LowerChar(s[i])
  {
    if s == [] then [] else [LowerChar(s[0])] + Lower(s[1..])
  }

  predicate IsLowerAscii(c: char) {
    'a' <= c <= 'z'
  }

  /** A cased character, for the ASCII letters the selections are made of. */
  predicate IsCasedAscii(c: char) {
    IsUpperAscii(c) || IsLowerAscii(c)
  }

  /** Python's `str.upper` on one ASCII character. */
  function UpperChar(c: char): (r: char)
    ensures !IsLowerAscii(r)
    ensures IsLowerAscii(c) ==> r as int == c as int - 32
    ensures !IsLowerAscii(c) ==> r == c
  {
    if IsLowerAscii(c) then (c as int - 32) as char else c
  }

  /** One character of `str.title`: upper-cased at the start of a word, lower-cased inside one. */
  function TitleChar(afterCased: bool, c: char): char {
    if !IsCasedAscii(c) then c else if afterCased then LowerChar(c) else UpperChar(c)
  }

  /** Python's `str.title` on an ASCII string: each character cased by whether the one before it is cased. */
  function Title(s: string): (r: string)
    ensures |r| == |s|
    ensures forall i :: 0 <= i < |s| ==> r[i] == TitleChar(i > 0 && IsCasedAscii(s[i - 1]), s[i])
  {
    TitleAfter(s, false)
  }

  /** `Title` of `s`, when the character before `s` is cased (`afterCased`) or not. */
  function TitleAfter(s: string, afterCased: bool): (r: string)
    ensures |r| == |s|
    ensures |s| > 0 ==> r[0] == TitleChar(afterCased, s[0])
    ensures forall i :: 0 < i < |s| ==> r[i] == TitleChar(IsCasedAscii(s[i - 1]), s[i])
    decreases |s|
  {
    if s == [] then []
    else
      var rest := TitleAfter(s[1..], IsCasedAscii(s[0]));
      assert forall i :: 0 < i < |s| ==> s[i] == s[1..][i - 1];
      [TitleChar(afterCased, s[0])] + rest
  }

  /** Python's `s.startswith(p)`. */
  predicate IsPrefix(p: string, s: string) {
    |p| <= |s| && s[..|p|] == p
  }

  /** Python's `s.startswith(tuple(prefixes))`: some prefix of the tuple starts `s`; an empty tuple starts nothing. */
  function StartsWithAny(s: string, prefixes: seq<string>): (b: bool)
    ensures b <==> exists i :: 0 <= i < |prefixes| && IsPrefix(prefixes[i], s)
  {
    if prefixes == [] then false
    else if IsPrefix(prefixes[0], s) then true
    else
      var rest := StartsWithAny(s, prefixes[1..]);
      assert forall i :: 0 < i < |prefixes| ==> prefixes[i] == prefixes[1..][i - 1];
      rest
  }

  /** `sub` occurs in `s` starting at position `i`. */
  predicate OccursAt(s: string, sub: string, i: nat) {
    i + |sub| <= |s| && s[i..i + |sub|] == sub
  }

  /** Python's `sub in s` on strings: `sub` occurs in `s` at some position. */
  predicate Contains(s: string, sub: string) {
    exists i: nat :: i <= |s| - |sub| && OccursAt(s, sub, i)
  }

  /** Python's `str.rstrip()` with no argument: the longest prefix that does not end in white space. */
  function RStrip(s: string): (r: string)
    ensures IsPrefix(r, s)
    ensures r == [] || !IsSpace(r[|r| - 1])
    ensures forall i :: |r| <= i < |s| ==> IsSpace(s[i])
    decreases |s|
  {
    if s != [] && IsSpace(s[|s| - 1]) then RStrip(s[..|s| - 1]) else s
  }

  /**
   * The three properties in RStrip's contract determine its result: any prefix of
   * `s` that does not end in white space and leaves only white space behind is it.
   */
  lemma {:induction false} RStripUnique(s: string, t: string)
    requires IsPrefix(t, s)
    requires t == [] || !IsSpace(t[|t| - 1])
    requires forall i :: |t| <= i < |s| ==> IsSpace(s[i])
    ensures RStrip(s) == t
  {
    var r := RStrip(s);
    assert r == s[..|r|] == t;
  }

  /** Stripping twice is stripping once. */
  lemma RStripIdempotent(s: string)
    ensures RStrip(RStrip(s)) == RStrip(s)
  {
    var r := RStrip(s);
    RStripUnique(r, r);
  }

  /** The decimal digit `d`. */
  function Digit(d: nat): (c: char)
    requires d < 10
    ensures '0' <= c <= '9' && c as int - '0' as int == d
  {
    ('0' as int + d) as char
  }

  /** Python's `int(s)` for a string of decimal digits. */
  function DecimalValue(s: string): nat
    requires forall i :: 0 <= i < |s| ==> '0' <= s[i] <= '9'
    decreases |s|
  {
    if s == [] then 0
    else DecimalValue(s[..|s| - 1]) * 10 + (s[|s| - 1] as int - '0' as int)
  }

  /** Python's `str(n)` for a natural number: its decimal digits, without leading zeros. */
  function Str(n: nat): (s: string)
    ensures 1 <= |s|
    ensures n < 10 <==> |s| == 1
    ensures forall i :: 0 <= i < |s| ==> '0' <= s[i] <= '9'
    ensures s[0] == '0' ==> n == 0
    decreases n
  {
    if n < 10 then [Digit(n)] else Str(n / 10) + [Digit(n % 10)]
  }

  /** `int(str(n)) == n`: the digits `Str` writes spell the number back. */
  lemma {:induction false} StrSpellsValue(n: nat)
    ensures DecimalValue(Str(n)) == n
    decreases n
  {
    var s := Str(n);
    if n < 10 {
      assert s[..0] == [];
    } else {
      StrSpellsValue(n / 10);
      assert s[..|s| - 1] == Str(n / 10);
    }
  }

  /** Distinct numbers have distinct decimal representations. */
  lemma {:induction false} StrInjective(a: nat, b: nat)
    requires Str(a) == Str(b)
    ensures a == b
    decreases a
  {
    if a >= 10 && b >= 10 {
      var sa, sb := Str(a), Str(b);
      assert sa[|sa| - 1] == Digit(a % 10) && sb[|sb| - 1] == Digit(b % 10);
      assert a % 10 == b % 10;
      assert Str(a / 10) == sa[..|sa| - 1] == sb[..|sb| - 1] == Str(b / 10);
      StrInjective(a / 10, b / 10);
    } else if a < 10 && b < 10 {
      assert Str(a)[0] == Digit(a) && Str(b)[0] == Digit(b);
    }
  }

  /** `str` is injective on the natural numbers. */
  lemma StrInjectiveAll()
    ensures forall a: nat, b: nat :: Str(a) == Str(b) ==> a == b
  {
    forall a: nat, b: nat | Str(a) == Str(b) ensures a == b {
      StrInjective(a, b);
    }
  }

  /** Python's `repr` of a string without quote characters in it. */
  function Quote(s: string): string {
    "'" + s + "'"
  }

  /** The items quoted and separated by ", ", as Python's `repr` of a list prints them. */
  function JoinQuoted(items: seq<string>): string {
    if items == [] then ""
    else if |items| == 1 then Quote(items[0])
    else Quote(items[0]) + ", " + JoinQuoted(items[1..])
  }

  /** Python's `repr` (and `%s`) of a list of strings without quote characters in them. */
  function ListRepr(items: seq<string>): string {
    "[" + JoinQuoted(items) + "]"
  }

  /** The `repr` of a two-element list. */
  lemma ListReprPair(a: string, b: string)
    ensures ListRepr([a, b]) == "['" + a + "', '" + b + "']"
  {
    assert [a, b][1..] == [b];
    assert JoinQuoted([a, b]) == Quote(a) + ", " + Quote(b);
    assert "[" + "'" == "['" && "'" + ", " + "'" == "', '" && "'" + "]" == "']";
  }
}
