/**
 * String primitives shared by the pipeline and the widget code: the two
 * whitespace alphabets (Python's str.isspace and ECMAScript's trim set),
 * str.split(), str.strip()/String.prototype.trim, separator joins, ASCII
 * lower-casing, substring search and decimal rendering of naturals.
 */
module Text {

  /** Python's str.isspace, by code point: the set str.split() and str.strip() use. */
  predicate IsPySpace(c: char) {
    var n := c as int;
    (9 <= n <= 13) || (28 <= n <= 32) || n == 0x85 || n == 0xA0 || n == 0x1680
    || (0x2000 <= n <= 0x200A) || n == 0x2028 || n == 0x2029 || n == 0x202F
    || n == 0x205F || n == 0x3000
  }

  /** ECMAScript WhiteSpace and LineTerminator: the set String.prototype.trim removes. */
  predicate IsJsSpace(c: char) {
    var n := c as int;
    (9 <= n <= 13) || n == 32 || n == 0xA0 || n == 0x1680 || (0x2000 <= n <= 0x200A)
    || n == 0x2028 || n == 0x2029 || n == 0x202F || n == 0x205F || n == 0x3000 || n == 0xFEFF
  }

  /** A word of str.split(): non-empty and free of whitespace. */
  predicate IsWord(w: string) {
    |w| > 0 && forall k :: 0 <= k < |w| ==> !IsPySpace(w[k])
  }

  /** The first whitespace position at or after i, or |s| when there is none. */
  function WordEnd(s: string, i: nat): (e: nat)
    requires i <= |s|
    ensures i <= e <= |s|
    ensures forall k :: i <= k < e ==> !IsPySpace(s[k])
    ensures e < |s| ==> IsPySpace(s[e])
    decreases |s| - i
  {
    if i == |s| || IsPySpace(s[i]) then i else WordEnd(s, i + 1)
  }

  /** str.split() with no separator: the maximal runs of non-whitespace, in order. */
  function Words(s: string): (ws: seq<string>)
    ensures forall k :: 0 <= k < |ws| ==> IsWord(ws[k])
    decreases |s|
  {
    if s == [] then []
    else if IsPySpace(s[0]) then Words(s[1..])
    else
      var e := WordEnd(s, 0);
      [s[..e]] + Words(s[e..])
  }

  /** sep.join(ws) in Python, ws.join(sep) in ECMAScript. */
  function Join(ws: seq<string>, sep: string): string {
    if ws == [] then ""
    else if |ws| == 1 then ws[0]
    else ws[0] + sep + Join(ws[1..], sep)
  }

  /** Joining one more piece adds the separator and that piece at the end. */
  lemma {:induction false} JoinSnoc(ws: seq<string>, w: string, sep: string)
    requires ws != []
    ensures Join(ws + [w], sep) == Join(ws, sep) + sep + w
  {
    if |ws| == 1 {
      assert ws + [w] == [ws[0], w];
    } else {
      assert (ws + [w])[1..] == ws[1..] + [w];
      JoinSnoc(ws[1..], w, sep);
    }
  }

  /** The offset of the first c in s, or |s| when there is none. */
  function IndexOf(s: string, c: char): (i: nat)
    ensures i <= |s| && (i < |s| ==> s[i] == c)
    ensures forall k :: 0 <= k < i ==> s[k] != c
  {
    if s == [] then 0
    else if s[0] == c then 0
    else 1 + IndexOf(s[1..], c)
  }

  /** s.split(c) in ECMAScript: the pieces between occurrences of c; "" gives [""]. */
  function Split(s: string, c: char): (parts: seq<string>)
    ensures |parts| >= 1
    decreases |s|
  {
    var i := IndexOf(s, c);
    if i == |s| then [s] else [s[..i]] + Split(s[i + 1..], c)
  }

  lemma {:induction false} IndexOfAfter(a: string, c: char, b: string)
    requires c !in a
    ensures IndexOf(a + [c] + b, c) == |a|
  {
    assert (a + [c] + b)[|a|] == c;
    assert forall k :: 0 <= k < |a| ==> (a + [c] + b)[k] == a[k];
  }

  /** A piece without the separator, then the separator, splits off as the first part. */
  lemma {:induction false} SplitAt(a: string, c: char, b: string)
    requires c !in a
    ensures Split(a + [c] + b, c) == [a] + Split(b, c)
  {
    var s := a + [c] + b;
    IndexOfAfter(a, c, b);
    assert s[..|a|] == a;
    assert s[|a| + 1..] == b;
  }

  /** Splitting undoes joining when no piece contains the separator. */
  lemma {:induction false} SplitJoin(ws: seq<string>, c: char)
    requires ws != []
    requires forall k :: 0 <= k < |ws| ==> c !in ws[k]
    ensures Split(Join(ws, [c]), c) == ws
  {
    if |ws| == 1 {
      assert IndexOf(ws[0], c) == |ws[0]|;
    } else {
      var rest := Join(ws[1..], [c]);
      assert Join(ws, [c]) == ws[0] + [c] + rest;
      SplitAt(ws[0], c, rest);
      SplitJoin(ws[1..], c);
      assert ws == [ws[0]] + ws[1..];
    }
  }

  /** A word followed by whitespace (or nothing) splits off as the first word. */
  lemma {:induction false} WordsOfWordThen(w: string, t: string)
    requires IsWord(w)
    requires t == [] || IsPySpace(t[0])
    ensures Words(w + t) == [w] + Words(t)
  {
    var s := w + t;
    assert forall k :: 0 <= k < |w| ==> s[k] == w[k];
    assert |w| < |s| ==> s[|w|] == t[0];
    var e := WordEnd(s, 0);
    assert e == |w|;
    assert s[..e] == w;
    assert s[e..] == t;
  }

  /** str.split() undoes " ".join of words: the round trip the chunker relies on. */
  lemma {:induction false} WordsOfJoin(ws: seq<string>)
    requires forall k :: 0 <= k < |ws| ==> IsWord(ws[k])
    ensures Words(Join(ws, " ")) == ws
  {
    if ws == [] {
    } else if |ws| == 1 {
      WordsOfWordThen(ws[0], "");
      assert ws[0] + "" == ws[0];
    } else {
      var rest := Join(ws[1..], " ");
      WordsOfJoin(ws[1..]);
      assert ws[0] + " " + rest == ws[0] + (" " + rest);
      WordsOfWordThen(ws[0], " " + rest);
      assert (" " + rest)[1..] == rest;
      assert ws == [ws[0]] + ws[1..];
    }
  }

  /** Text has no word exactly when it is made of whitespace. */
  lemma {:induction false} WordsEmptyIff(s: string)
    ensures Words(s) == [] <==> forall k :: 0 <= k < |s| ==> IsPySpace(s[k])
    decreases |s|
  {
    if s != [] && IsPySpace(s[0]) {
      WordsEmptyIff(s[1..]);
      assert forall k :: 1 <= k < |s| ==> s[k] == s[1..][k - 1];
    }
  }

  /** The end of the run of whitespace that starts at i. */
  function SpaceRunEnd(s: string, i: nat, space: char -> bool): (e: nat)
    requires i <= |s|
    ensures i <= e <= |s|
    ensures forall k :: i <= k < e ==> space(s[k])
    ensures e < |s| ==> !space(s[e])
    decreases |s| - i
  {
    if i == |s| || !space(s[i]) then i else SpaceRunEnd(s, i + 1, space)
  }

  /** The start of the run of whitespace that ends just before j. */
  function SpaceRunStart(s: string, j: nat, space: char -> bool): (b: nat)
    requires j <= |s|
    ensures b <= j
    ensures forall k :: b <= k < j ==> space(s[k])
    ensures b > 0 ==> !space(s[b - 1])
  {
    if j == 0 || !space(s[j - 1]) then j else SpaceRunStart(s, j - 1, space)
  }

  /** Removes leading characters of the given whitespace set. */
  function TrimStart(s: string, space: char -> bool): (t: string)
    ensures |t| <= |s| && t == s[|s| - |t|..]
    ensures t == [] || !space(t[0])
    ensures forall k :: 0 <= k < |s| - |t| ==> space(s[k])
  {
    s[SpaceRunEnd(s, 0, space)..]
  }

  /** Removes trailing characters of the given whitespace set. */
  function TrimEnd(s: string, space: char -> bool): (t: string)
    ensures |t| <= |s| && t == s[..|t|]
    ensures t == [] || !space(t[|t| - 1])
    ensures forall k :: |t| <= k < |s| ==> space(s[k])
  {
    s[..SpaceRunStart(s, |s|, space)]
  }

  /**
   * str.strip() (with IsPySpace) and String.prototype.trim (with IsJsSpace):
   * the longest infix with no whitespace at either end.
   */
  function Trim(s: string, space: char -> bool): (t: string)
    ensures t == [] || (!space(t[0]) && !space(t[|t| - 1]))
    ensures t == [] <==> forall k :: 0 <= k < |s| ==> space(s[k])
  {
    TrimProperties(s, space);
    TrimEnd(TrimStart(s, space), space)
  }

  lemma {:induction false} TrimProperties(s: string, space: char -> bool)
    ensures var t := TrimEnd(TrimStart(s, space), space);
      && (t == [] || (!space(t[0]) && !space(t[|t| - 1])))
      && (t == [] <==> forall k :: 0 <= k < |s| ==> space(s[k]))
  {
    var a := TrimStart(s, space);
    var t := TrimEnd(a, space);
    var off := |s| - |a|;
    assert forall k :: 0 <= k < |a| ==> a[k] == s[off + k];
    if t != [] {
      assert t[0] == a[0];
    }
  }

  /** ASCII lower-casing of one character; every other character is kept. */
  function LowerChar(c: char): char {
    if 'A' <= c <= 'Z' then (c as int + 32) as char else c
  }

  /** String.prototype.toLowerCase and str.lower(), restricted to ASCII letters. */
  function Lower(s: string): (r: string)
    ensures |r| == |s|
    ensures forall k :: 0 <= k < |s| ==> r[k] == LowerChar(s[k])
  {
    seq(|s|, k requires 0 <= k < |s| => LowerChar(s[k]))
  }

  /** Lower-casing twice is lower-casing once. */
  lemma {:induction false} LowerIdempotent(s: string)
    ensures Lower(Lower(s)) == Lower(s)
  {
    assert forall k :: 0 <= k < |s| ==> LowerChar(LowerChar(s[k])) == LowerChar(s[k]);
  }

  predicate StartsWith(s: string, prefix: string) {
    |prefix| <= |s| && s[..|prefix|] == prefix
  }

  /** sub occurs in s starting at offset i. */
  predicate OccursAt(s: string, sub: string, i: nat) {
    i + |sub| <= |s| && s[i..i + |sub|] == sub
  }

  /** String.prototype.includes and Python's `in` on strings. */
  predicate Contains(s: string, sub: string)
    decreases |s|
  {
    StartsWith(s, sub) || (s != [] && Contains(s[1..], sub))
  }

  /** Contains means an occurrence at some offset, in both directions. */
  lemma {:induction false} ContainsIff(s: string, sub: string)
    ensures Contains(s, sub) <==> exists i: nat :: OccursAt(s, sub, i)
    decreases |s|
  {
    if StartsWith(s, sub) {
      assert OccursAt(s, sub, 0);
    } else if s == [] {
      assert forall i: nat :: !OccursAt(s, sub, i);
    } else {
      ContainsIff(s[1..], sub);
      if exists i: nat :: OccursAt(s, sub, i) {
        var i: nat :| OccursAt(s, sub, i);
        assert i != 0;
        assert s[1..][i - 1..i - 1 + |sub|] == s[i..i + |sub|];
        assert OccursAt(s[1..], sub, i - 1);
      }
      if Contains(s[1..], sub) {
        var i: nat :| OccursAt(s[1..], sub, i);
        assert s[1..][i..i + |sub|] == s[i + 1..i + 1 + |sub|];
        assert OccursAt(s, sub, i + 1);
      }
    }
  }

  /** An occurrence at a known offset makes Contains hold. */
  lemma {:induction false} ContainsAt(s: string, sub: string, i: nat)
    requires OccursAt(s, sub, i)
    ensures Contains(s, sub)
  {
    ContainsIff(s, sub);
  }

  /** Every character of a contained string occurs in the containing one. */
  lemma {:induction false} ContainedCharsOccur(s: string, sub: string, k: nat)
    requires k < |sub|
    ensures Contains(s, sub) ==> sub[k] in s
  {
    if Contains(s, sub) {
      ContainsIff(s, sub);
      var i: nat :| OccursAt(s, sub, i);
      assert s[i..i + |sub|][k] == s[i + k];
    }
  }

  function DigitChar(d: nat): (c: char)
    requires d < 10
    ensures '0' <= c <= '9'
  {
    "0123456789"[d]
  }

  predicate IsDigits(s: string) {
    |s| > 0 && forall k :: 0 <= k < |s| ==> '0' <= s[k] <= '9'
  }

  /** Decimal rendering of a natural, as str(n) and template literals produce it: no leading zero unless n is 0. */
  function NatToString(n: nat): (s: string)
    ensures IsDigits(s)
    ensures s[0] == '0' <==> n == 0
    decreases n
  {
    if n < 10 then [DigitChar(n)] else NatToString(n / 10) + [DigitChar(n % 10)]
  }

  /** The value of a decimal numeral. */
  function ParseNat(s: string): nat
    requires IsDigits(s)
    decreases |s|
  {
    var d := (s[|s| - 1] as int - '0' as int) as nat;
    if |s| == 1 then d else ParseNat(s[..|s| - 1]) * 10 + d
  }

  /** Parsing a rendered natural gives it back. */
  lemma {:induction false} ParseNatToString(n: nat)
    ensures ParseNat(NatToString(n)) == n
    decreases n
  {
    var s := NatToString(n);
    if n >= 10 {
      ParseNatToString(n / 10);
      assert s[..|s| - 1] == NatToString(n / 10);
    }
  }

  /** Distinct naturals render as distinct strings. */
  lemma {:induction false} NatToStringInjective(a: nat, b: nat)
    requires NatToString(a) == NatToString(b)
    ensures a == b
  {
    ParseNatToString(a);
    ParseNatToString(b);
  }

  /** Python's < on str: lexicographic by code point, a proper prefix first. */
  predicate StrLt(a: string, b: string)
    decreases |a|
  {
    if a == [] then b != []
    else if b == [] then false
    else if a[0] != b[0] then a[0] < b[0]
    else StrLt(a[1..], b[1..])
  }

  lemma {:induction false} StrLtTransitive(a: string, b: string, c: string)
    requires StrLt(a, b) && StrLt(b, c)
    ensures StrLt(a, c)
    decreases |a|
  {
    if a != [] && b != [] && c != [] && a[0] == b[0] && b[0] == c[0] {
      StrLtTransitive(a[1..], b[1..], c[1..]);
    }
  }

  /** Distinct strings are ordered one way and not both. */
  lemma {:induction false} StrLtTrichotomy(a: string, b: string)
    ensures StrLt(a, b) ==> !StrLt(b, a)
    ensures a != b ==> StrLt(a, b) || StrLt(b, a)
    decreases |a|
  {
    if a != [] && b != [] && a[0] == b[0] {
      StrLtTrichotomy(a[1..], b[1..]);
      if a != b {
        assert a == [a[0]] + a[1..] && b == [b[0]] + b[1..];
      }
    }
  }

  /** A common prefix does not change the order. */
  lemma {:induction false} StrLtCommonPrefix(p: string, a: string, b: string)
    ensures StrLt(p + a, p + b) <==> StrLt(a, b)
    decreases |p|
  {
    if p == [] {
      assert p + a == a && p + b == b;
    } else {
      assert (p + a)[0] == (p + b)[0];
      assert (p + a)[1..] == p[1..] + a && (p + b)[1..] == p[1..] + b;
      StrLtCommonPrefix(p[1..], a, b);
    }
  }
}
