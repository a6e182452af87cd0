/** The Python string operations the address code uses, over all strings. */
module Text {

  /** `str.isspace` for one character: what `str.strip` removes. */
  predicate IsSpace(c: char) {
    var n := c as int;
    || 0x09 <= n <= 0x0D
    || 0x1C <= n <= 0x20
    || n == 0x85 || n == 0xA0 || n == 0x1680
    || 0x2000 <= n <= 0x200A
    || n == 0x2028 || n == 0x2029 || n == 0x202F || n == 0x205F || n == 0x3000
  }

  /** The twenty-nine characters there are of this kind. */
  const SPACES := {
    '\t', '\n', '\U{b}', '\U{c}', '\r', '\U{1c}', '\U{1d}', '\U{1e}', '\U{1f}', ' ',
    '\U{85}', '\U{a0}', '\U{1680}',
    '\U{2000}', '\U{2001}', '\U{2002}', '\U{2003}', '\U{2004}', '\U{2005}',
    '\U{2006}', '\U{2007}', '\U{2008}', '\U{2009}', '\U{200a}',
    '\U{2028}', '\U{2029}', '\U{202f}', '\U{205f}', '\U{3000}'}

  lemma SpacesExactly(c: char)
    ensures IsSpace(c) <==> c in SPACES
  {
  }

  function LStrip(s: string): string {
    if s != "" && IsSpace(s[0]) then LStrip(s[1..]) else s
  }

  function RStrip(s: string): string {
    if s != "" && IsSpace(s[|s| - 1]) then RStrip(s[..|s| - 1]) else s
  }

  /** `str.strip()`. */
  function Strip(s: string): string {
    RStrip(LStrip(s))
  }

  /** No whitespace at either end. */
  predicate IsStripped(s: string) {
    s != "" ==> !IsSpace(s[0]) && !IsSpace(s[|s| - 1])
  }

  ghost predicate AllSpace(s: string) {
    forall c :: c in s ==> IsSpace(c)
  }

  lemma {:induction false} LStripMeaning(s: string)
    ensures |LStrip(s)| <= |s| && LStrip(s) == s[|s| - |LStrip(s)|..]
    ensures LStrip(s) != "" ==> !IsSpace(LStrip(s)[0])
    ensures AllSpace(s[..|s| - |LStrip(s)|])
  {
    if s == "" || !IsSpace(s[0]) {
    } else {
      LStripMeaning(s[1..]);
      assert s[..|s| - |LStrip(s)|] == [s[0]] + s[1..][..|s[1..]| - |LStrip(s)|];
    }
  }

  lemma {:induction false} RStripMeaning(s: string)
    ensures |RStrip(s)| <= |s| && RStrip(s) == s[..|RStrip(s)|]
    ensures RStrip(s) != "" ==> !IsSpace(RStrip(s)[|RStrip(s)| - 1])
    ensures AllSpace(s[|RStrip(s)|..])
  {
    if s == "" || !IsSpace(s[|s| - 1]) {
    } else {
      var init := s[..|s| - 1];
      RStripMeaning(init);
      assert s[|RStrip(s)|..] == init[|RStrip(s)|..] + [s[|s| - 1]];
    }
  }

  lemma {:induction false} RStripStopsAt(s: string, prefix: nat)
    requires 0 < prefix <= |s| && !IsSpace(s[prefix - 1])
    ensures prefix <= |RStrip(s)|
  {
    if !IsSpace(s[|s| - 1]) {
    } else {
      RStripStopsAt(s[..|s| - 1], prefix);
    }
  }

  /** t is s without some whitespace before its i-th and from its j-th character on. */
  ghost predicate Trims(s: string, t: string, i: nat, j: nat) {
    i <= j <= |s| && t == s[i..j] && AllSpace(s[..i]) && AllSpace(s[j..])
  }

  /** Strip takes whitespace and nothing else off both ends until none is left there, and so leaves exactly
      the stripped strings alone. */
  lemma StripMeaning(s: string)
    ensures IsStripped(Strip(s))
    ensures exists i, j :: Trims(s, Strip(s), i, j)
    ensures Strip(s) == s <==> IsStripped(s)
  {
    LStripMeaning(s);
    RStripMeaning(LStrip(s));
    assert Strip(s) != "" ==> Strip(s)[0] == LStrip(s)[0];
    var i := |s| - |LStrip(s)|;
    var j := i + |Strip(s)|;
    assert s[j..] == LStrip(s)[|Strip(s)|..];
    assert Trims(s, Strip(s), i, j);
  }

  predicate OccursAt(s: string, sub: string, i: int) {
    0 <= i <= |s| - |sub| && s[i..i + |sub|] == sub
  }

  /** `sub in s`. */
  predicate Contains(s: string, sub: string) {
    exists i | 0 <= i <= |s| :: OccursAt(s, sub, i)
  }

  /** The position of the first of these characters, or the length if there is none. */
  function IndexOfAny(s: string, cs: set<char>): (i: nat)
    ensures i <= |s|
  {
    if s == "" || s[0] in cs then 0 else 1 + IndexOfAny(s[1..], cs)
  }

  ghost predicate IsFirst(s: string, cs: set<char>, i: nat) {
    && i <= |s|
    && (forall j :: 0 <= j < i ==> s[j] !in cs)
    && (i < |s| ==> s[i] in cs)
  }

  /** Being the first such position determines the position. */
  lemma {:induction false} IndexOfAnyMeaning(s: string, cs: set<char>, i: nat)
    ensures IsFirst(s, cs, i) <==> i == IndexOfAny(s, cs)
  {
    if s == "" || s[0] in cs {
    } else {
      if i > 0 {
        IndexOfAnyMeaning(s[1..], cs, i - 1);
        assert IsFirst(s[1..], cs, i - 1) ==> IsFirst(s, cs, i) by {
          if IsFirst(s[1..], cs, i - 1) {
            assert forall j :: 0 < j < i ==> s[j] == s[1..][j - 1];
          }
        }
        assert IsFirst(s, cs, i) ==> IsFirst(s[1..], cs, i - 1);
      }
    }
  }

  predicate IsAsciiLetter(c: char) {
    'a' <= c <= 'z' || 'A' <= c <= 'Z'
  }

  function LowerChar(c: char): char {
    if 'A' <= c <= 'Z' then (c as int + 32) as char else c
  }

  /** `str.lower()` on the ASCII strings a scheme is made of. */
  function Lower(s: string): (t: string)
    ensures |t| == |s|
    ensures forall i :: 0 <= i < |s| ==> t[i] == LowerChar(s[i])
  {
    seq(|s|, i requires 0 <= i < |s| => LowerChar(s[i]))
  }
}
