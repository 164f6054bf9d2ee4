/** Romanized strings, ASCII lowercasing, and the per-character transliteration
    fold shared by both front-ends. */
module Transliteration {

  /** Every character of `s` is an ASCII lowercase letter. */
  predicate IsLowerAscii(s: string) {
    |s| == 0 || ('a' <= s[0] <= 'z' && IsLowerAscii(s[1..]))
  }

  /** The romanization of a single kana: a non-empty lowercase ASCII string. */
  type Romaji = s: string | |s| > 0 && IsLowerAscii(s) witness "a"

  /** The recursive definition agrees with the character-wise reading. */
  lemma {:induction false} LowerAsciiAt(s: string)
    ensures IsLowerAscii(s) <==> forall i :: 0 <= i < |s| ==> 'a' <= s[i] <= 'z'
  {
    if |s| > 0 {
      LowerAsciiAt(s[1..]);
      assert forall i :: 1 <= i < |s| ==> s[i] == s[1..][i - 1];
    }
  }

  /** Lowercase strings are closed under concatenation, and only lowercase parts make a lowercase whole. */
  lemma {:induction false} LowerAsciiAppend(a: string, b: string)
    ensures IsLowerAscii(a + b) <==> IsLowerAscii(a) && IsLowerAscii(b)
  {
    if |a| == 0 {
      assert a + b == b;
    } else {
      assert (a + b)[0] == a[0];
      assert (a + b)[1..] == a[1..] + b;
      LowerAsciiAppend(a[1..], b);
    }
  }

  /** ASCII case folding of one character; every other character is kept. */
  function LowerChar(c: char): char {
    if 'A' <= c <= 'Z' then (c as int + 32) as char else c
  }

  /** Lowercasing of the typed answer, restricted to ASCII letters. */
  function ToLowerAscii(s: string): (r: string)
    ensures |r| == |s|
    ensures forall i :: 0 <= i < |r| ==> !('A' <= r[i] <= 'Z')
    ensures forall i :: 0 <= i < |r| ==> (r[i] == s[i] || ('A' <= s[i] <= 'Z' && r[i] as int == s[i] as int + 32))
    ensures IsLowerAscii(s) ==> r == s
  {
    if |s| == 0 then "" else [LowerChar(s[0])] + ToLowerAscii(s[1..])
  }

  /** The answer key of a word: the in-order concatenation of every character's
      romanization, where `lookup` yields "" for a character it does not know. */
  function Transliterate<K>(lookup: K -> string, word: seq<K>): (r: string)
    ensures |word| == 0 ==> r == ""
    ensures (forall i :: 0 <= i < |word| ==> IsLowerAscii(lookup(word[i]))) ==> IsLowerAscii(r)
    ensures (forall i :: 0 <= i < |word| ==> lookup(word[i]) != "") ==> |r| >= |word|
  {
    if |word| == 0 then ""
    else
      var rest := Transliterate(lookup, word[1..]);
      LowerAsciiAppend(lookup(word[0]), rest);
      lookup(word[0]) + rest
  }

  /** Transliteration is a homomorphism from sequence concatenation to string concatenation. */
  lemma {:induction false} TransliterateAppend<K>(lookup: K -> string, a: seq<K>, b: seq<K>)
    ensures Transliterate(lookup, a + b) == Transliterate(lookup, a) + Transliterate(lookup, b)
  {
    if |a| == 0 {
      assert a + b == b;
    } else {
      assert (a + b)[0] == a[0];
      assert (a + b)[1..] == a[1..] + b;
      TransliterateAppend(lookup, a[1..], b);
    }
  }

  /** A one-character word transliterates to that character's romanization. */
  lemma TransliterateSingle<K>(lookup: K -> string, c: K)
    ensures Transliterate(lookup, [c]) == lookup(c)
  {
  }

  /** A character the lookup does not know contributes nothing: removing it
      leaves the answer key unchanged. */
  lemma UnknownContributesNothing<K>(lookup: K -> string, a: seq<K>, c: K, b: seq<K>)
    requires lookup(c) == ""
    ensures Transliterate(lookup, a + [c] + b) == Transliterate(lookup, a + b)
  {
    TransliterateAppend(lookup, a + [c], b);
    TransliterateAppend(lookup, a, [c]);
    TransliterateSingle(lookup, c);
    TransliterateAppend(lookup, a, b);
  }
}
