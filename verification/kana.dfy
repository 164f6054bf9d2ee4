/** The kana families a quiz round can draw from, and the pool each one selects. */
module Kana {

  /** The quiz mode: one script, or both together. */
  datatype Family = Hiragana | Katakana | Both

  /** The characters eligible for a word in family `f`. `Both` is the Hiragana
      list followed by the Katakana list (plain concatenation). */
  function Pool<K(==,!new)>(f: Family, hiragana: seq<K>, katakana: seq<K>): (r: seq<K>)
    ensures f == Hiragana ==> r == hiragana
    ensures f == Katakana ==> r == katakana
    ensures f == Both ==> |r| == |hiragana| + |katakana| && r[..|hiragana|] == hiragana && r[|hiragana|..] == katakana
    ensures forall c :: c in r <==> (f != Katakana && c in hiragana) || (f != Hiragana && c in katakana)
  {
    match f
    case Hiragana => hiragana
    case Katakana => katakana
    case Both => hiragana + katakana
  }
}
