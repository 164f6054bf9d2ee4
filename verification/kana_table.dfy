/** The browser front-end's character data: the two kana pools and the
    kana-to-romaji table, character for character as in static/main.js. */
module KanaTable {
  import opened Wrappers
  import opened Kana
  import opened Transliteration
  import opened WordGen

  /** The Hiragana pool (static/main.js:10), written in the grouping of the
      table's lines; the string is the same one. */
  const HiraganaChars: string :=
    "あいうえお" +
    "かきくけこ" +
    "さしすせそ" +
    "たちつてと" +
    "なにぬねの" +
    "はひふへほ" +
    "まみむめも" +
    "やゆよ" +
    "らりるれろ" +
    "わをん" +
    "がぎぐげご" +
    "ざじずぜぞ" +
    "だぢづでど" +
    "ばびぶべぼ" +
    "ぱぴぷぺぽ" +
    "ぁぃぅぇぉ" +
    "ゃゅょっ"

  /** The Katakana pool (static/main.js:11), grouped the same way. */
  const KatakanaChars: string :=
    "アイウエオ" +
    "カキクケコ" +
    "サシスセソ" +
    "タチツテト" +
    "ナニヌネノ" +
    "ハヒフヘホ" +
    "マミムメモ" +
    "ヤユヨ" +
    "ラリルレロ" +
    "ワヰヱヲン" +
    "ガギグゲゴ" +
    "ザジズゼゾ" +
    "ダヂヅデド" +
    "バビブベボ" +
    "パピプペポ"

  /** A character of the Unicode Hiragana letters (U+3041 to U+3096) or
      Katakana letters (U+30A1 to U+30FA). */
  predicate IsKana(c: char) {
    ('\U{3041}' <= c <= '\U{3096}') || ('\U{30A1}' <= c <= '\U{30FA}')
  }

  /** The `kanaMap` object literal (static/main.js:44-77): `Some(v)` for a
      character that has the property `v`, `None` for every other character.
      The table is looked up one block of source lines at a time; the keys of
      the blocks are disjoint, so this is the lookup in the whole object. The
      `Romaji` type records that every value is non-empty lowercase ASCII. */
  function KanaMap(c: char): (r: Option<Romaji>)
    ensures r.Some? ==> IsKana(c)
  {
    if HiraganaRowsAToNa(c).Some? then HiraganaRowsAToNa(c)
    else if HiraganaRowsHaToWa(c).Some? then HiraganaRowsHaToWa(c)
    else if HiraganaVoiced(c).Some? then HiraganaVoiced(c)
    else if HiraganaSmall(c).Some? then HiraganaSmall(c)
    else if KatakanaRowsAToNa(c).Some? then KatakanaRowsAToNa(c)
    else if KatakanaRowsHaToWa(c).Some? then KatakanaRowsHaToWa(c)
    else KatakanaVoiced(c)
  }

  /** Hiragana rows a to na (static/main.js:45-49). */
  function HiraganaRowsAToNa(c: char): (r: Option<Romaji>)
    ensures r.Some? ==> IsKana(c)
  {
    match c
    case 'あ' => Some("a") case 'い' => Some("i") case 'う' => Some("u") case 'え' => Some("e") case 'お' => Some("o")
    case 'か' => Some("ka") case 'き' => Some("ki") case 'く' => Some("ku") case 'け' => Some("ke") case 'こ' => Some("ko")
    case 'さ' => Some("sa") case 'し' => Some("shi") case 'す' => Some("su") case 'せ' => Some("se") case 'そ' => Some("so")
    case 'た' => Some("ta") case 'ち' => Some("chi") case 'つ' => Some("tsu") case 'て' => Some("te") case 'と' => Some("to")
    case 'な' => Some("na") case 'に' => Some("ni") case 'ぬ' => Some("nu") case 'ね' => Some("ne") case 'の' => Some("no")
    case _ => None
  }

  /** Hiragana rows ha to wa and n (static/main.js:50-54). */
  function HiraganaRowsHaToWa(c: char): (r: Option<Romaji>)
    ensures r.Some? ==> IsKana(c)
  {
    match c
    case 'は' => Some("ha") case 'ひ' => Some("hi") case 'ふ' => Some("fu") case 'へ' => Some("he") case 'ほ' => Some("ho")
    case 'ま' => Some("ma") case 'み' => Some("mi") case 'む' => Some("mu") case 'め' => Some("me") case 'も' => Some("mo")
    case 'や' => Some("ya") case 'ゆ' => Some("yu") case 'よ' => Some("yo")
    case 'ら' => Some("ra") case 'り' => Some("ri") case 'る' => Some("ru") case 'れ' => Some("re") case 'ろ' => Some("ro")
    case 'わ' => Some("wa") case 'を' => Some("o") case 'ん' => Some("n")
    case _ => None
  }

  /** Voiced and half-voiced Hiragana (static/main.js:55-59). */
  function HiraganaVoiced(c: char): (r: Option<Romaji>)
    ensures r.Some? ==> IsKana(c)
  {
    match c
    case 'が' => Some("ga") case 'ぎ' => Some("gi") case 'ぐ' => Some("gu") case 'げ' => Some("ge") case 'ご' => Some("go")
    case 'ざ' => Some("za") case 'じ' => Some("ji") case 'ず' => Some("zu") case 'ぜ' => Some("ze") case 'ぞ' => Some("zo")
    case 'だ' => Some("da") case 'ぢ' => Some("ji") case 'づ' => Some("zu") case 'で' => Some("de") case 'ど' => Some("do")
    case 'ば' => Some("ba") case 'び' => Some("bi") case 'ぶ' => Some("bu") case 'べ' => Some("be") case 'ぼ' => Some("bo")
    case 'ぱ' => Some("pa") case 'ぴ' => Some("pi") case 'ぷ' => Some("pu") case 'ぺ' => Some("pe") case 'ぽ' => Some("po")
    case _ => None
  }

  /** Small Hiragana (static/main.js:60-61). */
  function HiraganaSmall(c: char): (r: Option<Romaji>)
    ensures r.Some? ==> IsKana(c)
  {
    match c
    case 'ぁ' => Some("a") case 'ぃ' => Some("i") case 'ぅ' => Some("u") case 'ぇ' => Some("e") case 'ぉ' => Some("o")
    case 'ゃ' => Some("ya") case 'ゅ' => Some("yu") case 'ょ' => Some("yo") case 'っ' => Some("tsu")
    case _ => None
  }

  /** Katakana rows a to na (static/main.js:62-66). */
  function KatakanaRowsAToNa(c: char): (r: Option<Romaji>)
    ensures r.Some? ==> IsKana(c)
  {
    match c
    case 'ア' => Some("a") case 'イ' => Some("i") case 'ウ' => Some("u") case 'エ' => Some("e") case 'オ' => Some("o")
    case 'カ' => Some("ka") case 'キ' => Some("ki") case 'ク' => Some("ku") case 'ケ' => Some("ke") case 'コ' => Some("ko")
    case 'サ' => Some("sa") case 'シ' => Some("shi") case 'ス' => Some("su") case 'セ' => Some("se") case 'ソ' => Some("so")
    case 'タ' => Some("ta") case 'チ' => Some("chi") case 'ツ' => Some("tsu") case 'テ' => Some("te") case 'ト' => Some("to")
    case 'ナ' => Some("na") case 'ニ' => Some("ni") case 'ヌ' => Some("nu") case 'ネ' => Some("ne") case 'ノ' => Some("no")
    case _ => None
  }

  /** Katakana rows ha to wa and n (static/main.js:67-71). */
  function KatakanaRowsHaToWa(c: char): (r: Option<Romaji>)
    ensures r.Some? ==> IsKana(c)
  {
    match c
    case 'ハ' => Some("ha") case 'ヒ' => Some("hi") case 'フ' => Some("fu") case 'ヘ' => Some("he") case 'ホ' => Some("ho")
    case 'マ' => Some("ma") case 'ミ' => Some("mi") case 'ム' => Some("mu") case 'メ' => Some("me") case 'モ' => Some("mo")
    case 'ヤ' => Some("ya") case 'ユ' => Some("yu") case 'ヨ' => Some("yo")
    case 'ラ' => Some("ra") case 'リ' => Some("ri") case 'ル' => Some("ru") case 'レ' => Some("re") case 'ロ' => Some("ro")
    case 'ワ' => Some("wa") case 'ヰ' => Some("i") case 'ヱ' => Some("e") case 'ヲ' => Some("o") case 'ン' => Some("n")
    case _ => None
  }

  /** Voiced and half-voiced Katakana (static/main.js:72-76). */
  function KatakanaVoiced(c: char): (r: Option<Romaji>)
    ensures r.Some? ==> IsKana(c)
  {
    match c
    case 'ガ' => Some("ga") case 'ギ' => Some("gi") case 'グ' => Some("gu") case 'ゲ' => Some("ge") case 'ゴ' => Some("go")
    case 'ザ' => Some("za") case 'ジ' => Some("ji") case 'ズ' => Some("zu") case 'ゼ' => Some("ze") case 'ゾ' => Some("zo")
    case 'ダ' => Some("da") case 'ヂ' => Some("ji") case 'ヅ' => Some("zu") case 'デ' => Some("de") case 'ド' => Some("do")
    case 'バ' => Some("ba") case 'ビ' => Some("bi") case 'ブ' => Some("bu") case 'ベ' => Some("be") case 'ボ' => Some("bo")
    case 'パ' => Some("pa") case 'ピ' => Some("pi") case 'プ' => Some("pu") case 'ペ' => Some("pe") case 'ポ' => Some("po")
    case _ => None
  }

  /** One character's contribution, `kanaMap[char] || ''`: the empty string
      exactly for a character without an entry, lowercase ASCII always. */
  function Romanize(c: char): (r: string)
    ensures IsLowerAscii(r)
    ensures r == "" <==> KanaMap(c).None?
    ensures !IsKana(c) ==> r == ""
  {
    match KanaMap(c)
    case Some(r) => r
    case None => ""
  }

  /** The expected answer for a word (static/main.js:79-83). It is always
      lowercase ASCII, and a word whose every character has an entry gets at
      least one letter per character. */
  function ToRomaji(word: string): (r: string)
    ensures IsLowerAscii(r)
    ensures (forall i :: 0 <= i < |word| ==> KanaMap(word[i]).Some?) ==> |word| <= |r|
  {
    Transliterate(Romanize, word)
  }

  /* Coverage of the pools, a few table lines at a time. */
  lemma HiraganaLinesMapped0()
    ensures forall c :: c in "あいうえお" + "かきくけこ" ==> KanaMap(c).Some?
  {
  }
  lemma HiraganaLinesMapped1()
    ensures forall c :: c in "さしすせそ" + "たちつてと" ==> KanaMap(c).Some?
  {
  }
  lemma HiraganaLinesMapped2()
    ensures forall c :: c in "なにぬねの" + "はひふへほ" ==> KanaMap(c).Some?
  {
  }
  lemma HiraganaLinesMapped3()
    ensures forall c :: c in "まみむめも" + "やゆよ" ==> KanaMap(c).Some?
  {
  }
  lemma HiraganaLinesMapped4()
    ensures forall c :: c in "らりるれろ" + "わをん" ==> KanaMap(c).Some?
  {
  }
  lemma HiraganaLinesMapped5()
    ensures forall c :: c in "がぎぐげご" + "ざじずぜぞ" ==> KanaMap(c).Some?
  {
  }
  lemma HiraganaLinesMapped6()
    ensures forall c :: c in "だぢづでど" + "ばびぶべぼ" ==> KanaMap(c).Some?
  {
  }
  lemma HiraganaLinesMapped7()
    ensures forall c :: c in "ぱぴぷぺぽ" + "ぁぃぅぇぉ" ==> KanaMap(c).Some?
  {
  }
  lemma HiraganaLinesMapped8()
    ensures forall c :: c in "ゃゅょっ" ==> KanaMap(c).Some?
  {
  }
  lemma KatakanaLinesMapped0()
    ensures forall c :: c in "アイウエオ" + "カキクケコ" ==> KanaMap(c).Some?
  {
  }
  lemma KatakanaLinesMapped1()
    ensures forall c :: c in "サシスセソ" + "タチツテト" ==> KanaMap(c).Some?
  {
  }
  lemma KatakanaLinesMapped2()
    ensures forall c :: c in "ナニヌネノ" + "ハヒフヘホ" ==> KanaMap(c).Some?
  {
  }
  lemma KatakanaLinesMapped3()
    ensures forall c :: c in "マミムメモ" + "ヤユヨ" ==> KanaMap(c).Some?
  {
  }
  lemma KatakanaLinesMapped4()
    ensures forall c :: c in "ラリルレロ" + "ワヰヱヲン" ==> KanaMap(c).Some?
  {
  }
  lemma KatakanaLinesMapped5()
    ensures forall c :: c in "ガギグゲゴ" + "ザジズゼゾ" ==> KanaMap(c).Some?
  {
  }
  lemma KatakanaLinesMapped6()
    ensures forall c :: c in "ダヂヅデド" + "バビブベボ" ==> KanaMap(c).Some?
  {
  }
  lemma KatakanaLinesMapped7()
    ensures forall c :: c in "パピプペポ" ==> KanaMap(c).Some?
  {
  }

  /** The lookup is total over both pools: every character a word can be made
      of has an entry in the table. */
  lemma PoolsMapped()
    ensures forall c :: c in HiraganaChars ==> KanaMap(c).Some?
    ensures forall c :: c in KatakanaChars ==> KanaMap(c).Some?
  {
    HiraganaLinesMapped0();
    HiraganaLinesMapped1();
    HiraganaLinesMapped2();
    HiraganaLinesMapped3();
    HiraganaLinesMapped4();
    HiraganaLinesMapped5();
    HiraganaLinesMapped6();
    HiraganaLinesMapped7();
    HiraganaLinesMapped8();
    KatakanaLinesMapped0();
    KatakanaLinesMapped1();
    KatakanaLinesMapped2();
    KatakanaLinesMapped3();
    KatakanaLinesMapped4();
    KatakanaLinesMapped5();
    KatakanaLinesMapped6();
    KatakanaLinesMapped7();
  }

  /** The romanization of every table entry is non-empty and consists of
      ASCII lowercase letters only. */
  lemma KanaMapValuesAreRomaji(c: char)
    requires KanaMap(c).Some?
    ensures |KanaMap(c).value| > 0
    ensures forall i :: 0 <= i < |KanaMap(c).value| ==> 'a' <= KanaMap(c).value[i] <= 'z'
  {
    LowerAsciiAt(KanaMap(c).value);
  }

  /** The table is deliberately many-to-one: じ and ぢ share "ji". */
  lemma JiCollision()
    ensures KanaMap('じ') == KanaMap('ぢ') && Romanize('じ') == "ji"
  {
  }

  /** を and お share "o". */
  lemma OCollision()
    ensures KanaMap('を') == KanaMap('お') && Romanize('を') == "o"
  {
  }

  /** The archaic ヰ reads "i". */
  lemma WiReadsI()
    ensures Romanize('ヰ') == "i"
  {
  }

  /** Small tsu is romanized on its own, as "tsu"; there is no gemination rule. */
  lemma SmallTsuReadsTsu()
    ensures Romanize('っ') == "tsu"
  {
  }

  /** Worked answers: the empty word, two plain characters, and the
      three-letter "shi". */
  lemma ToRomajiExamples()
    ensures ToRomaji("") == ""
    ensures ToRomaji("あい") == "ai"
    ensures ToRomaji("し") == "shi"
  {
  }

  /** A character outside the table, such as a Latin letter, is dropped from
      the answer key. */
  lemma UnknownCharacterDropped()
    ensures ToRomaji("xし") == "shi"
  {
    assert Romanize('x') == "";
    TransliterateSingle(Romanize, 'し');
    UnknownContributesNothing(Romanize, "", 'x', "し");
    assert "" + ['x'] + "し" == "xし";
    assert "" + "し" == "し";
  }

  /** Every character that is not a kana, such as an ASCII letter or a digit,
      is dropped from the answer key wherever it stands. */
  lemma NonKanaDropped(a: string, c: char, b: string)
    requires !IsKana(c)
    ensures ToRomaji(a + [c] + b) == ToRomaji(a + b)
  {
    UnknownContributesNothing(Romanize, a, c, b);
  }

  /** The page's pool for a kana mode (static/main.js:13). It is never empty,
      and the table knows every one of its characters. */
  function PagePool(f: Family): (r: string)
    ensures |r| > 0
    ensures forall c :: c in r ==> KanaMap(c).Some?
  {
    PoolsMapped();
    assert HiraganaChars[0] in HiraganaChars;
    Pool(f, HiraganaChars, KatakanaChars)
  }

  /** Every character a word over a page pool can contain is in the table, so
      its answer key is a lowercase ASCII string with at least one letter per kana. */
  lemma PoolWordsRomanize(f: Family, w: string)
    requires IsWordOver(PagePool(f), w)
    ensures IsLowerAscii(ToRomaji(w)) && |w| <= |ToRomaji(w)|
  {
  }

  /** In particular a generated word never meets a character missing from the
      table, whatever the mode. */
  lemma GeneratedWordsRomanize(f: Family, rng: nat -> nat)
    ensures var w := NewWord(PagePool(f), rng);
      IsLowerAscii(ToRomaji(w)) && |w| <= |ToRomaji(w)|
  {
  }
}
