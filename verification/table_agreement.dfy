/** The browser's literal table seen through the terminal front-end's
    representation, where a kana is a one-character string and the table is a
    Go map. Lifted this way it meets the contract the terminal model states
    for its tables, and both front-ends give every word the same answer key. */
module TableAgreement {
  import opened Kana
  import opened Transliteration
  import opened KanaTable
  import TerminalQuiz

  /** A string as the sequence of its one-character strings. */
  function Lift(w: string): (r: seq<string>)
    ensures |r| == |w|
    ensures forall i :: 0 <= i < |r| ==> r[i] == [w[i]]
  {
    seq(|w|, i requires 0 <= i < |w| => [w[i]])
  }

  /** The `kanaMap` entries of the characters of `keys`, keyed by
      one-character strings. */
  function LiftMap(keys: string): map<string, string> {
    map c | c in keys :: [c] := Romanize(c)
  }

  /** Terminal-side tables made from two pool strings and the browser's table. */
  function LiftTables(hiragana: string, katakana: string): TerminalQuiz.Tables {
    TerminalQuiz.Tables(Lift(hiragana), Lift(katakana), LiftMap(hiragana + katakana))
  }

  /** The browser's pools and table as terminal-side tables. */
  function BrowserTables(): TerminalQuiz.Tables {
    LiftTables(HiraganaChars, KatakanaChars)
  }

  /** Non-empty pools whose characters all have a table entry lift to tables
      that meet the terminal model's table contract. */
  lemma LiftedWellFormed(hiragana: string, katakana: string)
    requires |hiragana| > 0 && |katakana| > 0
    requires forall c :: c in hiragana ==> KanaMap(c).Some?
    requires forall c :: c in katakana ==> KanaMap(c).Some?
    ensures TerminalQuiz.WellFormed(LiftTables(hiragana, katakana))
  {
    var t := LiftTables(hiragana, katakana);
    forall k | k in t.kanaMap
      ensures |t.kanaMap[k]| > 0 && IsLowerAscii(t.kanaMap[k])
    {
      var c :| c in hiragana + katakana && k == [c];
      assert KanaMap(c).Some?;
    }
    forall k | k in t.hiraganaChars
      ensures k in t.kanaMap
    {
      var i :| 0 <= i < |t.hiraganaChars| && t.hiraganaChars[i] == k;
      assert hiragana[i] in hiragana + katakana;
    }
    forall k | k in t.katakanaChars
      ensures k in t.kanaMap
    {
      var i :| 0 <= i < |t.katakanaChars| && t.katakanaChars[i] == k;
      assert katakana[i] in hiragana + katakana;
    }
  }

  /** The browser's table meets the terminal model's table contract: both
      pools are non-empty, every pool character has an entry, and every value
      is non-empty lowercase ASCII. */
  lemma BrowserTablesWellFormed()
    ensures TerminalQuiz.WellFormed(BrowserTables())
  {
    PoolsMapped();
    assert HiraganaChars[0] in HiraganaChars;
    assert KatakanaChars[0] in KatakanaChars;
    LiftedWellFormed(HiraganaChars, KatakanaChars);
  }

  /** Lifting distributes over concatenation. */
  lemma LiftAppend(a: string, b: string)
    ensures Lift(a + b) == Lift(a) + Lift(b)
  {
    assert forall i :: 0 <= i < |a + b| ==> Lift(a + b)[i] == (Lift(a) + Lift(b))[i];
  }

  /** In every mode the terminal front-end, given the browser's tables, draws
      from the same pool as the page. */
  lemma BrowserPoolsAgree(f: Family)
    ensures TerminalQuiz.WordPool(BrowserTables(), f) == Lift(PagePool(f))
  {
    LiftAppend(HiraganaChars, KatakanaChars);
  }

  /** With tables lifted from any pools, the terminal front-end's `toRomaji`
      gives every word over those pools the answer key the page gives it. */
  lemma {:induction false} LiftedAnswersAgree(hiragana: string, katakana: string, w: string)
    requires forall i :: 0 <= i < |w| ==> w[i] in hiragana + katakana
    ensures TerminalQuiz.ToRomaji(LiftTables(hiragana, katakana), Lift(w)) == KanaTable.ToRomaji(w)
  {
    if |w| > 0 {
      var t := LiftTables(hiragana, katakana);
      assert Lift(w)[0] == [w[0]];
      assert Lift(w)[1..] == Lift(w[1..]);
      assert [w[0]] in t.kanaMap && t.kanaMap[[w[0]]] == Romanize(w[0]);
      LiftedAnswersAgree(hiragana, katakana, w[1..]);
    }
  }

  /** Given the browser's tables, the terminal front-end's `toRomaji`
      (main.go:242-248) gives every word over the pools the answer key the
      page's `toRomaji` (static/main.js:79-83) gives it. */
  lemma BrowserAnswersAgree(w: string)
    requires forall i :: 0 <= i < |w| ==> w[i] in HiraganaChars + KatakanaChars
    ensures TerminalQuiz.ToRomaji(BrowserTables(), Lift(w)) == KanaTable.ToRomaji(w)
  {
    LiftedAnswersAgree(HiraganaChars, KatakanaChars, w);
  }
}
