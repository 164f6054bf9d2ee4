/** The browser front-end (static/main.js): word generation for the page's
    mode and the Enter-key handler. Reads and writes of page elements are
    reduced to the fields of `Page`. */
module WebQuiz {
  import opened Kana
  import opened Transliteration
  import opened WordGen
  import opened KanaTable

  /** The pool choice at static/main.js:13: any `kanaType` other than
      "hiragana" or "katakana" selects both scripts. */
  function PageFamily(kanaType: string): (f: Family)
    ensures f == Hiragana <==> kanaType == "hiragana"
    ensures f == Katakana <==> kanaType == "katakana"
  {
    if kanaType == "hiragana" then Hiragana
    else if kanaType == "katakana" then Katakana
    else Both
  }

  /** The status element's text: empty, the success message, or the correction
      naming the word and its romaji. */
  datatype PageStatus = Blank | Correct | Incorrect(word: string, answer: string)

  /** The page state: the `currentWord` and `score` globals, the input field's
      value and the status text. */
  datatype Page = Page(currentWord: string, score: nat, input: string, status: PageStatus)

  /** The shown word belongs to the pool of the page's mode. */
  predicate Consistent(kanaType: string, p: Page) {
    IsWordOver(PagePool(PageFamily(kanaType)), p.currentWord)
  }

  /** `generateWord` (static/main.js:9-25): a fresh word from the mode's pool,
      an emptied input field and a blank status. */
  function GenerateWord(kanaType: string, p: Page, rng: nat -> nat): (r: Page)
    ensures Consistent(kanaType, r)
    ensures r.score == p.score && r.input == "" && r.status == Blank
  {
    p.(currentWord := NewWord(PagePool(PageFamily(kanaType)), rng), input := "", status := Blank)
  }

  /** The page as loaded: no score and a first word (static/main.js:6-7, 86). */
  function InitialPage(kanaType: string, rng: nat -> nat): (p: Page)
    ensures Consistent(kanaType, p) && p.score == 0 && p.input == "" && p.status == Blank
  {
    GenerateWord(kanaType, Page("", 0, "", Blank), rng)
  }

  /** The input is right when its lowercase form equals the word's romaji. */
  predicate Answered(p: Page) {
    ToLowerAscii(p.input) == ToRomaji(p.currentWord)
  }

  /** `handleInput` (static/main.js:27-41), the keydown handler. A right answer
      scores and moves on to a new word; the status set just before is cleared
      again by `generateWord`. A wrong answer only shows the correction: the
      word and the typed input stay, so the same word can be tried again. */
  function HandleInput(kanaType: string, p: Page, key: string, rng: nat -> nat): (r: Page)
    ensures key != "Enter" ==> r == p
    ensures r.score == p.score + 1 <==> key == "Enter" && Answered(p)
    ensures r.score == p.score || r.score == p.score + 1
    ensures key == "Enter" && Answered(p) ==> r.input == "" && r.status == Blank && Consistent(kanaType, r)
    ensures key == "Enter" && !Answered(p) ==>
      r == p.(status := Incorrect(p.currentWord, ToRomaji(p.currentWord)))
    ensures Consistent(kanaType, p) ==> Consistent(kanaType, r)
  {
    if key == "Enter" then
      var input := ToLowerAscii(p.input);
      var romaji := ToRomaji(p.currentWord);
      if input == romaji then
        GenerateWord(kanaType, p.(status := Correct, score := p.score + 1), rng)
      else
        p.(status := Incorrect(p.currentWord, romaji))
    else p
  }

  /** A keydown: the key pressed and the input field's value at that moment. */
  datatype KeyEvent = KeyEvent(key: string, fieldValue: string)

  /** The page after a sequence of keydowns; event `i` draws from `rngs(i)`. */
  function RunEvents(kanaType: string, p: Page, events: seq<KeyEvent>, rngs: nat -> nat -> nat): (r: Page)
    ensures p.score <= r.score <= p.score + |events|
    ensures Consistent(kanaType, p) ==> Consistent(kanaType, r)
    decreases |events|
  {
    if |events| == 0 then p
    else
      var next := HandleInput(kanaType, p.(input := events[0].fieldValue), events[0].key, rngs(0));
      RunEvents(kanaType, next, events[1..], k => rngs(k + 1))
  }

  /** Typing the romaji of the shown word, in any mix of ASCII case, and
      pressing Enter always scores. */
  lemma TypingTheRomajiScores(kanaType: string, p: Page, answer: string, rng: nat -> nat)
    requires Consistent(kanaType, p)
    ensures ToLowerAscii(answer) == ToLowerAscii(ToRomaji(p.currentWord)) ==>
      HandleInput(kanaType, p.(input := answer), "Enter", rng).score == p.score + 1
  {
  }

  /** After a wrong answer the word is still on screen, so entering its romaji
      next scores for the very same word. */
  lemma RetryAfterWrongAnswer(kanaType: string, p: Page, rng1: nat -> nat, rng2: nat -> nat)
    requires Consistent(kanaType, p)
    ensures !Answered(p) ==>
      var wrong := HandleInput(kanaType, p, "Enter", rng1);
      && wrong.currentWord == p.currentWord
      && wrong.score == p.score
      && HandleInput(kanaType, wrong.(input := ToRomaji(p.currentWord)), "Enter", rng2).score == p.score + 1
  {
  }
}
