/** The terminal front-end (main.go): the Bubble Tea model and its key
    transitions. The `constants` package, which holds the Go tables, is not
    part of this model; its pools and map are parameters. */
module TerminalQuiz {
  import opened Wrappers
  import opened Kana
  import opened Transliteration
  import opened WordGen

  /** `constants.HiraganaChars`, `constants.KatakanaChars` and `constants.KanaMap`. */
  datatype Tables = Tables(hiraganaChars: seq<string>, katakanaChars: seq<string>, kanaMap: map<string, string>)

  /** Both pools are non-empty, as `rand.Intn` needs in `newWord`. */
  predicate CanDraw(t: Tables) {
    |t.hiraganaChars| > 0 && |t.katakanaChars| > 0
  }

  /** Every value of the map is lowercase ASCII. */
  predicate LowercaseValues(t: Tables) {
    forall k :: k in t.kanaMap ==> IsLowerAscii(t.kanaMap[k])
  }

  /** The contract the browser's literal table meets (shown for the lifted
      browser table in `TableAgreement`): drawable pools, a map entry for every
      pool character, and only romaji as values. */
  predicate WellFormed(t: Tables) {
    && CanDraw(t)
    && (forall k :: k in t.hiraganaChars ==> k in t.kanaMap)
    && (forall k :: k in t.katakanaChars ==> k in t.kanaMap)
    && (forall k :: k in t.kanaMap ==> |t.kanaMap[k]| > 0)
    && LowercaseValues(t)
  }

  /** The pool `newWord` draws from for a mode. */
  function WordPool(t: Tables, f: Family): seq<string> {
    Pool(f, t.hiraganaChars, t.katakanaChars)
  }

  /** `constants.KanaMap[r]`: the zero value "" for a missing key. With
      well-formed tables the result is lowercase ASCII, and empty only for a
      key the map does not have. */
  function Lookup(t: Tables, k: string): (r: string)
    ensures k !in t.kanaMap ==> r == ""
    ensures LowercaseValues(t) ==> IsLowerAscii(r)
    ensures WellFormed(t) ==> (r == "" <==> k !in t.kanaMap)
  {
    if k in t.kanaMap then t.kanaMap[k] else ""
  }

  /** `toRomaji` (main.go:242-248). With well-formed tables the answer key is
      lowercase ASCII, with at least one letter per character when every
      character has a map entry. */
  function ToRomaji(t: Tables, word: seq<string>): (r: string)
    ensures |word| == 0 ==> r == ""
    ensures LowercaseValues(t) ==> IsLowerAscii(r)
    ensures WellFormed(t) && (forall i :: 0 <= i < |word| ==> word[i] in t.kanaMap) ==> |word| <= |r|
  {
    Transliterate(k => Lookup(t, k), word)
  }

  /** The status line: empty until the first answer, then the verdict on the last one. */
  datatype Status = NoStatus | Correct | Incorrect(answer: string)

  /** `model` without its widget: the text input is reduced to its value. */
  datatype Quiz = Quiz(input: string, currentWord: seq<string>, status: Status, points: nat, kanaType: Family)

  /** A Bubble Tea message: a key, named as `msg.String()` names it, or anything else. */
  datatype Msg = KeyMsg(key: string) | OtherMsg

  /** The command `Update` hands back to the runtime; `InputCmd` is whatever the
      text input widget asks for. */
  datatype Cmd = NoCmd | Quit | InputCmd

  /** The current word belongs to the pool of the current mode. */
  predicate Consistent(t: Tables, m: Quiz) {
    IsWordOver(WordPool(t, m.kanaType), m.currentWord)
  }

  /** The mode a key selects, if it is one of the mode keys. */
  function ModeKey(key: string): (f: Option<Family>)
    ensures f.Some? <==> key in {"ctrl+h", "ctrl+k", "ctrl+b"}
    ensures f == Some(Hiragana) <==> key == "ctrl+h"
    ensures f == Some(Katakana) <==> key == "ctrl+k"
    ensures f == Some(Both) <==> key == "ctrl+b"
  {
    if key == "ctrl+h" then Some(Hiragana)
    else if key == "ctrl+k" then Some(Katakana)
    else if key == "ctrl+b" then Some(Both)
    else None
  }

  /** `initialModel` (main.go:116-128): a first word from the chosen mode and no points. */
  function InitialModel(t: Tables, f: Family, rng: nat -> nat): (m: Quiz)
    requires CanDraw(t)
    ensures Consistent(t, m)
    ensures m.kanaType == f && m.points == 0 && m.status == NoStatus && m.input == ""
  {
    Quiz("", NewWord(WordPool(t, f), rng), NoStatus, 0, f)
  }

  /** The answer is right when the lowercased input equals the word's romaji. */
  predicate Answered(t: Tables, m: Quiz) {
    ToLowerAscii(m.input) == ToRomaji(t, m.currentWord)
  }

  /** `model.Update` (main.go:135-187). `typing` is the text input widget's
      handling of a key it receives; `rng` feeds any `newWord` call. */
  function Update(t: Tables, m: Quiz, msg: Msg, typing: (string, string) -> string, rng: nat -> nat): (r: (Quiz, Cmd))
    requires CanDraw(t)
    // scoring: one point exactly for a right answer on enter, so points never fall
    ensures r.0.points == m.points || r.0.points == m.points + 1
    ensures r.0.points == m.points + 1 <==> msg == KeyMsg("enter") && Answered(t, m)
    // enter: verdict, cleared input, same mode, a fresh word from that mode's pool
    ensures msg == KeyMsg("enter") ==>
      && r.0.status == (if Answered(t, m) then Correct else Incorrect(ToRomaji(t, m.currentWord)))
      && r.0.input == "" && r.0.kanaType == m.kanaType
      && r.0.currentWord == NewWord(WordPool(t, m.kanaType), rng)
      && r.1 == NoCmd
    // mode keys: idempotent in the current mode, otherwise switch and redraw only
    ensures msg.KeyMsg? && ModeKey(msg.key).Some? && ModeKey(msg.key).value == m.kanaType ==> r == (m, NoCmd)
    ensures msg.KeyMsg? && ModeKey(msg.key).Some? && ModeKey(msg.key).value != m.kanaType ==>
      && r.0 == m.(kanaType := ModeKey(msg.key).value, currentWord := NewWord(WordPool(t, ModeKey(msg.key).value), rng))
      && r.1 == NoCmd
    // quitting, typing and other messages leave mode, points, word and status alone
    ensures msg == KeyMsg("esc") || msg == KeyMsg("ctrl+c") ==> r == (m, Quit)
    ensures msg == OtherMsg ==> r == (m, NoCmd)
    ensures msg.KeyMsg? && msg.key !in {"esc", "ctrl+c", "ctrl+h", "ctrl+k", "ctrl+b", "enter"} ==>
      r == (m.(input := typing(m.input, msg.key)), InputCmd)
    // the current word always matches the current mode
    ensures Consistent(t, m) ==> Consistent(t, r.0)
  {
    match msg
    case OtherMsg => (m, NoCmd)
    case KeyMsg(key) =>
      if key == "esc" || key == "ctrl+c" then (m, Quit)
      else if ModeKey(key).Some? then
        var f := ModeKey(key).value;
        if m.kanaType == f then (m, NoCmd)
        else (m.(kanaType := f, currentWord := NewWord(WordPool(t, f), rng)), NoCmd)
      else if key == "enter" then
        var correctAns := ToRomaji(t, m.currentWord);
        var right := ToLowerAscii(m.input) == correctAns;
        var m' := m.(status := if right then Correct else Incorrect(correctAns),
                     points := if right then m.points + 1 else m.points,
                     input := "",
                     currentWord := NewWord(WordPool(t, m.kanaType), rng));
        (m', NoCmd)
      else (m.(input := typing(m.input, key)), InputCmd)
  }

  /** The model after the runtime feeds it `msgs` in order, stopping at the
      first `Quit`; step `i` draws from `rngs(i)`. */
  function Run(t: Tables, m: Quiz, msgs: seq<Msg>, typing: (string, string) -> string, rngs: nat -> nat -> nat): (r: Quiz)
    requires CanDraw(t)
    ensures m.points <= r.points <= m.points + |msgs|
    ensures Consistent(t, m) ==> Consistent(t, r)
    decreases |msgs|
  {
    if |msgs| == 0 then m
    else
      var step := Update(t, m, msgs[0], typing, rngs(0));
      if step.1 == Quit then step.0
      else Run(t, step.0, msgs[1..], typing, k => rngs(k + 1))
  }

  /** When the map's values are lowercase, so is every answer key, and typing
      it in any mix of ASCII case always earns the point. Pool coverage is not
      needed: a missing key contributes "", which is lowercase too. */
  lemma TypingTheRomajiScores(t: Tables, m: Quiz, typing: (string, string) -> string, rng: nat -> nat)
    requires CanDraw(t) && LowercaseValues(t)
    requires ToLowerAscii(m.input) == ToLowerAscii(ToRomaji(t, m.currentWord))
    ensures Update(t, m, KeyMsg("enter"), typing, rng).0.points == m.points + 1
  {
  }
}
