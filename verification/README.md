# Kana quiz — a Dafny model

The program is a kana-to-romaji flashcard quiz with two front-ends. It shows a
random word of one to five Hiragana and/or Katakana characters. The player
types the word's romanized reading, and the quiz scores the answer.

- The terminal front-end (`main.go`) is a Bubble Tea program. It has three
  modes (Hiragana, Katakana, Both), switched with ctrl+h, ctrl+k and ctrl+b.
  After every answer, right or wrong, it draws a new word.
- The browser front-end (`static/main.js`) is a single page. Its mode is fixed
  by the page. After a wrong answer it keeps the word on screen, so the player
  can try again.

This project models the pure logic of both front-ends and proves properties
of it:

- `kana.dfy` (module `Kana`): the three modes and the pool each one selects.
  Both is the Hiragana list followed by the Katakana list.
- `transliteration.dfy` (module `Transliteration`): lowercase ASCII romaji.
  It has the ASCII lowercasing applied to answers and the per-character
  transliteration fold shared by both front-ends. A character the table does
  not know contributes the empty string.
- `word_gen.dfy` (module `WordGen`): word generation. Randomness is an
  explicit stream of raw draws. Draw 0 picks the length and draw `i + 1` picks
  character `i`.
- `kana_table.dfy` (module `KanaTable`): the browser's two pool strings and
  its 153-entry `kanaMap`, copied character for character from the source. It
  proves the table lemmas: every pool character has an entry, and the table
  maps several kana to the same romaji.
- `terminal_quiz.dfy` (module `TerminalQuiz`): `model.Update` as a pure
  transition function, plus runs of several messages. The Go tables
  (`constants.HiraganaChars`, `constants.KatakanaChars`, `constants.KanaMap`)
  come from the `constants` package. That package is not part of this model,
  so its tables are parameters.
- `cli.dfy` (module `Cli`): the argument loop of `main`, and the template
  choice of `indexHandler`.
- `web_quiz.dfy` (module `WebQuiz`): `generateWord` and `handleInput` as
  transitions of a page state.
- `table_agreement.dfy` (module `TableAgreement`): connects the two
  front-ends. The browser's pools and table are lifted to the terminal
  model's `Tables`, with one-character strings as keys. The module proves
  that the lifted tables meet the terminal model's table contract
  `TerminalQuiz.WellFormed`. It also proves that both `toRomaji` functions
  then give every word the same answer key.
- `wrappers.dfy` (module `Wrappers`): an `Option` type.

Where the two front-ends differ, each model follows its own source:

- On a wrong answer, `Update` draws a fresh word and clears the input.
  `handleInput` keeps both the word and the input.
- In the browser, a right answer sets the status to the success message.
  `generateWord` is then called at once and clears it. The page therefore ends
  with a blank status, and `WebQuiz.HandleInput` says so.
- A lookup can miss the table. Here the code does not fail as a
  transliteration error would: the Go map's zero value and the `|| ''`
  fallback in JavaScript both make the character contribute nothing.
  `Transliterate` models that code.

The browser's pool strings are written in Dafny as a concatenation of pieces.
The pieces follow the lines of the table, and the resulting string is the same
as the single literal in the source. The `kanaMap` object is looked up one
block of source lines at a time. The blocks' keys are disjoint, so this gives
the same result as one lookup in the whole object.

## Model

| member | source | states |
|---|---|---|
| Kana.Pool | main.go:223-233 | Hiragana and Katakana select their own list. Both is Hiragana followed by Katakana: its length is the sum of the two lengths, and a character is in it iff it is in one of the two lists. |
| Transliteration.ToLowerAscii | main.go:167 | The lowercased answer has the same length and contains no uppercase ASCII letter. Each character is kept or is the lowercase form of an ASCII capital. A string that is already lowercase is unchanged. |
| Transliteration.Transliterate | main.go:242-248 | The empty word gives "". The answer key is lowercase ASCII when every character's value is. It has at least one letter per character when no character maps to "". |
| Transliteration.TransliterateAppend | main.go:242-248 | The romaji of a concatenation is the concatenation of the romaji: the fold is a homomorphism. |
| Transliteration.UnknownContributesNothing | static/main.js:81 | A character whose lookup gives "" can be removed from any word without changing its romaji. |
| Transliteration.LowerAsciiAppend | static/main.js:79-83 | A concatenation is lowercase ASCII iff both parts are, so per-character lowercase values give a lowercase answer. |
| WordGen.Intn | main.go:235 | A draw reduced to `[0, n)` is below `n`, and every value below `n` is reachable. |
| WordGen.NewWord | main.go:235-239 | The word has length `Intn(5, draw0) + 1`, which lies in [1, 5], and every character is taken from the pool. |
| WordGen.NewWordReachesEveryWord | main.go:220-240 | Every word of length 1 to 5 over the pool, repeats included, is produced by some random source. So the generator's outputs are exactly those words. |
| KanaTable.KanaMap | static/main.js:44-77 | Only kana (Unicode Hiragana U+3041 to U+3096, Katakana U+30A1 to U+30FA) are keys. Every value is a non-empty lowercase ASCII string. |
| KanaTable.Romanize | static/main.js:81 | A character's contribution is always lowercase ASCII. It is empty iff the table has no entry for the character, and in particular for every non-kana character. |
| KanaTable.ToRomaji | static/main.js:79-83 | The answer key of any word is lowercase ASCII. When every character has an entry, it has at least one letter per character. |
| KanaTable.NonKanaDropped | static/main.js:81 | A character that is not a kana, wherever it stands in a word, is dropped without changing the answer key. |
| KanaTable.PoolsMapped | static/main.js:10-77 | Every character of the Hiragana pool and of the Katakana pool has an entry in `kanaMap`. |
| KanaTable.PagePool | static/main.js:13 | Every mode's pool is non-empty, and every one of its characters has a table entry. |
| KanaTable.KanaMapValuesAreRomaji | static/main.js:45-76 | Every value in the table is non-empty, and each of its characters is an ASCII letter from 'a' to 'z'. |
| KanaTable.JiCollision | static/main.js:56-57 | じ and ぢ are distinct keys with the same value, "ji". |
| KanaTable.OCollision | static/main.js:45-54 | を and お have the same value, "o". |
| KanaTable.WiReadsI | static/main.js:71 | ヰ is romanized as "i". |
| KanaTable.SmallTsuReadsTsu | static/main.js:61 | Small っ is romanized on its own as "tsu", with no gemination rule. |
| KanaTable.ToRomajiExamples | static/main.js:79-83 | "" gives "", "あい" gives "ai" and "し" gives "shi". |
| KanaTable.UnknownCharacterDropped | static/main.js:81 | A character outside the table ('x' in "xし") is dropped, so the answer is "shi". |
| KanaTable.PoolWordsRomanize | static/main.js:10-83 | A word over any page pool romanizes to lowercase ASCII with at least as many letters as kana. |
| KanaTable.GeneratedWordsRomanize | static/main.js:13-19 | A word generated in any mode never reaches the `|| ''` fallback, so its romaji is lowercase ASCII and at least as long as the word. |
| TerminalQuiz.Lookup | main.go:245 | A key missing from the map gives "". When the map's values are lowercase, so is every lookup. With well-formed tables, a lookup is empty iff the key is missing. |
| TerminalQuiz.ToRomaji | main.go:242-248 | The empty word gives "". When the map's values are lowercase, so is the answer key. With well-formed tables and every character in the map, it has at least one letter per character. |
| TerminalQuiz.ModeKey | main.go:144-163 | Exactly ctrl+h, ctrl+k and ctrl+b are mode keys. They select Hiragana, Katakana and Both respectively. |
| TerminalQuiz.InitialModel | main.go:116-128 | The first model has the chosen mode, 0 points, an empty status and input, and a word over that mode's pool. |
| TerminalQuiz.Update | main.go:135-187 | Points rise by exactly 1 iff the key is enter and the lowercased input equals the word's romaji. Otherwise they stay, so they never fall. Enter sets the verdict, clears the input, keeps the mode and draws a new word from that mode's pool, whether the answer was right or wrong. A mode key for the current mode returns the model unchanged. Any other mode key sets the mode and draws a word from that mode's pool only, leaving points, status and input alone. esc and ctrl+c quit without changing the model. Other keys only edit the input, and non-key messages change nothing. The current word always belongs to the current mode's pool. |
| TerminalQuiz.Run | main.go:135-187 | After any sequence of messages, up to the first quit, points have not fallen and have risen by at most the number of messages. The word still belongs to the mode's pool. |
| TerminalQuiz.TypingTheRomajiScores | main.go:165-170 | When the map's values are lowercase ASCII, typing the word's romaji in any ASCII case and pressing enter earns the point. Pool coverage is not needed, because a missing key contributes "". |
| Cli.ParseArgs | main.go:29-54 | The quiz starts iff every argument is `--kata`, `--hira` or `serve`. The usage is shown iff the first other argument is `--help`. Otherwise that first other argument is reported as unknown. Nothing is started in either case. When the quiz starts, it serves iff `serve` was given. With no mode flag the mode is Both; otherwise it is the mode of the last mode flag. |
| Cli.TemplateFor | main.go:83-91 | Katakana and Hiragana get their own templates, and Both gets `templates/index.html`; the three files are distinct. |
| WebQuiz.PageFamily | static/main.js:13 | "hiragana" selects Hiragana and "katakana" selects Katakana. Every other value of `kanaType` selects Both. |
| WebQuiz.GenerateWord | static/main.js:9-25 | The new word belongs to the page mode's pool. The input is emptied, the status is blank and the score is kept. |
| WebQuiz.InitialPage | static/main.js:6-25 | The loaded page has score 0, an empty input and status, and a word over the mode's pool. |
| WebQuiz.HandleInput | static/main.js:27-41 | Keys other than Enter change nothing. The score rises by exactly 1 iff the key is Enter and the lowercased input equals the word's romaji. A right answer moves to a fresh word from the pool with an empty input. A wrong answer keeps the word, the score and the input, and shows the correction. The word always belongs to the mode's pool. |
| WebQuiz.RunEvents | static/main.js:27-41 | After any sequence of keydowns, the score has not fallen and has risen by at most the number of events. The word still belongs to the mode's pool. |
| WebQuiz.TypingTheRomajiScores | static/main.js:29-36 | On any page reachable from the mode, an answer whose lowercase form equals the shown word's romaji earns the point when Enter is pressed, whatever its ASCII case. |
| TableAgreement.LiftedWellFormed | main.go:220-248 | Non-empty pools, all of whose characters have an entry in the browser's table, lift to tables that meet `TerminalQuiz.WellFormed`. |
| TableAgreement.BrowserTablesWellFormed | static/main.js:10-77 | The browser's own pools and table, lifted, meet `TerminalQuiz.WellFormed`: drawable pools, an entry for every pool character, and non-empty lowercase values. |
| TableAgreement.BrowserPoolsAgree | main.go:223-233 | Given the browser's tables, the terminal front-end draws from the same pool as the page in every mode. |
| TableAgreement.LiftedAnswersAgree | main.go:242-248 | With tables lifted from any pools, the Go `toRomaji` gives every word over those pools the same answer key as the browser's `toRomaji`. |
| TableAgreement.BrowserAnswersAgree | static/main.js:79-83 | Given the browser's tables, both front-ends' `toRomaji` give every word over the pools the same answer key. |
| WebQuiz.RetryAfterWrongAnswer | static/main.js:37-39 | When the input is wrong, pressing Enter leaves the same word shown at the same score, and entering that word's romaji next scores. |

## Left out

- HTTP serving is not modelled because it is I/O: routing, the file server, template parsing and execution, and `embed` (main.go:66-106). The template choice alone is modelled as `Cli.TemplateFor`.
- Terminal rendering is not modelled because it is presentation: `View`, termenv colours, lipgloss styles and the Bubble Tea runtime. `Init` is not modelled either: it assigns a word on a value receiver, so the model never sees it, and it only returns the cursor blink command.
- The text input widget is reduced to its value. Its handling of an ordinary key is the parameter `typing` of `TerminalQuiz.Update`, and the command it returns is the opaque `InputCmd`.
- DOM reads and writes in static/main.js are reduced to the fields of `WebQuiz.Page`: element lookups, `textContent`, the score element and the listener registration. The page template that defines the global `kanaType` is not part of this model, so `kanaType` is a parameter.
- Randomness is an explicit stream `rng: nat -> nat`, and `WordGen.Intn` reduces a raw draw modulo `n`. The quality and distribution of `rand.Intn` and `Math.random` are not modelled.
- `WordGen.NewWord` requires a non-empty pool, because `rand.Intn(0)` panics in Go. The browser's pools are non-empty literals, so this never arises there.
- Transliteration.ToLowerAscii: lowercases ASCII letters only. `strings.ToLower` and `toLowerCase` also fold non-ASCII letters. One such fold maps the Kelvin sign to "k", so the source may accept some non-ASCII input that this model rejects.
- The Go kana type is a string compared with `constants.Hiragana`, `constants.Katakana` and `constants.Both`. `main` only ever sets one of these three values, so the model uses the enumeration `Kana.Family`.
- The Go code builds Both with `constants.HiraganaChars[:0]` followed by two appends (main.go:229-231). The first append copies the Hiragana list onto itself, so the pool drawn from is Hiragana followed by Katakana whatever the capacity, and the model uses that plain concatenation. When the Hiragana slice has spare capacity, the second append writes into its backing array past its length. That matters only if another slice shares that region of the array, such as `constants.KatakanaChars`. The `constants` package is not part of this model, so such aliasing is not modelled.
- Points and the score are unbounded `nat`s. Two limits are not modelled: Go's `int` overflow after 2^63 right answers, and the browser's `score` (static/main.js:7, 34). That score is a JavaScript Number, so `score++` stops changing it past 2^53.
- Printing the usage text and the "Unknown option" message is I/O. `Cli.ParseArgs` returns which of them would be printed.
