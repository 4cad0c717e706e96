# Wordl: a Dafny model of the game logic

Wordl is a Wordle clone written in TypeScript and React. The player has a
fixed number of tries to guess a secret word. After each guess, the letters
and the on-screen keyboard are coloured by how they relate to the secret word.

This project models the logic beneath the user interface and proves what it does:

- **Letter classifier** (`src/wordl.ts`). The ordered classification
  `LetterClass` (`Unevaluated < NotPresent < Misplaced < Located`).
  `evaluate` classifies one letter at one position of the secret word.
  `evaluateLetter` keeps the best classification a keyboard letter has earned
  in the guesses submitted so far. Module `Evaluator` (`evaluator.dfy`).
- **Word selector and validator** (`src/wordl.ts`).
  - `randomWord(length)` counts the words in the five frequency buckets
    `english/10` … `english/50`. It throws when none of them is a lower-case
    word of the requested length. Otherwise it rejection-samples: it draws an
    index into the buckets laid end to end and accepts the word there only
    if it is eligible. The accepted word is returned upper-cased.
  - `isWord` lower-cases its argument and looks it up in four dialect lists.
  - Module `Selector` (`selector.dfy`).
- **Guess-entry state machine** (`src/App.tsx`).
  - The game state is `tries` (guesses submitted) and `words` (the guesses,
    the last one possibly still being typed). The secret word is `goal`.
  - The key handlers `handleKey`, `handleBackspace`, `handleEnter` and the
    dispatcher `onKeyDown` update that state and answer with a toast.
  - Also modelled: the helpers `range` and `asColor`.
  - Module `App` (`app.dfy`). Scenarios taken from the component's tests are in
    module `AppScenarios`.
- The JavaScript string operations the code relies on are in module `JsString`
  (`js_string.dfy`): `toLowerCase`, `toUpperCase`, `split(' ')` and the
  relational `<` on strings. Module `Wrappers` (`wrappers.dfy`) gives the
  optional values that stand for `undefined` and `??`.

How the model takes the form of the code:

- Every `for`, `while` and `forEach` loop of the source is a Dafny method
  with a loop. Each such method is proved to compute a specification
  function: `Evaluate`, `EvaluateLetter`, `CountWords`, `WalkBuckets`,
  `RandomWord`, `IsWord` and `Range`. The `reduce` that counts a bucket's
  eligible words (`src/wordl.ts:36-38`) is the recursive function
  `CountEligible`, which `CountWords` calls once per bucket.
- The lemmas are about those specification functions.
- The React component is the class `App.Game`. Its fields are the props
  (`wordLength`, `numGuesses`, with their defaults), the secret word, the
  dictionary, `tries` and `words`. Each handler is a method that updates the
  fields in place. Each method is proved to take exactly one step of a pure
  transition function on the state (`KeyStep`, `BackspaceStep`, `EnterStep`,
  `KeyDownStep`).
- The invariants and the lemmas about whole key sequences (`Replay`) are
  stated about those transition functions.
- `PressKeys` delivers a sequence of key events to a `Game` object and is
  proved to follow `Replay`.

The model follows the code as written. In three places the code differs from
its own tests; in two more its behaviour is worth stating outright:

- **`evaluate`.** The scan for the letter overwrites the `Located` result that
  the position check set. Nothing ever sets `NotPresent`. So the function
  returns `Misplaced` when the letter occurs in the key and `Unevaluated`
  otherwise. The tests (`src/wordl.test.ts:93-98`) expect `Located` for
  B:0 in BRAVE and `NotPresent` for C:0. Both versions are modelled:
  `Evaluate` as written and `EvaluateFixed` as intended. The lemmas say
  exactly where they differ (see Findings).
- **`evaluateLetter`.** It splits each guess on `' '` rather than into
  characters, so an ordinary guess is a single token at index 0 and never
  matches a letter. The tests (`src/wordl.test.ts:132-178`) expect a per-character
  scan. Both versions are modelled (see Findings).
- **`handleKey`.** When there is no guess in progress, `handleKey` starts the
  new guess from `' '` rather than `''` (`src/App.tsx:159`). That is the case
  for every guess after the first, in ordinary play. The player sees the
  fifth letter of the second guess refused with "Word is long enough", and
  Enter then looks up `" SMIL"`, invisible leading space included.
  The guess only recovers once Backspace has erased that space
  (`ErasingTheSpaceRecovers`). The test at `src/App.test.tsx:162-178` types
  S, M, I, L, E and Enter after DREAM and expects SMILE to win with
  "Unbelievable"; `SecondGuessStartsWithSpace` shows that the code yields
  `" SMIL"` and refuses the E. Both versions are modelled: `KeyStep` as
  written and `KeyStepFixed` as intended (see Findings).
- **`handleBackspace`** (latent behaviour). It reads `.length` of
  `words[tries]` before its guard runs, so when there is no guess in progress
  it throws. No test reaches this, because the ⌫ button calls `handleEnter`.
  This is modelled as the `Crash` response with the state unchanged.
- **`isWord`** (code and tests agree). Its comment (`src/wordl.ts:61-63`)
  promises a lower-case dictionary word. The code lower-cases only the query,
  so a stored entry with a capital letter (`"John"`) can never match, and the
  test at `src/wordl.test.ts:33-35` expects exactly that.
  `CapitalisedEntryNeverMatches` states this.

## Model

| member | source | states |
|---|---|---|
| Evaluator.Rank | src/wordl.ts:3-8 | the contract bounds the rank below 4; the body gives each classification the numeric value of its place in the declaration (0 to 3), which is the order `r > result` compares |
| Evaluator.RankInjective | src/wordl.ts:3-8 | distinct classifications have distinct ranks, so comparing ranks is a total order on classifications |
| Evaluator.Max | src/wordl.ts:111 | `if (r > result) result = r` yields one of its two arguments, and one ranked at least as high as both |
| Evaluator.MaxAssociative | src/wordl.ts:111 | taking the better classification is associative and commutative, so neither the grouping nor the order in which the guesses are folded changes the result |
| Evaluator.MaxUnevaluated | src/wordl.ts:106 | `Unevaluated`, the starting value, is the neutral element of taking the better classification |
| Evaluator.Evaluate | src/wordl.ts:84-95 | the loop computes the as-written classification: `Misplaced` exactly when the letter occurs anywhere in the key, `Unevaluated` exactly when it does not, for every integer position |
| Evaluator.EvaluateFixed | src/wordl.test.ts:89-120 | the corrected classification: `Located` iff the key has the letter at that in-range position; `Misplaced` iff it does not, but the letter occurs elsewhere; `NotPresent` iff the letter does not occur |
| Evaluator.EvaluateVersionsAgreeIff | src/wordl.ts:84-95 | the code and the corrected version agree exactly when the letter occurs in the key but not at the given position |
| Evaluator.EvaluateBraveExamples | src/wordl.test.ts:93-119 | the tested cases, as written and corrected: B:0 and C:0 in BRAVE, I:4 in TEAM, J:-1 in APPLEJUICE, G:5 in GROGG, H:5 in SLEIGHT |
| Evaluator.EvaluateLetter | src/wordl.ts:104-116 | the nested loops return the best classification over every `' '`-separated token equal to the letter, at that token's index |
| Evaluator.EvaluateLetterFixed | src/wordl.test.ts:122-179 | the corrected loops return the best classification over every character position equal to the letter |
| Evaluator.NoAttemptsUnevaluated | src/wordl.ts:104-116 | with no attempts the result is `Unevaluated`, in both versions |
| Evaluator.TokensBestIsMaximum | src/wordl.ts:108-113 | within one attempt, the result ranks at least every matching token's classification and is either one of them or `Unevaluated` |
| Evaluator.BestIsMaximum | src/wordl.ts:104-116 | over all attempts, the result is the maximum: at least every earned classification, and equal to one of them unless it is `Unevaluated` |
| Evaluator.BestAppend | src/wordl.ts:107-114 | the result for two lists of attempts laid end to end is the better of the two results |
| Evaluator.BestMonotone | src/wordl.ts:107-114 | appending attempts never lowers the result |
| Evaluator.AsWrittenBest | src/wordl.ts:104-116 | as written, the result is `Misplaced` iff the letter occurs in the key and some attempt has a token equal to it; otherwise `Unevaluated` |
| Evaluator.WholeWordsNeverCount | src/wordl.ts:108 | as written, attempts without spaces, other than the bare letter, leave every letter `Unevaluated` |
| Evaluator.IntendedUnevaluatedIff | src/wordl.test.ts:122-179 | corrected, a letter is `Unevaluated` iff no attempt contains it |
| Evaluator.EvaluateLetterVersionsAgreeIff | src/wordl.ts:104-116 | on ordinary space-free attempts, the code and the corrected version agree iff the letter has not been guessed |
| Evaluator.EvaluateLetterCamelExamples | src/wordl.test.ts:132-148 | the tested cases with attempt LEVEE against CAMEL: E is `Unevaluated` as written and `Located` corrected; V is `Unevaluated` as written and `NotPresent` corrected; C is `Unevaluated` in both |
| JsString.LowerFixedIff | src/wordl.ts:37 | `word.toLowerCase() === word` iff the word holds no capital letter |
| JsString.LowerOfUpper | src/wordl.ts:70 | lower-casing ignores the case of the input |
| JsString.Split | src/wordl.ts:108 | `split(' ')` always yields at least one token |
| JsString.JoinSplit | src/wordl.ts:108 | joining the tokens of `split(' ')` with spaces gives back the string |
| JsString.SplitTokensSpaceFree | src/wordl.ts:108 | no token of `split(' ')` contains a space |
| JsString.SplitSpaceFree | src/wordl.ts:108 | a string without spaces splits into itself alone |
| Selector.BucketKeys | src/wordl.ts:34-35 | one key `d + '/' + f` for every dialect and frequency, dialect-major |
| Selector.SelectionKeys | src/wordl.ts:10-12 | the selection walks `english/10`, `english/20`, `english/35`, `english/40`, `english/50` in that order |
| Selector.Buckets | src/wordl.ts:34-35 | one bucket per selection key |
| Selector.Total | src/wordl.ts:35 | the summed bucket lengths are the length of the buckets laid end to end |
| Selector.CountEligible | src/wordl.ts:36-38 | a bucket's count of lower-case words of the requested length is 0 iff it holds no such word |
| Selector.PossibleZeroIff | src/wordl.ts:34-40 | the total count is 0 iff no word anywhere in the buckets is eligible |
| Selector.WalkPrefixResolves | src/wordl.ts:44-57 | after walking some buckets, either `choice` has been reduced by their total length with no hit, or it has gone negative and the hit is the word at index `choice` if eligible |
| Selector.DrawResolves | src/wordl.ts:43-56 | a draw in `[0, total)` resolves to the word at index `choice` of the buckets laid end to end, accepted iff it is eligible |
| Selector.Retry | src/wordl.ts:42-58 | the retry loop never reports the no-words error |
| Selector.CountWords | src/wordl.ts:32-39 | the nested loops compute the total number of words and the number of eligible words |
| Selector.WalkBuckets | src/wordl.ts:43-57 | one pass over the buckets computes the single-draw result |
| Selector.RandomWord | src/wordl.ts:25-60 | the method computes the selection: the error when nothing is eligible, else the first accepted draw upper-cased |
| Selector.RandomWordFailsIff | src/wordl.ts:40 | `randomWord` throws iff no word in the five buckets is lower-case with the requested length |
| Selector.RetryChoosesEligible | src/wordl.ts:42-59 | a chosen word is the upper-case form of an eligible word of the buckets |
| Selector.RetryStopsAtAcceptingDraw | src/wordl.ts:42-58 | once some draw lands on an eligible word, a word is chosen |
| Selector.RandomWordChoosesEligible | src/wordl.ts:25-60 | any returned word has exactly the requested length and is the upper-case form of an eligible dictionary word |
| Selector.IsWord | src/wordl.ts:67-75 | the loop returns true iff the lower-cased word is in one of the four dialect lists |
| Selector.IsWordIgnoresCase | src/wordl.ts:70 | a word and its upper-case form are accepted alike |
| Selector.CapitalisedEntryNeverMatches | src/wordl.ts:67-75 | `isWord` rejects a query when every entry equal to it ignoring case holds a capital letter |
| Selector.IsWordTestCases | src/wordl.test.ts:5-35 | with the tested `english` list: jesttest, HELLO, Your and frOM are accepted; word and John are not |
| Selector.SelectsOnlyCandidate | src/wordl.ts:42-59 | when one word is the only eligible one, the result is its upper-case form (as soon as a draw hits it) or the loop is still drawing |
| Selector.TestBuckets | src/wordl.test.ts:61-67 | the tested buckets, laid end to end, are OK, x, Bar, four, Five, "", forty, foo |
| Selector.TestDictionaryLengthTwo | src/wordl.test.ts:78-80 | with the tested buckets, `randomWord(2)` throws |
| Selector.TestDictionaryLengthZero | src/wordl.test.ts:72-74 | with the tested buckets, `randomWord(0)` can only return "" |
| Selector.TestDictionaryLengthOne | src/wordl.test.ts:75-77 | with the tested buckets, `randomWord(1)` can only return "X" |
| Selector.TestDictionaryLengthThree | src/wordl.test.ts:81-83 | with the tested buckets, `randomWord(3)` can only return "FOO" |
| Selector.TestDictionaryLengthFour | src/wordl.test.ts:84-86 | with the tested buckets, `randomWord(4)` can only return "FOUR" |
| App.AsColor | src/App.tsx:84-92 | the colour table is total: never the `EMPTY` fallback, "" exactly for `Unevaluated`, green exactly for `Located` |
| App.AsColorInjective | src/App.tsx:84-92 | different classifications get different colours |
| App.Range | src/App.tsx:44-50 | `range(a, b)` is `a, a+1, …, b-1` in order, empty when `a >= b` |
| App.LetterKeyIff | src/App.tsx:157-158 | `ukey >= 'A' && ukey <= 'Z'` holds iff the key starts with a capital and is "Z" if it starts with Z; a key of at most one character passes iff it is one capital letter |
| App.Game.constructor | src/App.tsx:58-69 | a new game has the given or default length (5) and number of guesses (6), no tries and one empty guess |
| App.Game.HandleKey | src/App.tsx:156-170 | updates the fields exactly as the letter-key step does and keeps the invariant |
| App.Game.HandleBackspace | src/App.tsx:114-127 | updates the fields exactly as the Backspace step does and keeps the invariant |
| App.Game.HandleEnter | src/App.tsx:130-154 | updates the fields exactly as the Enter step does, with `isWord` as the dictionary test, and keeps the invariant |
| App.Game.OnKeyDown | src/App.tsx:172-195 | updates the fields exactly as the dispatching step does and keeps the invariant |
| App.PressKeys | src/App.tsx:172-195 | delivering key events one by one produces the responses and the final state of replaying them |
| App.KeyDownKeepsInvariant | src/App.tsx:114-195 | every event keeps `tries <= numGuesses` and `tries <= |words| <= tries + 1`, raises `tries` by at most one, and leaves the submitted guesses unchanged |
| App.EnterAcceptsIff | src/App.tsx:130-141 | Enter raises `tries` by exactly one iff guesses are left, a guess is in progress, it is long enough and `isWord` accepts it; otherwise the state is unchanged and an error is shown |
| App.EnterMessages | src/App.tsx:142-152 | an accepted guess equal to the goal shows the praise for its try ("Genius" on the first); a wrong guess on the last try shows the info toast; any other accepted guess shows nothing |
| App.ExhaustedRefuses | src/App.tsx:130-170 | once every guess is used, Enter and every letter key answer "No more guesses" and change nothing |
| App.KeyAppendsLetter | src/App.tsx:156-170 | a one-character key is appended upper-cased to the guess in progress, or to " " when there is none, iff it is a letter, guesses are left and the guess is not full; otherwise an error and no change |
| App.KeyDownKeepsWithinLength | src/App.tsx:159-166 | with `wordLength >= 1`, no event makes the guess in progress longer than `wordLength` |
| App.BackspaceDropsLast | src/App.tsx:114-127 | Backspace throws with no guess in progress, refuses on an empty guess, and otherwise drops exactly its last character and changes nothing else |
| App.OtherKeysIgnored | src/App.tsx:175-191 | other multi-character keys change nothing: Shift, Control, Option, Meta and Alt silently, any other key with "No action for …" |
| App.ReplayKeepsInvariant | src/App.tsx:114-195 | over any key sequence the invariant holds, `tries` never decreases or passes `numGuesses`, submitted guesses never change, and the guess in progress stays within `wordLength` |
| AppScenarios.TypingAppends | src/App.tsx:156-170 | typing letters into a guess with room for them shows nothing and appends them, upper-cased |
| AppScenarios.NextGuessStartsWithSpace | src/App.tsx:159 | with no guess in progress, a letter starts the next guess as " " followed by the letter |
| AppScenarios.AnswerAccepted | src/App.tsx:142-146 | submitting the goal as the first guess shows success with "Genius" |
| AppScenarios.NotAWordRefused | src/App.tsx:136-137 | with guesses left, submitting a complete guess that no dialect lists shows the error naming it and changes nothing |
| AppScenarios.FirstGuessWins | src/App.test.tsx:80-96 | typing s, m, i, l, e and Enter against SMILE shows only "Genius" and submits SMILE |
| AppScenarios.CorrectionTail | src/App.test.tsx:121-141 | Enter on SMILX is refused, Backspace removes the X, the key E and Enter then win with "Genius" |
| AppScenarios.CorrectionAccepted | src/App.test.tsx:114-142 | the whole correction sequence, keys S, M, I, L, X, Enter, Backspace, E, Enter, gives five quiet letters, the refusal, two quiet keys and "Genius" |
| AppScenarios.CorrectAGuess | src/App.test.tsx:114-142 | the same correction played on a `Game` object yields those responses |
| AppScenarios.SecondGuessStartsWithSpace | src/App.test.tsx:162-170 | after DREAM, the keys S, M, I, L, E yield " SMIL" and the fifth letter is refused, which is not what the test expects |
| AppScenarios.SecondGuessTail | src/App.tsx:159-166 | from the guess " S", the keys M, I and L are appended and E is refused because the guess is already five long |
| AppScenarios.ErasingTheSpaceRecovers | src/App.tsx:114-170 | after DREAM, the keys S, Backspace, Backspace, S show nothing and leave the guess "S": the second Backspace erases the leading space |
| App.KeyStepBreaksLettersOnly | src/App.tsx:159 | as written, after one submitted guess the letter S starts the next guess as " S", which holds a character that is not a capital letter |
| App.KeyStepFixed | src/App.test.tsx:162-178 | the corrected letter step keeps the guess in progress made of capital letters only, for every key `onKeyDown` passes to it |
| App.FixedNextGuessStartsEmpty | src/App.test.tsx:162-178 | corrected, a letter with no guess in progress starts the next guess as that letter alone, upper-cased |

## Left out

- Rendering (`L`, `makeRow`, `keyButton`, the keyboard rows, the colour hex
  table) is not modelled. The rendering defects are also left out: `word[i]`
  for `word[j]` in `makeRow`, and the ⌫ button wired to `handleEnter`.
  `App.AsColor` shows that `keyButton`'s `bg === 'white'` test can never
  succeed.
- The toasts are reduced to their status and description. Their titles,
  `isClosable` and the `console.log` calls are left out.
- React's `useState` scheduling and re-rendering are left out. Each key event
  is one sequential state update.
- Selector.RandomWord: `Math.random` is replaced by a finite sequence of
  integer draws in `[0, total)`. The source loops until some draw is
  accepted, which terminates only with probability one. The model returns
  `OutOfDraws` when the given draws run out first, so it proves nothing
  about how many draws are needed.
- Selector.CountWords: the nested `forEach` over dialects and frequencies,
  and the nested `for` loops in the draw, are one loop over the dialect-major
  list of bucket keys, in the same order.
- Selector.RandomWord, Selector.IsWord: the dictionary module
  `wordlist-english` is not part of this model. It is a parameter, a map from
  list names to word lists. The keys the code reads are required to exist,
  where JavaScript would read `undefined` and throw. Tests that depend on the
  real word lists are left out.
- JsString.ToLower, JsString.ToUpper: case mapping covers the ASCII letters
  only. Every other character is unchanged, where JavaScript applies full
  Unicode case mapping.
- App.KeyDownKeepsWithinLength, App.ReplayKeepsInvariant, App.KeyAppendsLetter:
  the length bound and "one letter appended" rely on the ASCII case mapping.
  In JavaScript, `"ß".toUpperCase()` is `"SS"`, which passes the letter test
  at `src/App.tsx:158`. So that key appends two characters. It can take the
  guess past `wordLength`, after which the `word.length === wordLength` guard
  never fires again. The model answers "Press a letter" to such a key.
- JavaScript string lengths count UTF-16 code units. The model counts
  characters.
- App.Game.constructor: the secret word is a constructor argument. The
  component obtains it from `randomWord(wordLength)`, which is modelled as
  Selector.RandomWord.
- App.EnterStep: the case `tries > |words|`, where reading `word.length`
  would throw, is modelled as `Crash`. The invariant rules it out.
- `throwError` is a one-line helper that is never used, and is left out.

## Findings

| source | as written | input that shows it | evidently intended | confidence | as-written member | corrected member |
|---|---|---|---|---|---|---|
| src/wordl.ts:86-92 | the scan sets `Misplaced` whenever the letter occurs, overwriting the `Located` set by the position check; `NotPresent` is never set, so an absent letter stays `Unevaluated` | `evaluate('B', 0, "BRAVE")` gives `Misplaced`, `evaluate('C', 0, "BRAVE")` gives `Unevaluated` | `Located` on an exact match, else `Misplaced` if the letter occurs, else `NotPresent` | not executed | Evaluator.Evaluate | Evaluator.EvaluateFixed |
| src/App.tsx:159 | with no guess in progress, the new guess starts from `' '`, which is the case for every guess after the first | after DREAM, the keys S, M, I, L, E give `" SMIL"` and E is refused | start the new guess from `''` | not executed | App.KeyStepBreaksLettersOnly | App.KeyStepFixed |
| src/wordl.ts:108 | each attempt is split on `' '`, so a five-letter guess is one token at index 0 and never equals a single letter | `evaluateLetter("E", "CAMEL", ["LEVEE"])` gives `Unevaluated` | split into characters: `Located` here, because the guess has E at index 3, where CAMEL has it | not executed | Evaluator.EvaluateLetter | Evaluator.EvaluateLetterFixed |
