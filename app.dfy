/**
 * The game component of src/App.tsx, without its rendering: the state
 * `tries` (guesses submitted) and `words` (the guesses, the last one
 * possibly still being typed) for a fixed secret word `goal`, and the
 * keyboard handlers that update it and answer with a toast.
 *
 * Each handler is modelled twice: as a pure step from one `Session` to the
 * next (`KeyStep`, `BackspaceStep`, `EnterStep`, `KeyDownStep`), about which
 * the lemmas speak, and as a method of the class `Game`, which updates its
 * fields in place and is proved to take exactly that step.
 */
module App {
  import opened Wrappers
  import opened JsString
  import opened Evaluator
  import opened Selector

  const DefaultLength: nat := 5
  const DefaultGuesses: nat := 6

  const Praise: seq<string> := ["Genius", "Unbelievable", "Impressive", "Splendid", "Good work", "Phew"]

  const Correct := "green"
  const Incorrect := "blackAlpha"
  const Empty := "white"
  const MisplacedColour := "yellow"

  /**
   * `asColor`: the colour scheme of a classification. The table covers
   * every classification, so the `?? EMPTY` fallback never applies.
   */
  function AsColor(c: LetterClass): (colour: string)
    ensures colour != Empty
    ensures colour == "" <==> c == Unevaluated
    ensures c == Located <==> colour == Correct
  {
    match c
    case Located => Correct
    case Misplaced => MisplacedColour
    case NotPresent => Incorrect
    case Unevaluated => ""
  }

  /** Different classifications get different colours. */
  lemma AsColorInjective(c1: LetterClass, c2: LetterClass)
    ensures AsColor(c1) == AsColor(c2) ==> c1 == c2
  {
  }

  /** `range(a, b)`: the integers `a, a+1, ..., b-1`, none when `a >= b`. */
  method Range(a: int, b: int) returns (result: seq<int>)
    ensures |result| == if a < b then b - a else 0
    ensures forall k :: 0 <= k < |result| ==> result[k] == a + k
  {
    result := [];
    var i := a;
    while i < b
      invariant a <= i
      invariant a < b ==> i <= b
      invariant a >= b ==> i == a
      invariant |result| == i - a
      invariant forall k :: 0 <= k < |result| ==> result[k] == a + k
    {
      result := result + [i];
      i := i + 1;
    }
  }

  datatype Status = Error | Success | Info

  /** What a handler shows: nothing, a toast, or a thrown `TypeError`. */
  datatype Response =
    | Quiet
    | Toast(status: Status, description: Option<string>)
    | Crash

  /** `errorMessage(msg)` */
  function ErrorMessage(msg: string): Response {
    Toast(Error, Some(msg))
  }

  /** `praise[i]`, `undefined` past the end of the list. */
  function PraiseAt(i: nat): Option<string> {
    if i < |Praise| then Some(Praise[i]) else None
  }

  const IgnoredKeys: seq<string> := ["Shift", "Control", "Option", "Meta", "Alt"]

  /** What a game never changes: the secret word, the props and the dictionary. */
  datatype Config = Config(goal: string, wordLength: nat, numGuesses: nat, dict: WordList)

  /** The component state. */
  datatype Session = Session(tries: nat, words: seq<string>)

  datatype Step = Step(response: Response, next: Session)

  /** No more guesses than allowed, and at most one guess in progress. */
  ghost predicate Inv(c: Config, s: Session) {
    s.tries <= c.numGuesses && s.tries <= |s.words| <= s.tries + 1
  }

  /** `ukey >= 'A' && ukey <= 'Z'`, compared as JavaScript strings. */
  predicate IsLetterKey(ukey: string) {
    !LexLess(ukey, "A") && !LexLess("Z", ukey)
  }

  /**
   * A key passes the letter test exactly when it starts with a capital
   * letter and, if that is 'Z', is "Z" itself; a one-character key passes
   * exactly when it is a capital letter.
   */
  lemma LetterKeyIff(ukey: string)
    ensures IsLetterKey(ukey) <==> |ukey| >= 1 && IsUpperAscii(ukey[0]) && (ukey[0] == 'Z' ==> ukey == "Z")
    ensures |ukey| <= 1 ==> (IsLetterKey(ukey) <==> |ukey| == 1 && IsUpperAscii(ukey[0]))
  {
    if |ukey| >= 1 {
      assert "A"[1..] == "" && "Z"[1..] == "";
      if ukey[0] == 'A' {
        assert !LexLess(ukey[1..], "");
      }
      if ukey[0] == 'Z' {
        assert LexLess("Z", ukey) <==> LexLess("", ukey[1..]);
        assert |ukey| == 1 <==> ukey == "Z";
      }
    }
  }

  /** `words.slice(0, n)` */
  function Prefix(words: seq<string>, n: nat): seq<string> {
    if n <= |words| then words[..n] else words
  }

  /** `handleKey(key)` */
  function KeyStep(c: Config, s: Session, key: string): Step {
    var ukey := ToUpper(key);
    if !IsLetterKey(ukey) then Step(ErrorMessage("Press a letter"), s)
    else
      var word := if s.tries < |s.words| then s.words[s.tries] else " ";
      if s.tries == c.numGuesses then Step(ErrorMessage("No more guesses"), s)
      else if |word| == c.wordLength then
        Step(ErrorMessage("Word is long enough. Use backspace to erase last character."), s)
      else Step(Quiet, Session(s.tries, Prefix(s.words, s.tries) + [word + ukey]))
  }

  /**
   * `handleBackspace()`. Reading the length of `words[tries]` throws when
   * there is no guess in progress, before the test for that case is reached.
   */
  function BackspaceStep(c: Config, s: Session): Step {
    if s.tries >= |s.words| then Step(Crash, s)
    else
      var current := s.words[s.tries];
      if |current| == 0 then Step(ErrorMessage("Can't undo guess"), s)
      else Step(Quiet, Session(s.tries, s.words[s.tries := current[..|current| - 1]]))
  }

  /** `handleEnter()` */
  function EnterStep(c: Config, s: Session): Step
    requires HasDialects(c.dict)
  {
    if s.tries == c.numGuesses then Step(ErrorMessage("No more guesses"), s)
    else if |s.words| == s.tries then Step(ErrorMessage("Please finish your guess"), s)
    else if s.tries > |s.words| then Step(Crash, s)
    else
      var word := s.words[s.tries];
      if |word| < c.wordLength then Step(ErrorMessage("Please finish your guess"), s)
      else if !InDictionary(c.dict, word) then Step(ErrorMessage(word + "is not in our dictionary"), s)
      else
        var thisTry := s.tries;
        var next := Session(s.tries + 1, s.words);
        if word == c.goal then Step(Toast(Success, PraiseAt(thisTry)), next)
        else if thisTry == c.numGuesses - 1 then Step(Toast(Info, Some("Oh well. Better luck next time")), next)
        else Step(Quiet, next)
  }

  /** `onKeyDown(e)` with `e.key == key` */
  function KeyDownStep(c: Config, s: Session, key: string): Step
    requires HasDialects(c.dict)
  {
    if |key| > 1 then
      if key == "Backspace" then BackspaceStep(c, s)
      else if key == "Enter" then EnterStep(c, s)
      else if key in IgnoredKeys then Step(Quiet, s)
      else Step(ErrorMessage("No action for " + key), s)
    else KeyStep(c, s, key)
  }

  /** The game component with its state. */
  class Game {
    const goal: string
    const wordLength: nat
    const numGuesses: nat
    const dict: WordList
    var tries: nat
    var words: seq<string>

    function Settings(): Config {
      Config(goal, wordLength, numGuesses, dict)
    }

    function State(): Session
      reads this
    {
      Session(tries, words)
    }

    ghost predicate Valid()
      reads this
    {
      HasDialects(dict) && Inv(Settings(), State())
    }

    /** `App(p)` with `goal` the word `randomWord(wordLength)` returned. */
    constructor (dict: WordList, goal: string, wordLength: Option<nat>, numGuesses: Option<nat>)
      requires HasDialects(dict)
      ensures Valid()
      ensures Settings() == Config(goal, wordLength.GetOr(DefaultLength), numGuesses.GetOr(DefaultGuesses), dict)
      ensures State() == Session(0, [""])
    {
      this.goal := goal;
      this.wordLength := wordLength.GetOr(DefaultLength);
      this.numGuesses := numGuesses.GetOr(DefaultGuesses);
      this.dict := dict;
      tries := 0;
      words := [""];
    }

    method HandleKey(key: string) returns (r: Response)
      requires Valid()
      modifies this
      ensures Valid()
      ensures Step(r, State()) == KeyStep(Settings(), old(State()), key)
    {
      var ukey := ToUpper(key);
      if !LexLess(ukey, "A") && !LexLess("Z", ukey) {
        var word := if tries < |words| then words[tries] else " ";
        if tries == numGuesses {
          r := ErrorMessage("No more guesses");
        } else if |word| == wordLength {
          r := ErrorMessage("Word is long enough. Use backspace to erase last character.");
        } else {
          words := words[..tries] + [word + ukey];
          r := Quiet;
        }
      } else {
        r := ErrorMessage("Press a letter");
      }
    }

    method HandleBackspace() returns (r: Response)
      requires Valid()
      modifies this
      ensures Valid()
      ensures Step(r, State()) == BackspaceStep(Settings(), old(State()))
    {
      if tries >= |words| {
        // words[tries] is undefined: `currentWord.length` throws
        return Crash;
      }
      var currentWord := words[tries];
      if |currentWord| == 0 {
        r := ErrorMessage("Can't undo guess");
      } else {
        words := words[tries := currentWord[..|currentWord| - 1]];
        r := Quiet;
      }
    }

    method HandleEnter() returns (r: Response)
      requires Valid()
      modifies this
      ensures Valid()
      ensures Step(r, State()) == EnterStep(Settings(), old(State()))
    {
      if tries == numGuesses {
        r := ErrorMessage("No more guesses");
      } else if |words| == tries {
        r := ErrorMessage("Please finish your guess");
      } else {
        var word := words[tries];
        if |word| < wordLength {
          r := ErrorMessage("Please finish your guess");
        } else {
          var known := IsWord(dict, word);
          if !known {
            r := ErrorMessage(word + "is not in our dictionary");
          } else {
            var thisTry := tries;
            tries := tries + 1;
            if word == goal {
              r := Toast(Success, PraiseAt(thisTry));
            } else if thisTry == numGuesses - 1 {
              r := Toast(Info, Some("Oh well. Better luck next time"));
            } else {
              r := Quiet;
            }
          }
        }
      }
    }

    method OnKeyDown(key: string) returns (r: Response)
      requires Valid()
      modifies this
      ensures Valid()
      ensures Step(r, State()) == KeyDownStep(Settings(), old(State()), key)
    {
      if |key| > 1 {
        if key == "Backspace" {
          r := HandleBackspace();
        } else if key == "Enter" {
          r := HandleEnter();
        } else if key in IgnoredKeys {
          r := Quiet;
        } else {
          r := ErrorMessage("No action for " + key);
        }
      } else {
        r := HandleKey(key);
      }
    }
  }

  /** Every event keeps the invariant, and never touches a submitted guess. */
  lemma KeyDownKeepsInvariant(c: Config, s: Session, key: string)
    requires HasDialects(c.dict) && Inv(c, s)
    ensures var next := KeyDownStep(c, s, key).next;
            Inv(c, next) && s.tries <= next.tries <= s.tries + 1 &&
            next.words[..s.tries] == s.words[..s.tries]
  {
  }

  /**
   * `handleEnter` submits the guess, adding exactly one to `tries`, exactly
   * when guesses are left, a guess is in progress, it is long enough and it
   * is a dictionary word; otherwise nothing changes and an error is shown.
   */
  lemma EnterAcceptsIff(c: Config, s: Session)
    requires HasDialects(c.dict) && Inv(c, s)
    ensures var st := EnterStep(c, s);
            var accepted := s.tries < c.numGuesses && s.tries < |s.words| &&
                            |s.words[s.tries]| >= c.wordLength && InDictionary(c.dict, s.words[s.tries]);
            (accepted ==> st.next == Session(s.tries + 1, s.words)) &&
            (!accepted ==> st.next == s && st.response.Toast? && st.response.status == Error)
  {
  }

  /**
   * The toast of a submitted guess: praise for the try number when it is
   * the secret word ("Genius" on the first), the consolation on the last
   * allowed try, and nothing otherwise.
   */
  lemma EnterMessages(c: Config, s: Session)
    requires HasDialects(c.dict) && Inv(c, s)
    requires EnterStep(c, s).next.tries == s.tries + 1
    ensures var r := EnterStep(c, s).response;
            var word := s.words[s.tries];
            (word == c.goal ==> r == Toast(Success, PraiseAt(s.tries))) &&
            (word == c.goal && s.tries == 0 ==> r == Toast(Success, Some("Genius"))) &&
            (word != c.goal && s.tries == c.numGuesses - 1 ==> r.Toast? && r.status == Info) &&
            (word != c.goal && s.tries < c.numGuesses - 1 ==> r == Quiet)
  {
  }

  /** Once every guess is used, Enter and every letter key answer "No more guesses" and change nothing. */
  lemma ExhaustedRefuses(c: Config, s: Session, key: string)
    requires HasDialects(c.dict) && Inv(c, s) && s.tries == c.numGuesses
    requires key == "Enter" || (|key| <= 1 && IsLetterKey(ToUpper(key)))
    ensures KeyDownStep(c, s, key) == Step(ErrorMessage("No more guesses"), s)
  {
  }

  /**
   * `handleKey` appends the upper-cased letter to the guess in progress,
   * or to " " when there is none (every guess after the first), and only
   * if guesses are left and the word is not yet `wordLength` long.
   */
  lemma KeyAppendsLetter(c: Config, s: Session, key: string)
    requires Inv(c, s) && |key| == 1
    ensures var st := KeyStep(c, s, key);
            var word := if s.tries < |s.words| then s.words[s.tries] else " ";
            var ok := IsUpperAscii(UpperChar(key[0])) && s.tries < c.numGuesses && |word| != c.wordLength;
            (ok ==> st == Step(Quiet, Session(s.tries, s.words[..s.tries] + [word + [UpperChar(key[0])]]))) &&
            (!ok ==> st.next == s && st.response.Toast? && st.response.status == Error)
  {
    LetterKeyIff(ToUpper(key));
    assert ToUpper(key) == [UpperChar(key[0])];
  }

  /** The guess in progress, if any, holds capital letters only. */
  ghost predicate LettersOnly(s: Session) {
    s.tries < |s.words| ==> forall i :: 0 <= i < |s.words[s.tries]| ==> IsUpperAscii(s.words[s.tries][i])
  }

  /**
   * `handleKey` as its tests expect it: a letter with no guess in progress
   * starts the next guess from "" rather than from " ". Then a guess in
   * progress never holds anything but the letters typed into it.
   */
  function KeyStepFixed(c: Config, s: Session, key: string): (r: Step)
    ensures |key| <= 1 && LettersOnly(s) ==> LettersOnly(r.next)
  {
    var ukey := ToUpper(key);
    LetterKeyIff(ukey);
    if !IsLetterKey(ukey) then Step(ErrorMessage("Press a letter"), s)
    else
      var word := if s.tries < |s.words| then s.words[s.tries] else "";
      if s.tries == c.numGuesses then Step(ErrorMessage("No more guesses"), s)
      else if |word| == c.wordLength then
        Step(ErrorMessage("Word is long enough. Use backspace to erase last character."), s)
      else Step(Quiet, Session(s.tries, Prefix(s.words, s.tries) + [word + ukey]))
  }

  /**
   * As written, the letter step breaks that: after one submitted guess, the
   * first letter of the next guess leaves a space in front of it.
   */
  lemma KeyStepBreaksLettersOnly(c: Config)
    requires c.numGuesses >= 2 && c.wordLength >= 2
    ensures LettersOnly(Session(1, ["DREAM"]))
    ensures KeyStep(c, Session(1, ["DREAM"]), "S").next == Session(1, ["DREAM", " S"])
    ensures !LettersOnly(KeyStep(c, Session(1, ["DREAM"]), "S").next)
  {
    assert ToUpper("S") == "S";
    LetterKeyIff("S");
    assert ["DREAM"][..1] == ["DREAM"];
    assert " " + "S" == " S";
    assert !IsUpperAscii(" S"[0]);
  }

  /** Corrected, the same letter starts the next guess as the letter alone. */
  lemma FixedNextGuessStartsEmpty(c: Config, s: Session, letter: char)
    requires Inv(c, s) && s.tries == |s.words| && s.tries < c.numGuesses && c.wordLength != 0
    requires IsLowerAscii(letter) || IsUpperAscii(letter)
    ensures KeyStepFixed(c, s, [letter]) == Step(Quiet, Session(s.tries, s.words + [[UpperChar(letter)]]))
  {
    assert ToUpper([letter]) == [UpperChar(letter)];
    LetterKeyIff([UpperChar(letter)]);
    assert "" + [UpperChar(letter)] == [UpperChar(letter)];
    assert s.words[..s.tries] == s.words;
  }

  /** The guess in progress is at most `wordLength` long. */
  ghost predicate WithinLength(c: Config, s: Session) {
    s.tries < |s.words| ==> |s.words[s.tries]| <= c.wordLength
  }

  /** Keyboard events never make the guess in progress longer than `wordLength` (when it is at least 1). */
  lemma KeyDownKeepsWithinLength(c: Config, s: Session, key: string)
    requires HasDialects(c.dict) && Inv(c, s) && WithinLength(c, s) && c.wordLength >= 1
    ensures WithinLength(c, KeyDownStep(c, s, key).next)
  {
    if |key| <= 1 {
      LetterKeyIff(ToUpper(key));
    }
  }

  /** `handleBackspace` drops exactly the last letter of the guess in progress. */
  lemma BackspaceDropsLast(c: Config, s: Session)
    requires Inv(c, s)
    ensures var st := BackspaceStep(c, s);
            (s.tries == |s.words| ==> st == Step(Crash, s)) &&
            (s.tries < |s.words| && s.words[s.tries] == "" ==> st == Step(ErrorMessage("Can't undo guess"), s)) &&
            (s.tries < |s.words| && s.words[s.tries] != "" ==>
               st.response == Quiet && st.next.tries == s.tries && |st.next.words| == |s.words| &&
               st.next.words[s.tries] + [s.words[s.tries][|s.words[s.tries]| - 1]] == s.words[s.tries] &&
               forall k :: 0 <= k < |s.words| && k != s.tries ==> st.next.words[k] == s.words[k])
  {
  }

  /** Multi-character keys other than Backspace and Enter never change the state. */
  lemma OtherKeysIgnored(c: Config, s: Session, key: string)
    requires HasDialects(c.dict) && |key| > 1 && key != "Backspace" && key != "Enter"
    ensures KeyDownStep(c, s, key) ==
            if key in IgnoredKeys then Step(Quiet, s) else Step(ErrorMessage("No action for " + key), s)
  {
  }

  /** The responses to a sequence of key presses, and the state they leave. */
  datatype Trace = Trace(responses: seq<Response>, final: Session)

  function Replay(c: Config, s: Session, keys: seq<string>): (t: Trace)
    requires HasDialects(c.dict)
    ensures |t.responses| == |keys|
    decreases |keys|
  {
    if keys == [] then Trace([], s)
    else
      var st := KeyDownStep(c, s, keys[0]);
      var rest := Replay(c, st.next, keys[1..]);
      Trace([st.response] + rest.responses, rest.final)
  }

  /** The browser delivering `keys` to the `keydown` listener, one event at a time. */
  method PressKeys(game: Game, keys: seq<string>) returns (responses: seq<Response>)
    requires game.Valid()
    modifies game
    ensures game.Valid()
    ensures Trace(responses, game.State()) == Replay(game.Settings(), old(game.State()), keys)
  {
    responses := [];
    var i := 0;
    while i < |keys|
      invariant 0 <= i <= |keys|
      invariant game.Valid()
      invariant var rest := Replay(game.Settings(), game.State(), keys[i..]);
                Replay(game.Settings(), old(game.State()), keys) == Trace(responses + rest.responses, rest.final)
    {
      assert keys[i..] == [keys[i]] + keys[i + 1..];
      ReplayCons(game.Settings(), game.State(), keys[i], keys[i + 1..]);
      var r := game.OnKeyDown(keys[i]);
      responses := responses + [r];
      i := i + 1;
    }
  }

  /** Replaying one key and then the rest. */
  lemma ReplayCons(c: Config, s: Session, key: string, keys: seq<string>)
    requires HasDialects(c.dict)
    ensures var st := KeyDownStep(c, s, key);
            var rest := Replay(c, st.next, keys);
            Replay(c, s, [key] + keys) == Trace([st.response] + rest.responses, rest.final)
  {
    assert ([key] + keys)[1..] == keys;
  }

  /**
   * Over any sequence of key presses the invariant holds, `tries` never
   * decreases and never passes `numGuesses`, submitted guesses never change,
   * and (for `wordLength >= 1`) the guess in progress never grows too long.
   */
  lemma {:induction false} ReplayKeepsInvariant(c: Config, s: Session, keys: seq<string>)
    requires HasDialects(c.dict) && Inv(c, s)
    ensures var f := Replay(c, s, keys).final;
            Inv(c, f) && s.tries <= f.tries <= c.numGuesses && f.words[..s.tries] == s.words[..s.tries]
    ensures c.wordLength >= 1 && WithinLength(c, s) ==> WithinLength(c, Replay(c, s, keys).final)
    decreases |keys|
  {
    if keys != [] {
      var next := KeyDownStep(c, s, keys[0]).next;
      KeyDownKeepsInvariant(c, s, keys[0]);
      if c.wordLength >= 1 && WithinLength(c, s) {
        KeyDownKeepsWithinLength(c, s, keys[0]);
      }
      ReplayKeepsInvariant(c, next, keys[1..]);
      var f := Replay(c, s, keys).final;
      assert f.words[..next.tries][..s.tries] == f.words[..s.tries];
      assert next.words[..next.tries][..s.tries] == next.words[..s.tries];
    }
  }
}

module AppScenarios {
  import opened Wrappers
  import opened JsString
  import opened Selector
  import opened App

  /** One accepted letter key: its upper-case form is appended to the guess in progress. */
  lemma TypeLetter(c: Config, s: Session, key: string, word: string)
    requires HasDialects(c.dict)
    requires |key| == 1 && (IsLowerAscii(key[0]) || IsUpperAscii(key[0]))
    requires s.tries < c.numGuesses && s.tries + 1 == |s.words| && s.words[s.tries] == word && |word| < c.wordLength
    ensures KeyDownStep(c, s, key) == Step(Quiet, Session(s.tries, s.words[..s.tries] + [word + [UpperChar(key[0])]]))
  {
    KeyAppendsLetter(c, s, key);
  }

  /** The key presses that type `letters`, one character each. */
  function Keys(letters: string): (keys: seq<string>)
    ensures |keys| == |letters|
  {
    seq(|letters|, i requires 0 <= i < |letters| => [letters[i]])
  }

  /** `n` responses that show nothing. */
  function Quiets(n: nat): (rs: seq<Response>)
    ensures |rs| == n
  {
    seq(n, _ => Quiet)
  }

  /**
   * Typing letters into a guess in progress that has room for them shows
   * nothing and appends them, upper-cased, to that guess.
   */
  lemma {:induction false} TypingAppends(c: Config, s: Session, letters: string)
    requires HasDialects(c.dict) && Inv(c, s) && s.tries < c.numGuesses && s.tries < |s.words|
    requires forall i :: 0 <= i < |letters| ==> IsLowerAscii(letters[i]) || IsUpperAscii(letters[i])
    requires |s.words[s.tries]| + |letters| <= c.wordLength
    ensures Replay(c, s, Keys(letters)) ==
            Trace(Quiets(|letters|), Session(s.tries, s.words[..s.tries] + [s.words[s.tries] + ToUpper(letters)]))
    decreases |letters|
  {
    var word := s.words[s.tries];
    if letters == [] {
      assert ToUpper(letters) == [];
      assert word + [] == word;
      assert s.words[..s.tries] + [word] == s.words;
    } else {
      var keys := Keys(letters);
      var u := UpperChar(letters[0]);
      KeyAppendsLetter(c, s, keys[0]);
      var next := Session(s.tries, s.words[..s.tries] + [word + [u]]);
      assert KeyDownStep(c, s, keys[0]) == Step(Quiet, next);
      assert keys[1..] == Keys(letters[1..]);
      TypingAppends(c, next, letters[1..]);
      assert next.words[..s.tries] == s.words[..s.tries];
      assert ToUpper(letters) == [u] + ToUpper(letters[1..]);
      assert word + [u] + ToUpper(letters[1..]) == word + ToUpper(letters);
      assert Quiets(|letters|) == [Quiet] + Quiets(|letters| - 1);
    }
  }

  /** Typing "smile" and pressing Enter on a fresh game whose secret word is SMILE wins with "Genius". */
  lemma FirstGuessWins(dict: WordList)
    requires HasDialects(dict) && "smile" in dict["english"]
    ensures var c := Config("SMILE", DefaultLength, DefaultGuesses, dict);
            Replay(c, Session(0, [""]), ["s", "m", "i", "l", "e", "Enter"]) ==
            Trace([Quiet, Quiet, Quiet, Quiet, Quiet, Toast(Success, Some("Genius"))], Session(1, ["SMILE"]))
  {
    var c := Config("SMILE", DefaultLength, DefaultGuesses, dict);
    var typed := Session(0, ["SMILE"]);
    TypingAppends(c, Session(0, [""]), "smile");
    assert ToUpper("smile") == "SMILE";
    assert "" + "SMILE" == "SMILE";
    assert [""][..0] == [];
    assert Replay(c, Session(0, [""]), Keys("smile")) == Trace(Quiets(5), typed);
    AnswerAccepted(dict);
    ReplayCons(c, typed, "Enter", []);
    ReplayAppend(c, Session(0, [""]), Keys("smile"), ["Enter"]);
    assert Keys("smile") + ["Enter"] == ["s", "m", "i", "l", "e", "Enter"];
    assert Quiets(5) + [Toast(Success, Some("Genius"))] == [Quiet, Quiet, Quiet, Quiet, Quiet, Toast(Success, Some("Genius"))];
  }

  /** Replaying two runs of keys one after the other. */
  lemma {:induction false} ReplayAppend(c: Config, s: Session, keys: seq<string>, more: seq<string>)
    requires HasDialects(c.dict)
    ensures var first := Replay(c, s, keys);
            var second := Replay(c, first.final, more);
            Replay(c, s, keys + more) == Trace(first.responses + second.responses, second.final)
    decreases |keys|
  {
    if keys != [] {
      var next := KeyDownStep(c, s, keys[0]).next;
      assert (keys + more)[1..] == keys[1..] + more;
      ReplayAppend(c, next, keys[1..], more);
    } else {
      assert keys + more == more;
    }
  }

  /**
   * With no guess in progress (after a submitted guess), a letter key
   * starts the next guess from " " rather than from "": the new guess is a
   * space followed by the letter.
   */
  lemma NextGuessStartsWithSpace(c: Config, s: Session, letter: char)
    requires HasDialects(c.dict) && Inv(c, s) && s.tries == |s.words| && s.tries < c.numGuesses
    requires IsLowerAscii(letter) || IsUpperAscii(letter)
    requires c.wordLength != 1
    ensures KeyDownStep(c, s, [letter]) == Step(Quiet, Session(s.tries, s.words + [[' ', UpperChar(letter)]]))
  {
    KeyAppendsLetter(c, s, [letter]);
    assert [letter][0] == letter;
    assert " " + [UpperChar(letter)] == [' ', UpperChar(letter)];
    assert s.words[..s.tries] == s.words;
  }

  /**
   * After the first guess is submitted, typing S, M, I, L, E yields " SMIL":
   * the fifth letter is refused because " SMIL" is already five long.
   */
  lemma SecondGuessStartsWithSpace(dict: WordList)
    requires HasDialects(dict)
    ensures var c := Config("SMILE", DefaultLength, DefaultGuesses, dict);
            Replay(c, Session(1, ["DREAM"]), ["S", "M", "I", "L", "E"]) ==
            Trace([Quiet, Quiet, Quiet, Quiet,
                   ErrorMessage("Word is long enough. Use backspace to erase last character.")],
                  Session(1, ["DREAM", " SMIL"]))
  {
    var c := Config("SMILE", DefaultLength, DefaultGuesses, dict);
    NextGuessStartsWithSpace(c, Session(1, ["DREAM"]), 'S');
    assert [' ', UpperChar('S')] == " S" && ["DREAM"] + [" S"] == ["DREAM", " S"];
    SecondGuessTail(dict);
    ReplayCons(c, Session(1, ["DREAM"]), "S", ["M", "I", "L", "E"]);
  }

  /** The keys after " S": M, I and L are appended, E is refused. */
  lemma SecondGuessTail(dict: WordList)
    requires HasDialects(dict)
    ensures Replay(Config("SMILE", DefaultLength, DefaultGuesses, dict), Session(1, ["DREAM", " S"]), ["M", "I", "L", "E"]) ==
            Trace([Quiet, Quiet, Quiet,
                   ErrorMessage("Word is long enough. Use backspace to erase last character.")],
                  Session(1, ["DREAM", " SMIL"]))
  {
    var c := Config("SMILE", DefaultLength, DefaultGuesses, dict);
    var started := Session(1, ["DREAM", " S"]);
    var full := Session(1, ["DREAM", " SMIL"]);
    TypingAppends(c, started, "MIL");
    assert ToUpper("MIL") == "MIL";
    assert " S" + "MIL" == " SMIL";
    assert ["DREAM", " S"][..1] == ["DREAM"];
    assert Replay(c, started, Keys("MIL")) == Trace(Quiets(3), full);
    KeyAppendsLetter(c, full, "E");
    ReplayCons(c, full, "E", []);
    ReplayAppend(c, started, Keys("MIL"), ["E"]);
    assert Keys("MIL") + ["E"] == ["M", "I", "L", "E"];
  }

  /**
   * After the first guess is submitted, the next guess only starts cleanly
   * once Backspace has erased the space in front of its first letter: S,
   * Backspace, Backspace, S leaves the guess "S".
   */
  lemma ErasingTheSpaceRecovers(dict: WordList)
    requires HasDialects(dict)
    ensures Replay(Config("SMILE", DefaultLength, DefaultGuesses, dict), Session(1, ["DREAM"]), ["S", "Backspace", "Backspace", "S"]) ==
            Trace([Quiet, Quiet, Quiet, Quiet], Session(1, ["DREAM", "S"]))
  {
    var c := Config("SMILE", DefaultLength, DefaultGuesses, dict);
    var spaced := Session(1, ["DREAM", " S"]);
    var blank := Session(1, ["DREAM", " "]);
    var empty := Session(1, ["DREAM", ""]);
    NextGuessStartsWithSpace(c, Session(1, ["DREAM"]), 'S');
    assert [' ', UpperChar('S')] == " S" && ["DREAM"] + [" S"] == ["DREAM", " S"];
    assert " S"[..1] == " " && " "[..0] == "";
    assert BackspaceStep(c, spaced) == Step(Quiet, blank);
    assert BackspaceStep(c, blank) == Step(Quiet, empty);
    TypeLetter(c, empty, "S", "");
    assert "" + [UpperChar("S"[0])] == "S";
    assert ["DREAM", ""][..1] + ["S"] == ["DREAM", "S"];
    ReplayCons(c, empty, "S", []);
    ReplayCons(c, blank, "Backspace", ["S"]);
    ReplayCons(c, spaced, "Backspace", ["Backspace", "S"]);
    ReplayCons(c, Session(1, ["DREAM"]), "S", ["Backspace", "Backspace", "S"]);
  }

  /**
   * A player corrects a guess that is not a word: the game refuses SMILX,
   * Backspace removes the X, and SMILE is then accepted as the answer.
   */
  lemma CorrectionAccepted(dict: WordList)
    requires HasDialects(dict) && "smile" in dict["english"]
    requires forall d :: d in AllDialects ==> "smilx" !in dict[d]
    ensures var c := Config("SMILE", DefaultLength, DefaultGuesses, dict);
            Replay(c, Session(0, [""]), Keys("SMILX") + ["Enter", "Backspace", "E", "Enter"]) ==
            Trace(Quiets(5) + [ErrorMessage("SMILXis not in our dictionary"), Quiet, Quiet, Toast(Success, Some("Genius"))],
                  Session(1, ["SMILE"]))
  {
    var c := Config("SMILE", DefaultLength, DefaultGuesses, dict);
    TypingAppends(c, Session(0, [""]), "SMILX");
    assert ToUpper("SMILX") == "SMILX";
    assert "" + "SMILX" == "SMILX";
    assert [""][..0] == [];
    assert Replay(c, Session(0, [""]), Keys("SMILX")) == Trace(Quiets(5), Session(0, ["SMILX"]));
    CorrectionTail(dict);
    ReplayAppend(c, Session(0, [""]), Keys("SMILX"), ["Enter", "Backspace", "E", "Enter"]);
  }

  /** The keys after SMILX has been typed: Enter, Backspace, E, Enter. */
  lemma CorrectionTail(dict: WordList)
    requires HasDialects(dict) && "smile" in dict["english"]
    requires forall d :: d in AllDialects ==> "smilx" !in dict[d]
    ensures Replay(Config("SMILE", DefaultLength, DefaultGuesses, dict), Session(0, ["SMILX"]), ["Enter", "Backspace", "E", "Enter"]) ==
            Trace([ErrorMessage("SMILXis not in our dictionary"), Quiet, Quiet, Toast(Success, Some("Genius"))], Session(1, ["SMILE"]))
  {
    var c := Config("SMILE", DefaultLength, DefaultGuesses, dict);
    var wrong := Session(0, ["SMILX"]);
    var erased := Session(0, ["SMIL"]);
    var right := Session(0, ["SMILE"]);
    SmilxRefused(dict);
    assert "SMILX"[..4] == "SMIL";
    assert BackspaceStep(c, wrong) == Step(Quiet, erased);
    TypeLetter(c, erased, "E", "SMIL");
    assert "SMIL" + [UpperChar("E"[0])] == "SMILE";
    AnswerAccepted(dict);
    ReplayCons(c, right, "Enter", []);
    ReplayCons(c, erased, "E", ["Enter"]);
    ReplayCons(c, wrong, "Backspace", ["E", "Enter"]);
    ReplayCons(c, wrong, "Enter", ["Backspace", "E", "Enter"]);
  }

  /** Enter on SMILX, which no dialect lists, is refused with an error naming it. */
  lemma SmilxRefused(dict: WordList)
    requires HasDialects(dict)
    requires forall d :: d in AllDialects ==> "smilx" !in dict[d]
    ensures EnterStep(Config("SMILE", DefaultLength, DefaultGuesses, dict), Session(0, ["SMILX"])) ==
            Step(ErrorMessage("SMILXis not in our dictionary"), Session(0, ["SMILX"]))
  {
    assert ToLower("SMILX") == "smilx";
    NotAWordRefused(Config("SMILE", DefaultLength, DefaultGuesses, dict), Session(0, ["SMILX"]));
    assert "SMILX" + "is not in our dictionary" == "SMILXis not in our dictionary";
  }

  /** Enter on the first guess SMILE, when the secret word is SMILE, wins with "Genius". */
  lemma AnswerAccepted(dict: WordList)
    requires HasDialects(dict) && "smile" in dict["english"]
    ensures EnterStep(Config("SMILE", DefaultLength, DefaultGuesses, dict), Session(0, ["SMILE"])) ==
            Step(Toast(Success, Some("Genius")), Session(1, ["SMILE"]))
  {
    assert ToLower("SMILE") == "smile";
    assert "english" == AllDialects[0];
  }

  /**
   * Enter on a complete guess that no dialect lists is refused with an
   * error naming the guess, and nothing changes.
   */
  lemma NotAWordRefused(c: Config, s: Session)
    requires HasDialects(c.dict) && s.tries < c.numGuesses && s.tries < |s.words|
    requires |s.words[s.tries]| >= c.wordLength && !InDictionary(c.dict, s.words[s.tries])
    ensures EnterStep(c, s) == Step(ErrorMessage(s.words[s.tries] + "is not in our dictionary"), s)
  {
  }

  /** The same correction, played on a `Game` object. */
  method CorrectAGuess(dict: WordList) returns (responses: seq<Response>)
    requires HasDialects(dict) && "smile" in dict["english"]
    requires forall d :: d in AllDialects ==> "smilx" !in dict[d]
    ensures responses == Quiets(5) + [ErrorMessage("SMILXis not in our dictionary"), Quiet, Quiet, Toast(Success, Some("Genius"))]
  {
    var game := new Game(dict, "SMILE", None, None);
    responses := PressKeys(game, Keys("SMILX") + ["Enter", "Backspace", "E", "Enter"]);
    CorrectionAccepted(dict);
  }
}
