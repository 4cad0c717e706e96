/**
 * The word evaluator of src/wordl.ts: `evaluate` classifies one guessed
 * letter at one position against the target word, and `evaluateLetter`
 * keeps the best classification a letter has earned over the previous
 * attempts (used to colour the on-screen keyboard).
 *
 * Both are modelled as written (`Evaluate`, `EvaluateLetter`) and as their
 * tests in src/wordl.test.ts expect (`EvaluateFixed`, `EvaluateLetterFixed`);
 * the lemmas at the end say exactly where the two disagree.
 */
module Evaluator {
  import opened JsString

  /** The four classifications, ordered by how much they tell the player. */
  datatype LetterClass = Unevaluated | NotPresent | Misplaced | Located

  /** The enum's numeric value: `Unevaluated < NotPresent < Misplaced < Located`. */
  function Rank(c: LetterClass): (n: nat)
    ensures n < 4
  {
    match c
    case Unevaluated => 0
    case NotPresent => 1
    case Misplaced => 2
    case Located => 3
  }

  /** Distinct classifications have distinct ranks, so the order is total. */
  lemma RankInjective(a: LetterClass, b: LetterClass)
    ensures Rank(a) == Rank(b) ==> a == b
  {
  }

  /** `if (r > acc) acc = r`: the better of the two classifications. */
  function Max(acc: LetterClass, r: LetterClass): (m: LetterClass)
    ensures Rank(m) >= Rank(acc) && Rank(m) >= Rank(r)
    ensures m == acc || m == r
  {
    if Rank(r) > Rank(acc) then r else acc
  }

  /** Taking the better classification is associative and commutative. */
  lemma MaxAssociative(a: LetterClass, b: LetterClass, c: LetterClass)
    ensures Max(Max(a, b), c) == Max(a, Max(b, c))
    ensures Max(a, b) == Max(b, a)
  {
  }

  lemma MaxUnevaluated(a: LetterClass)
    ensures Max(a, Unevaluated) == a && Max(Unevaluated, a) == a
  {
  }

  /** `key[i] === letter` for some index `i` of `key`. */
  predicate Occurs(letter: string, key: string) {
    exists i :: 0 <= i < |key| && [key[i]] == letter
  }

  /** `position >= 0 && position < key.length && key[position] === letter` */
  predicate MatchesAt(letter: string, position: int, key: string) {
    0 <= position < |key| && [key[position]] == letter
  }

  /**
   * What `evaluate` returns as written: the scan of the whole key
   * overwrites the exact-position result, and nothing sets `NotPresent`.
   * The method `Evaluate` is proved to compute it.
   */
  function Classification(letter: string, position: int, key: string): LetterClass {
    if Occurs(letter, key) then Misplaced else Unevaluated
  }

  /**
   * What the tests of `evaluate` expect: `Located` on an
   * exact match, else `Misplaced` when the letter is elsewhere in the key,
   * else `NotPresent`.
   */
  function IntendedClassification(letter: string, position: int, key: string): LetterClass {
    if MatchesAt(letter, position, key) then Located
    else if Occurs(letter, key) then Misplaced
    else NotPresent
  }

  /**
   * `evaluate(letter, position, key)` as written. Any integer position is
   * accepted; one outside the key only disables the exact-match branch,
   * whose `Located` the following scan overwrites anyway.
   */
  method Evaluate(letter: string, position: int, key: string) returns (res: LetterClass)
    ensures res == Classification(letter, position, key)
    ensures res == Misplaced <==> Occurs(letter, key)
    ensures res == Unevaluated <==> !Occurs(letter, key)
  {
    var len := |key|;
    res := Unevaluated;
    if 0 <= position < len && [key[position]] == letter {
      res := Located;
    }
    for i := 0 to len
      invariant (exists k :: 0 <= k < i && [key[k]] == letter) ==> res == Misplaced
      invariant !(exists k :: 0 <= k < i && [key[k]] == letter) ==>
                  res == if MatchesAt(letter, position, key) then Located else Unevaluated
    {
      if [key[i]] == letter {
        res := Misplaced;
      }
    }
  }

  /**
   * `evaluate` corrected: scan first, then let an exact match take
   * precedence, starting from `NotPresent` rather than `Unevaluated`.
   */
  method EvaluateFixed(letter: string, position: int, key: string) returns (res: LetterClass)
    ensures res == IntendedClassification(letter, position, key)
    ensures res == Located <==> MatchesAt(letter, position, key)
    ensures res == Misplaced <==> !MatchesAt(letter, position, key) && Occurs(letter, key)
    ensures res == NotPresent <==> !Occurs(letter, key)
  {
    var len := |key|;
    res := NotPresent;
    for i := 0 to len
      invariant res == if exists k :: 0 <= k < i && [key[k]] == letter then Misplaced else NotPresent
    {
      if [key[i]] == letter {
        res := Misplaced;
      }
    }
    if 0 <= position < len && [key[position]] == letter {
      res := Located;
    }
  }

  /** The two versions of `evaluate` agree exactly on a letter that occurs in the key away from `position`. */
  lemma EvaluateVersionsAgreeIff(letter: string, position: int, key: string)
    ensures Classification(letter, position, key) == IntendedClassification(letter, position, key)
            <==> Occurs(letter, key) && !MatchesAt(letter, position, key)
  {
  }

  /** The `evaluate` cases of src/wordl.test.ts, as the code computes them and as the tests expect them. */
  lemma EvaluateBraveExamples()
    ensures Classification("B", 0, "BRAVE") == Misplaced
    ensures IntendedClassification("B", 0, "BRAVE") == Located
    ensures Classification("C", 0, "BRAVE") == Unevaluated
    ensures IntendedClassification("C", 0, "BRAVE") == NotPresent
    ensures Classification("I", 4, "TEAM") == Unevaluated
    ensures IntendedClassification("I", 4, "TEAM") == NotPresent
    ensures Classification("J", -1, "APPLEJUICE") == Misplaced
    ensures IntendedClassification("J", -1, "APPLEJUICE") == Misplaced
    ensures Classification("G", 5, "GROGG") == Misplaced
    ensures IntendedClassification("G", 5, "GROGG") == Misplaced
    ensures Classification("H", 5, "SLEIGHT") == Misplaced
    ensures IntendedClassification("H", 5, "SLEIGHT") == Located
  {
    assert ["BRAVE"[0]] == "B";
    assert !Occurs("C", "BRAVE") by {
      forall i | 0 <= i < 5 ensures ["BRAVE"[i]] != "C" {
        assert ["BRAVE"[i]][0] != 'C';
      }
    }
    assert !Occurs("I", "TEAM") by {
      forall i | 0 <= i < 4 ensures ["TEAM"[i]] != "I" {
        assert ["TEAM"[i]][0] != 'I';
      }
    }
    assert ["APPLEJUICE"[5]] == "J";
    assert ["GROGG"[0]] == "G";
    assert ["SLEIGHT"[5]] == "H";
  }

  /** Which way `evaluateLetter` cuts an attempt into tokens and classifies them. */
  datatype Version = AsWritten | Intended

  /** `w.split('')`: one token per character. */
  function Chars(w: string): (tokens: seq<string>)
    ensures |tokens| == |w|
    ensures forall j :: 0 <= j < |w| ==> tokens[j] == [w[j]]
  {
    seq(|w|, j requires 0 <= j < |w| => [w[j]])
  }

  /** As written an attempt is split on `' '`; intended is one token per letter. */
  function Tokens(v: Version, w: string): seq<string> {
    match v
    case AsWritten => Split(w)
    case Intended => Chars(w)
  }

  function Classify(v: Version, letter: string, position: int, key: string): LetterClass {
    match v
    case AsWritten => Classification(letter, position, key)
    case Intended => IntendedClassification(letter, position, key)
  }

  /** The best classification over the tokens equal to `letter`, each classified at its own index. */
  function TokensBest(v: Version, letter: string, key: string, tokens: seq<string>): LetterClass
    decreases |tokens|
  {
    if tokens == [] then Unevaluated
    else
      var n := |tokens| - 1;
      var acc := TokensBest(v, letter, key, tokens[..n]);
      if tokens[n] == letter then Max(acc, Classify(v, letter, n, key)) else acc
  }

  /** What `evaluateLetter(letter, key, attempts)` returns, attempt by attempt. */
  function Best(v: Version, letter: string, key: string, attempts: seq<string>): LetterClass
    decreases |attempts|
  {
    if attempts == [] then Unevaluated
    else
      var n := |attempts| - 1;
      Max(Best(v, letter, key, attempts[..n]), TokensBest(v, letter, key, Tokens(v, attempts[n])))
  }

  /** Token `j` of attempt `i` is the queried letter. */
  ghost predicate Earns(v: Version, letter: string, attempts: seq<string>, i: int, j: int) {
    0 <= i < |attempts| && 0 <= j < |Tokens(v, attempts[i])| && Tokens(v, attempts[i])[j] == letter
  }

  /**
   * `evaluateLetter(letter, key, attempts)` as written: every token of
   * `w.split(' ')` that equals `letter` is evaluated at its token index,
   * and the best result is kept.
   */
  method EvaluateLetter(letter: string, key: string, attempts: seq<string>) returns (result: LetterClass)
    ensures result == Best(AsWritten, letter, key, attempts)
  {
    result := Unevaluated;
    for i := 0 to |attempts|
      invariant result == Best(AsWritten, letter, key, attempts[..i])
    {
      var tokens := Split(attempts[i]);
      ghost var before := result;
      MaxUnevaluated(before);
      for j := 0 to |tokens|
        invariant result == Max(before, TokensBest(AsWritten, letter, key, tokens[..j]))
      {
        assert tokens[..j + 1][..j] == tokens[..j];
        if tokens[j] == letter {
          var r := Evaluate(letter, j, key);
          MaxAssociative(before, TokensBest(AsWritten, letter, key, tokens[..j]), r);
          if Rank(r) > Rank(result) {
            result := r;
          }
        }
      }
      assert tokens[..|tokens|] == tokens;
      assert attempts[..i + 1][..i] == attempts[..i];
    }
    assert attempts[..|attempts|] == attempts;
  }

  /** `evaluateLetter` corrected: every letter of every attempt is evaluated at its own position. */
  method EvaluateLetterFixed(letter: string, key: string, attempts: seq<string>) returns (result: LetterClass)
    ensures result == Best(Intended, letter, key, attempts)
  {
    result := Unevaluated;
    for i := 0 to |attempts|
      invariant result == Best(Intended, letter, key, attempts[..i])
    {
      var w := attempts[i];
      ghost var tokens := Chars(w);
      ghost var before := result;
      MaxUnevaluated(before);
      for j := 0 to |w|
        invariant result == Max(before, TokensBest(Intended, letter, key, tokens[..j]))
      {
        assert tokens[..j + 1][..j] == tokens[..j];
        if [w[j]] == letter {
          var r := EvaluateFixed(letter, j, key);
          MaxAssociative(before, TokensBest(Intended, letter, key, tokens[..j]), r);
          if Rank(r) > Rank(result) {
            result := r;
          }
        }
      }
      assert tokens[..|tokens|] == tokens;
      assert attempts[..i + 1][..i] == attempts[..i];
    }
    assert attempts[..|attempts|] == attempts;
  }

  /** With no attempts the letter is `Unevaluated`, whatever the key. */
  lemma NoAttemptsUnevaluated(v: Version, letter: string, key: string)
    ensures Best(v, letter, key, []) == Unevaluated
  {
  }

  /** The tokens' best is the maximum of the classifications of the matching tokens. */
  lemma {:induction false} TokensBestIsMaximum(v: Version, letter: string, key: string, tokens: seq<string>)
    ensures forall j :: 0 <= j < |tokens| && tokens[j] == letter ==>
              Rank(Classify(v, letter, j, key)) <= Rank(TokensBest(v, letter, key, tokens))
    ensures TokensBest(v, letter, key, tokens) == Unevaluated ||
            exists j :: 0 <= j < |tokens| && tokens[j] == letter &&
              Classify(v, letter, j, key) == TokensBest(v, letter, key, tokens)
    decreases |tokens|
  {
    if tokens != [] {
      var n := |tokens| - 1;
      var prefix := tokens[..n];
      TokensBestIsMaximum(v, letter, key, prefix);
      assert forall j :: 0 <= j < n ==> prefix[j] == tokens[j];
    }
  }

  /**
   * `evaluateLetter` returns the maximum, under the enum order, of the
   * classifications of all tokens of all attempts that equal the letter,
   * and `Unevaluated` when there is none.
   */
  lemma {:induction false} BestIsMaximum(v: Version, letter: string, key: string, attempts: seq<string>)
    ensures forall i, j :: Earns(v, letter, attempts, i, j) ==>
              Rank(Classify(v, letter, j, key)) <= Rank(Best(v, letter, key, attempts))
    ensures Best(v, letter, key, attempts) == Unevaluated ||
            exists i, j :: Earns(v, letter, attempts, i, j) &&
              Classify(v, letter, j, key) == Best(v, letter, key, attempts)
    decreases |attempts|
  {
    if attempts != [] {
      var n := |attempts| - 1;
      var prefix := attempts[..n];
      var tokens := Tokens(v, attempts[n]);
      BestIsMaximum(v, letter, key, prefix);
      TokensBestIsMaximum(v, letter, key, tokens);
      forall i, j | Earns(v, letter, attempts, i, j)
        ensures Rank(Classify(v, letter, j, key)) <= Rank(Best(v, letter, key, attempts))
      {
        if i < n {
          assert Earns(v, letter, prefix, i, j);
        }
      }
      var best := Best(v, letter, key, attempts);
      if best != Unevaluated {
        if best == Best(v, letter, key, prefix) {
          var i, j :| Earns(v, letter, prefix, i, j) && Classify(v, letter, j, key) == best;
          assert Earns(v, letter, attempts, i, j);
        } else {
          var j :| 0 <= j < |tokens| && tokens[j] == letter && Classify(v, letter, j, key) == best;
          assert Earns(v, letter, attempts, n, j);
        }
      }
    }
  }

  /** Evaluating a concatenation of attempt lists is the better of the two results. */
  lemma {:induction false} BestAppend(v: Version, letter: string, key: string, a: seq<string>, b: seq<string>)
    ensures Best(v, letter, key, a + b) == Max(Best(v, letter, key, a), Best(v, letter, key, b))
    decreases |b|
  {
    if b == [] {
      assert a + b == a;
      MaxUnevaluated(Best(v, letter, key, a));
    } else {
      var n := |b| - 1;
      assert (a + b)[..|a + b| - 1] == a + b[..n];
      assert (a + b)[|a + b| - 1] == b[n];
      BestAppend(v, letter, key, a, b[..n]);
      MaxAssociative(Best(v, letter, key, a), Best(v, letter, key, b[..n]),
                     TokensBest(v, letter, key, Tokens(v, b[n])));
    }
  }

  /** Appending attempts never lowers a key's classification. */
  lemma BestMonotone(v: Version, letter: string, key: string, a: seq<string>, b: seq<string>)
    ensures Rank(Best(v, letter, key, a)) <= Rank(Best(v, letter, key, a + b))
  {
    BestAppend(v, letter, key, a, b);
  }

  /**
   * As written, `evaluateLetter` is `Misplaced` exactly when the letter is
   * in the key and some attempt has a space-separated token equal to it,
   * and `Unevaluated` otherwise: it never yields `Located` or `NotPresent`.
   */
  lemma AsWrittenBest(letter: string, key: string, attempts: seq<string>)
    ensures Best(AsWritten, letter, key, attempts) ==
            if Occurs(letter, key) && exists i, j :: Earns(AsWritten, letter, attempts, i, j)
            then Misplaced else Unevaluated
  {
    BestIsMaximum(AsWritten, letter, key, attempts);
  }

  /**
   * As written, an attempt without spaces is one token at index 0, so an
   * attempt other than the letter itself never contributes: a list of
   * ordinary five-letter guesses leaves every key `Unevaluated`.
   */
  lemma WholeWordsNeverCount(letter: string, key: string, attempts: seq<string>)
    requires forall i :: 0 <= i < |attempts| ==> ' ' !in attempts[i] && attempts[i] != letter
    ensures Best(AsWritten, letter, key, attempts) == Unevaluated
  {
    forall i, j | 0 <= i < |attempts| ensures !Earns(AsWritten, letter, attempts, i, j) {
      SplitSpaceFree(attempts[i]);
    }
    AsWrittenBest(letter, key, attempts);
  }

  /** The letter is one of the characters of some attempt. */
  ghost predicate Guessed(letter: string, attempts: seq<string>) {
    exists i, j :: 0 <= i < |attempts| && 0 <= j < |attempts[i]| && [attempts[i][j]] == letter
  }

  /** Corrected, a key stays `Unevaluated` exactly until its letter has been guessed. */
  lemma IntendedUnevaluatedIff(letter: string, key: string, attempts: seq<string>)
    ensures Best(Intended, letter, key, attempts) == Unevaluated <==> !Guessed(letter, attempts)
  {
    BestIsMaximum(Intended, letter, key, attempts);
    assert forall i, j :: Earns(Intended, letter, attempts, i, j) ==> [attempts[i][j]] == letter;
    if Guessed(letter, attempts) {
      var i, j :| 0 <= i < |attempts| && 0 <= j < |attempts[i]| && [attempts[i][j]] == letter;
      assert Earns(Intended, letter, attempts, i, j);
    }
  }

  /**
   * On attempts without spaces that are not the bare letter, the code as
   * written and the corrected version agree exactly when the letter has
   * not been guessed yet; once it has, the key is coloured wrongly.
   */
  lemma EvaluateLetterVersionsAgreeIff(letter: string, key: string, attempts: seq<string>)
    requires forall i :: 0 <= i < |attempts| ==> ' ' !in attempts[i] && attempts[i] != letter
    ensures Best(AsWritten, letter, key, attempts) == Best(Intended, letter, key, attempts)
            <==> !Guessed(letter, attempts)
  {
    WholeWordsNeverCount(letter, key, attempts);
    IntendedUnevaluatedIff(letter, key, attempts);
  }

  /** Cases of src/wordl.test.ts for `evaluateLetter`, as written and corrected. */
  lemma EvaluateLetterCamelExamples()
    ensures Best(AsWritten, "E", "CAMEL", ["LEVEE"]) == Unevaluated
    ensures Best(Intended, "E", "CAMEL", ["LEVEE"]) == Located
    ensures Best(Intended, "V", "CAMEL", ["LEVEE"]) == NotPresent
    ensures Best(Intended, "C", "CAMEL", ["LEVEE"]) == Unevaluated
    ensures Best(AsWritten, "V", "CAMEL", ["LEVEE"]) == Unevaluated
    ensures Best(AsWritten, "C", "CAMEL", ["LEVEE"]) == Unevaluated
  {
    var attempts := ["LEVEE"];
    assert "LEVEE" != "E" && "LEVEE" != "V" && "LEVEE" != "C";
    assert ' ' !in "LEVEE";
    WholeWordsNeverCount("E", "CAMEL", attempts);
    WholeWordsNeverCount("V", "CAMEL", attempts);
    WholeWordsNeverCount("C", "CAMEL", attempts);

    BestIsMaximum(Intended, "E", "CAMEL", attempts);
    assert Earns(Intended, "E", attempts, 0, 3);
    assert MatchesAt("E", 3, "CAMEL");

    BestIsMaximum(Intended, "V", "CAMEL", attempts);
    assert Earns(Intended, "V", attempts, 0, 2);
    assert !Occurs("V", "CAMEL") by {
      forall i | 0 <= i < 5 ensures ["CAMEL"[i]] != "V" {
        assert ["CAMEL"[i]][0] != 'V';
      }
    }

    IntendedUnevaluatedIff("C", "CAMEL", attempts);
    assert !Guessed("C", attempts) by {
      forall i, j | 0 <= i < 1 && 0 <= j < 5 ensures [attempts[i][j]] != "C" {
        assert [attempts[i][j]][0] != 'C';
      }
    }
  }
}
