/**
 * The word selector of src/wordl.ts: `randomWord` picks the secret word by
 * rejection sampling over five frequency buckets of the English word list,
 * and `isWord` checks a guess against four dialect lists.
 *
 * The dictionary module is injected as a `WordList` map from keys such as
 * "english" and "english/35" to word lists, and `Math.random` is replaced
 * by a finite sequence of integer draws, each in `[0, total)`.
 */
module Selector {
  import opened Wrappers
  import opened JsString

  type WordList = map<string, seq<string>>

  /** Dialects accepted for guesses. */
  const AllDialects: seq<string> := ["english", "english/british", "english/american", "english/canadian"]
  /** Dialects the secret word is chosen from. */
  const Dialects: seq<string> := ["english"]
  /** Frequency tiers the secret word is chosen from. */
  const FreqChoices: seq<nat> := [10, 20, 35, 40, 50]

  function DigitChar(d: nat): char
    requires d < 10
  {
    ('0' as int + d) as char
  }

  /** A number's decimal form, as JavaScript writes it when concatenated to a string. */
  function Decimal(n: nat): string
    decreases n
  {
    if n < 10 then [DigitChar(n)] else Decimal(n / 10) + [DigitChar(n % 10)]
  }

  /** The keys `d + '/' + f`, dialect by dialect and tier by tier, in loop order. */
  function BucketKeys(ds: seq<string>, fs: seq<nat>): (keys: seq<string>)
    ensures |keys| == |ds| * |fs|
    decreases |ds|
  {
    if ds == [] then []
    else seq(|fs|, k requires 0 <= k < |fs| => ds[0] + "/" + Decimal(fs[k])) + BucketKeys(ds[1..], fs)
  }

  /** The five buckets `randomWord` reads. */
  lemma SelectionKeys()
    ensures BucketKeys(Dialects, FreqChoices) ==
            ["english/10", "english/20", "english/35", "english/40", "english/50"]
  {
    assert Decimal(10) == "10" by { assert Decimal(1) == "1"; }
    assert Decimal(20) == "20" by { assert Decimal(2) == "2"; }
    assert Decimal(35) == "35" by { assert Decimal(3) == "3"; }
    assert Decimal(40) == "40" by { assert Decimal(4) == "4"; }
    assert Decimal(50) == "50" by { assert Decimal(5) == "5"; }
    assert Dialects[1..] == [];
    var keys := BucketKeys(Dialects, FreqChoices);
    assert keys == seq(5, k requires 0 <= k < 5 => "english" + "/" + Decimal(FreqChoices[k])) + BucketKeys([], FreqChoices);
    assert keys[0] == "english/10";
    assert keys[1] == "english/20";
    assert keys[2] == "english/35";
    assert keys[3] == "english/40";
    assert keys[4] == "english/50";
  }

  predicate HasSelectionKeys(wordlist: WordList) {
    forall k :: k in BucketKeys(Dialects, FreqChoices) ==> k in wordlist
  }

  predicate HasDialects(wordlist: WordList) {
    forall d :: d in AllDialects ==> d in wordlist
  }

  /** The word lists `randomWord` walks, in order. */
  function Buckets(wordlist: WordList): (buckets: seq<seq<string>>)
    requires HasSelectionKeys(wordlist)
    ensures |buckets| == |BucketKeys(Dialects, FreqChoices)|
  {
    var keys := BucketKeys(Dialects, FreqChoices);
    seq(|keys|, k requires 0 <= k < |keys| => wordlist[keys[k]])
  }

  /** `word.length === length && word.toLowerCase() === word` */
  predicate Eligible(word: string, length: int) {
    |word| == length && ToLower(word) == word
  }

  /** All buckets one after another. */
  function Concat(buckets: seq<seq<string>>): seq<string>
    decreases |buckets|
  {
    if buckets == [] then [] else Concat(buckets[..|buckets| - 1]) + buckets[|buckets| - 1]
  }

  /** `total`: the number of words in all buckets. */
  function Total(buckets: seq<seq<string>>): (total: nat)
    ensures total == |Concat(buckets)|
    decreases |buckets|
  {
    if buckets == [] then 0 else Total(buckets[..|buckets| - 1]) + |buckets[|buckets| - 1]|
  }

  /** The `reduce` over one bucket: how many of its words are eligible. */
  function CountEligible(bucket: seq<string>, length: int): (count: nat)
    ensures count == 0 <==> forall w :: w in bucket ==> !Eligible(w, length)
    decreases |bucket|
  {
    if bucket == [] then 0
    else
      var n := |bucket| - 1;
      assert forall w :: w in bucket ==> w in bucket[..n] || w == bucket[n];
      CountEligible(bucket[..n], length) + (if Eligible(bucket[n], length) then 1 else 0)
  }

  /** `possible`: the number of eligible words in all buckets. */
  function Possible(buckets: seq<seq<string>>, length: int): nat
    decreases |buckets|
  {
    if buckets == [] then 0
    else Possible(buckets[..|buckets| - 1], length) + CountEligible(buckets[|buckets| - 1], length)
  }

  /** `randomWord` gives up exactly when no word of any bucket is eligible. */
  lemma {:induction false} PossibleZeroIff(buckets: seq<seq<string>>, length: int)
    ensures Possible(buckets, length) == 0 <==> forall w :: w in Concat(buckets) ==> !Eligible(w, length)
    decreases |buckets|
  {
    if buckets != [] {
      var n := |buckets| - 1;
      PossibleZeroIff(buckets[..n], length);
      assert forall w :: w in Concat(buckets) <==> w in Concat(buckets[..n]) || w in buckets[n];
    }
  }

  /** `choice` and `result` after the bucket walk has passed some buckets. */
  datatype Walk = Walk(choice: int, hit: Option<string>)

  /** One bucket of the walk: look inside it while `choice >= 0`, then subtract its length. */
  function WalkStep(w: Walk, bucket: seq<string>, length: int): Walk {
    if w.choice >= 0 then
      var hit := if w.choice < |bucket| && Eligible(bucket[w.choice], length) then Some(bucket[w.choice]) else w.hit;
      Walk(w.choice - |bucket|, hit)
    else w
  }

  /** The walk for the draw `choice` over the first `k` buckets. */
  function WalkPrefix(buckets: seq<seq<string>>, length: int, choice: int, k: nat): Walk
    requires k <= |buckets|
    decreases k
  {
    if k == 0 then Walk(choice, None)
    else WalkStep(WalkPrefix(buckets, length, choice, k - 1), buckets[k - 1], length)
  }

  /** The word one draw accepts, if any. */
  function Draw(buckets: seq<seq<string>>, length: int, choice: int): Option<string> {
    WalkPrefix(buckets, length, choice, |buckets|).hit
  }

  lemma {:induction false} WalkPrefixResolves(buckets: seq<seq<string>>, length: int, choice: nat, k: nat)
    requires k <= |buckets|
    ensures var w := WalkPrefix(buckets, length, choice, k);
            var passed := Concat(buckets[..k]);
            if choice >= |passed| then w.choice == choice - |passed| && w.hit == None
            else w.choice < 0 && w.hit == if Eligible(passed[choice], length) then Some(passed[choice]) else None
    decreases k
  {
    if k > 0 {
      WalkPrefixResolves(buckets, length, choice, k - 1);
      assert buckets[..k][..k - 1] == buckets[..k - 1];
      assert Concat(buckets[..k]) == Concat(buckets[..k - 1]) + buckets[k - 1];
    }
  }

  /**
   * A draw `choice` in `[0, total)` resolves to the word at index `choice`
   * of the buckets laid end to end, and is accepted exactly when that word
   * has the requested length and is lower-case. After the hit `choice` is
   * negative, so the later buckets are skipped.
   */
  lemma DrawResolves(buckets: seq<seq<string>>, length: int, choice: nat)
    requires choice < Total(buckets)
    ensures Draw(buckets, length, choice) ==
            if Eligible(Concat(buckets)[choice], length) then Some(Concat(buckets)[choice]) else None
  {
    WalkPrefixResolves(buckets, length, choice, |buckets|);
    assert buckets[..|buckets|] == buckets;
  }

  /** Outcome of `randomWord`. */
  datatype Selection =
    | Chosen(word: string)
    /** `throw new Error('no words of this length: ' + length)` */
    | NoWordsOfLength
    /** The draws ran out before one was accepted: the source would keep drawing. */
    | OutOfDraws

  /** The retry loop: the first accepted draw, upper-cased. */
  function Retry(buckets: seq<seq<string>>, length: int, draws: seq<int>): (r: Selection)
    ensures !r.NoWordsOfLength?
    decreases |draws|
  {
    if draws == [] then OutOfDraws
    else match Draw(buckets, length, draws[0])
      case Some(w) => Chosen(ToUpper(w))
      case None => Retry(buckets, length, draws[1..])
  }

  function RandomWordSpec(wordlist: WordList, length: int, draws: seq<int>): Selection
    requires HasSelectionKeys(wordlist)
  {
    var buckets := Buckets(wordlist);
    if Possible(buckets, length) == 0 then NoWordsOfLength else Retry(buckets, length, draws)
  }

  /** Every draw is what `Math.floor(Math.random() * total)` can yield. */
  predicate DrawsInRange(wordlist: WordList, draws: seq<int>)
    requires HasSelectionKeys(wordlist)
  {
    forall k :: 0 <= k < |draws| ==> 0 <= draws[k] < Total(Buckets(wordlist))
  }

  /** The nested `forEach` of `randomWord`: the number of words and of eligible words in the buckets. */
  method CountWords(wordlist: WordList, length: int) returns (total: nat, possible: nat)
    requires HasSelectionKeys(wordlist)
    ensures total == Total(Buckets(wordlist))
    ensures possible == Possible(Buckets(wordlist), length)
  {
    var keys := BucketKeys(Dialects, FreqChoices);
    ghost var buckets := Buckets(wordlist);
    total, possible := 0, 0;
    for k := 0 to |keys|
      invariant total == Total(buckets[..k])
      invariant possible == Possible(buckets[..k], length)
    {
      assert buckets[..k + 1][..k] == buckets[..k];
      var bucket := wordlist[keys[k]];
      total := total + |bucket|;
      possible := possible + CountEligible(bucket, length);
    }
    assert buckets[..|keys|] == buckets;
  }

  /** One pass of the bucket walk for the draw `choice`: the eligible word it lands on, if any. */
  method WalkBuckets(wordlist: WordList, length: int, choice: int) returns (result: Option<string>)
    requires HasSelectionKeys(wordlist)
    ensures result == Draw(Buckets(wordlist), length, choice)
  {
    var keys := BucketKeys(Dialects, FreqChoices);
    ghost var buckets := Buckets(wordlist);
    result := None;
    var c := choice;
    for k := 0 to |keys|
      invariant Walk(c, result) == WalkPrefix(buckets, length, choice, k)
    {
      if c >= 0 {
        var bucket := wordlist[keys[k]];
        if c < |bucket| {
          var word := bucket[c];
          if |word| == length && ToLower(word) == word {
            result := Some(word);
          }
        }
        c := c - |bucket|;
      }
    }
  }

  /**
   * `randomWord(length)`: count the words and the eligible words, throw if
   * none is eligible, otherwise draw until a draw lands on an eligible word
   * and return it upper-cased.
   */
  method RandomWord(wordlist: WordList, length: int, draws: seq<int>) returns (r: Selection)
    requires HasSelectionKeys(wordlist)
    requires DrawsInRange(wordlist, draws)
    ensures r == RandomWordSpec(wordlist, length, draws)
  {
    ghost var buckets := Buckets(wordlist);
    var total, possible := CountWords(wordlist, length);
    if possible == 0 {
      return NoWordsOfLength;
    }
    var result: Option<string> := None;
    var n := 0;
    while result == None
      invariant n <= |draws|
      invariant result == None ==> Retry(buckets, length, draws[n..]) == Retry(buckets, length, draws)
      invariant result != None ==> Retry(buckets, length, draws) == Chosen(ToUpper(result.value))
      decreases |draws| - n, if result == None then 1 else 0
    {
      if n == |draws| {
        return OutOfDraws;
      }
      var choice := draws[n];
      result := WalkBuckets(wordlist, length, choice);
      assert draws[n..][1..] == draws[n + 1..];
      n := n + 1;
    }
    r := Chosen(ToUpper(result.value));
  }

  /** `randomWord(length)` throws exactly when no bucket holds a lower-case word of that length. */
  lemma RandomWordFailsIff(wordlist: WordList, length: int, draws: seq<int>)
    requires HasSelectionKeys(wordlist)
    ensures RandomWordSpec(wordlist, length, draws) == NoWordsOfLength <==>
            forall w :: w in Concat(Buckets(wordlist)) ==> !Eligible(w, length)
  {
    PossibleZeroIff(Buckets(wordlist), length);
  }

  /** A word chosen by the retry loop is the upper-case form of an eligible word of the buckets. */
  lemma {:induction false} RetryChoosesEligible(buckets: seq<seq<string>>, length: int, draws: seq<int>)
    requires forall k :: 0 <= k < |draws| ==> 0 <= draws[k] < Total(buckets)
    ensures Retry(buckets, length, draws).Chosen? ==>
            exists w :: w in Concat(buckets) && Eligible(w, length) && Retry(buckets, length, draws).word == ToUpper(w)
    decreases |draws|
  {
    if draws != [] {
      DrawResolves(buckets, length, draws[0]);
      RetryChoosesEligible(buckets, length, draws[1..]);
    }
  }

  /** Once some draw lands on an eligible word, the retry loop stops with a word. */
  lemma {:induction false} RetryStopsAtAcceptingDraw(buckets: seq<seq<string>>, length: int, draws: seq<int>, k: nat)
    requires forall i :: 0 <= i < |draws| ==> 0 <= draws[i] < Total(buckets)
    requires k < |draws| && draws[k] < |Concat(buckets)| && Eligible(Concat(buckets)[draws[k]], length)
    ensures Retry(buckets, length, draws).Chosen?
    decreases k
  {
    DrawResolves(buckets, length, draws[0]);
    if k > 0 && Draw(buckets, length, draws[0]) == None {
      RetryStopsAtAcceptingDraw(buckets, length, draws[1..], k - 1);
    }
  }

  /**
   * Any word `randomWord` returns is the upper-case form of an eligible
   * dictionary word, so it has exactly the requested length.
   */
  lemma RandomWordChoosesEligible(wordlist: WordList, length: int, draws: seq<int>)
    requires HasSelectionKeys(wordlist)
    requires DrawsInRange(wordlist, draws)
    ensures var r := RandomWordSpec(wordlist, length, draws);
            r.Chosen? ==> (|r.word| == length &&
              exists w :: w in Concat(Buckets(wordlist)) && Eligible(w, length) && r.word == ToUpper(w))
  {
    RetryChoosesEligible(Buckets(wordlist), length, draws);
  }

  /** Words that `isWord` accepts: lower-cased, in one of the four dialect lists. */
  predicate InDictionary(wordlist: WordList, test: string)
    requires HasDialects(wordlist)
  {
    exists d :: d in AllDialects && ToLower(test) in wordlist[d]
  }

  /** `isWord(test)`: lower-case the word and look it up in every dialect list. */
  method IsWord(wordlist: WordList, test: string) returns (flag: bool)
    requires HasDialects(wordlist)
    ensures flag == InDictionary(wordlist, test)
  {
    flag := false;
    var lower := ToLower(test);
    for k := 0 to |AllDialects|
      invariant flag <==> exists i :: 0 <= i < k && lower in wordlist[AllDialects[i]]
    {
      if lower in wordlist[AllDialects[k]] {
        flag := true;
      }
    }
  }

  /** `isWord` ignores case: a word and its upper-case form are accepted alike. */
  lemma IsWordIgnoresCase(wordlist: WordList, test: string)
    requires HasDialects(wordlist)
    ensures InDictionary(wordlist, ToUpper(test)) == InDictionary(wordlist, test)
  {
    LowerOfUpper(test);
  }

  /**
   * `isWord` never accepts a word whose only matching entries, ignoring
   * case, hold a capital letter (such as the stored "John"): it compares the
   * lower-cased query with the entries exactly.
   */
  lemma CapitalisedEntryNeverMatches(wordlist: WordList, test: string)
    requires HasDialects(wordlist)
    requires forall d, e :: d in AllDialects && e in wordlist[d] && ToLower(e) == ToLower(test) ==>
               exists i :: 0 <= i < |e| && IsUpperAscii(e[i])
    ensures !InDictionary(wordlist, test)
  {
    var lower := ToLower(test);
    assert ToLower(lower) == lower by {
      assert forall i :: 0 <= i < |lower| ==> ToLower(lower)[i] == lower[i];
    }
    LowerFixedIff(lower);
  }

  /**
   * The `isWord` cases of src/wordl.test.ts, with the "english" list
   * replaced as the tests do and the three regional lists left open:
   * lookups ignore case, and the stored "John" is unreachable.
   */
  lemma IsWordTestCases(british: seq<string>, american: seq<string>, canadian: seq<string>)
    requires "word" !in british + american + canadian && "john" !in british + american + canadian
    ensures var wl := map["english" := ["Boyland", "John", "from", "hello", "jesttest", "your"],
                          "english/british" := british, "english/american" := american,
                          "english/canadian" := canadian];
            HasDialects(wl) &&
            InDictionary(wl, "jesttest") && InDictionary(wl, "HELLO") && InDictionary(wl, "Your") &&
            InDictionary(wl, "frOM") && !InDictionary(wl, "word") && !InDictionary(wl, "John")
  {
    var english := ["Boyland", "John", "from", "hello", "jesttest", "your"];
    var wl := map["english" := english, "english/british" := british, "english/american" := american,
                  "english/canadian" := canadian];
    assert ToLower("jesttest") == "jesttest";
    assert ToLower("HELLO") == "hello";
    assert ToLower("Your") == "your";
    assert ToLower("frOM") == "from";
    assert ToLower("word") == "word";
    assert ToLower("John") == "john";
    assert "english" == AllDialects[0] && wl["english"] == english;
    assert "jesttest" in english && "hello" in english && "your" in english && "from" in english;
    assert "word" !in english && "john" !in english;
    assert "word" !in british && "word" !in american && "word" !in canadian;
    assert "john" !in british && "john" !in american && "john" !in canadian;
  }

  /**
   * When the word at index `idx` is the only eligible one, `randomWord`
   * returns its upper-case form or is still drawing, and returns it as
   * soon as some draw is `idx`.
   */
  lemma SelectsOnlyCandidate(wordlist: WordList, length: int, draws: seq<int>, idx: nat)
    requires HasSelectionKeys(wordlist) && DrawsInRange(wordlist, draws)
    requires idx < |Concat(Buckets(wordlist))|
    requires forall w :: w in Concat(Buckets(wordlist)) && Eligible(w, length) ==> w == Concat(Buckets(wordlist))[idx]
    requires Eligible(Concat(Buckets(wordlist))[idx], length)
    ensures RandomWordSpec(wordlist, length, draws) in {Chosen(ToUpper(Concat(Buckets(wordlist))[idx])), OutOfDraws}
    ensures idx in draws ==> RandomWordSpec(wordlist, length, draws) == Chosen(ToUpper(Concat(Buckets(wordlist))[idx]))
  {
    RandomWordFailsIff(wordlist, length, draws);
    RandomWordChoosesEligible(wordlist, length, draws);
    if idx in draws {
      var k :| 0 <= k < |draws| && draws[k] == idx;
      RetryStopsAtAcceptingDraw(Buckets(wordlist), length, draws, k);
    }
  }

  /** The dictionary of the deterministic tests in src/wordl.test.ts. */
  function TestWordList(): WordList {
    map["english/10" := ["OK"], "english/20" := ["x", "Bar"], "english/35" := ["four", "Five"],
        "english/40" := ["", "forty"], "english/50" := ["foo"]]
  }

  lemma TestBuckets()
    ensures HasSelectionKeys(TestWordList())
    ensures Concat(Buckets(TestWordList())) == ["OK", "x", "Bar", "four", "Five", "", "forty", "foo"]
  {
    SelectionKeys();
    var b := Buckets(TestWordList());
    assert b == [["OK"], ["x", "Bar"], ["four", "Five"], ["", "forty"], ["foo"]];
    assert b[..1][..0] == [];
    assert Concat(b[..1]) == ["OK"];
    assert b[..2][..1] == b[..1];
    assert Concat(b[..2]) == ["OK", "x", "Bar"];
    assert b[..3][..2] == b[..2];
    assert Concat(b[..3]) == ["OK", "x", "Bar", "four", "Five"];
    assert b[..4][..3] == b[..3];
    assert Concat(b[..4]) == ["OK", "x", "Bar", "four", "Five", "", "forty"];
    assert b[..5][..4] == b[..4];
    assert b[..5] == b;
  }

  /** With the test buckets no lower-case word has length 2, so `randomWord(2)` throws. */
  lemma TestDictionaryLengthTwo(draws: seq<int>)
    requires HasSelectionKeys(TestWordList())
    ensures RandomWordSpec(TestWordList(), 2, draws) == NoWordsOfLength
  {
    TestBuckets();
    assert ToLower("OK")[0] == 'o';
    RandomWordFailsIff(TestWordList(), 2, draws);
  }

  /**
   * With the test buckets length 0 has one eligible word, "", so
   * `randomWord(0)` returns "" as soon as a draw lands on it (index 5).
   */
  lemma TestDictionaryLengthZero(draws: seq<int>)
    requires HasSelectionKeys(TestWordList()) && DrawsInRange(TestWordList(), draws)
    ensures RandomWordSpec(TestWordList(), 0, draws) in {Chosen(""), OutOfDraws}
    ensures 5 in draws ==> RandomWordSpec(TestWordList(), 0, draws) == Chosen("")
  {
    TestBuckets();
    assert Eligible("", 0);
    assert ToUpper("") == "";
    SelectsOnlyCandidate(TestWordList(), 0, draws, 5);
  }

  /** Likewise `randomWord(1)` can only return "X", from "x" at index 1. */
  lemma TestDictionaryLengthOne(draws: seq<int>)
    requires HasSelectionKeys(TestWordList()) && DrawsInRange(TestWordList(), draws)
    ensures RandomWordSpec(TestWordList(), 1, draws) in {Chosen("X"), OutOfDraws}
    ensures 1 in draws ==> RandomWordSpec(TestWordList(), 1, draws) == Chosen("X")
  {
    TestBuckets();
    assert Eligible("x", 1) by { assert ToLower("x") == "x"; }
    assert ToUpper("x") == "X";
    SelectsOnlyCandidate(TestWordList(), 1, draws, 1);
  }

  /** Likewise `randomWord(3)` can only return "FOO", from "foo" at index 7: "Bar" is not lower-case. */
  lemma TestDictionaryLengthThree(draws: seq<int>)
    requires HasSelectionKeys(TestWordList()) && DrawsInRange(TestWordList(), draws)
    ensures RandomWordSpec(TestWordList(), 3, draws) in {Chosen("FOO"), OutOfDraws}
    ensures 7 in draws ==> RandomWordSpec(TestWordList(), 3, draws) == Chosen("FOO")
  {
    TestBuckets();
    assert ToLower("Bar")[0] == 'b';
    assert Eligible("foo", 3) by { assert ToLower("foo") == "foo"; }
    assert ToUpper("foo") == "FOO";
    SelectsOnlyCandidate(TestWordList(), 3, draws, 7);
  }

  /** Likewise `randomWord(4)` can only return "FOUR", from "four" at index 3: "Five" is not lower-case. */
  lemma TestDictionaryLengthFour(draws: seq<int>)
    requires HasSelectionKeys(TestWordList()) && DrawsInRange(TestWordList(), draws)
    ensures RandomWordSpec(TestWordList(), 4, draws) in {Chosen("FOUR"), OutOfDraws}
    ensures 3 in draws ==> RandomWordSpec(TestWordList(), 4, draws) == Chosen("FOUR")
  {
    TestBuckets();
    assert ToLower("Five")[0] == 'f';
    assert Eligible("four", 4) by { assert ToLower("four") == "four"; }
    assert ToUpper("four") == "FOUR";
    SelectsOnlyCandidate(TestWordList(), 4, draws, 3);
  }
}
