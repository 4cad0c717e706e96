/**
 * The JavaScript string operations the game relies on: `toLowerCase`,
 * `toUpperCase` (ASCII letters only), `split(' ')` and the relational
 * operator `<` on strings (lexicographic on characters).
 */
module JsString {

  predicate IsUpperAscii(c: char) { 'A' <= c <= 'Z' }

  predicate IsLowerAscii(c: char) { 'a' <= c <= 'z' }

  function LowerChar(c: char): char {
    if IsUpperAscii(c) then (c as int + 32) as char else c
  }

  function UpperChar(c: char): char {
    if IsLowerAscii(c) then (c as int - 32) as char else c
  }

  /** `s.toLowerCase()` */
  function ToLower(s: string): string {
    seq(|s|, i requires 0 <= i < |s| => LowerChar(s[i]))
  }

  /** `s.toUpperCase()` */
  function ToUpper(s: string): string {
    seq(|s|, i requires 0 <= i < |s| => UpperChar(s[i]))
  }

  /** A string equals its own lower-case form exactly when it holds no capital letter. */
  lemma LowerFixedIff(s: string)
    ensures ToLower(s) == s <==> forall i :: 0 <= i < |s| ==> !IsUpperAscii(s[i])
  {
    if ToLower(s) == s {
      forall i | 0 <= i < |s| ensures !IsUpperAscii(s[i]) {
        assert ToLower(s)[i] == s[i];
      }
    }
  }

  /** Lower-casing after upper-casing gives the lower-case form: `toLowerCase` ignores case. */
  lemma LowerOfUpper(s: string)
    ensures ToLower(ToUpper(s)) == ToLower(s)
  {
    assert forall i :: 0 <= i < |s| ==> ToLower(ToUpper(s))[i] == ToLower(s)[i];
  }

  /**
   * `s.split(' ')`: the maximal runs of non-space characters between
   * spaces, empty runs included; there is always at least one token.
   */
  function Split(s: string): (tokens: seq<string>)
    ensures |tokens| >= 1
    decreases |s|
  {
    if s == [] then [""]
    else if s[0] == ' ' then [""] + Split(s[1..])
    else
      var rest := Split(s[1..]);
      [[s[0]] + rest[0]] + rest[1..]
  }

  /** `tokens.join(' ')`, the inverse of `Split`. */
  function Join(tokens: seq<string>): string
    decreases |tokens|
  {
    if |tokens| == 0 then ""
    else if |tokens| == 1 then tokens[0]
    else tokens[0] + " " + Join(tokens[1..])
  }

  /** Joining the tokens of `split(' ')` with single spaces gives back the string. */
  lemma {:induction false} JoinSplit(s: string)
    ensures Join(Split(s)) == s
    decreases |s|
  {
    if s == [] {
    } else if s[0] == ' ' {
      JoinSplit(s[1..]);
      assert s == [' '] + s[1..];
    } else {
      var rest := Split(s[1..]);
      JoinSplit(s[1..]);
      if |rest| == 1 {
        assert s == [s[0]] + rest[0];
      } else {
        assert rest == [rest[0]] + rest[1..];
        assert Join(rest) == rest[0] + " " + Join(rest[1..]);
        assert s == [s[0]] + s[1..];
      }
    }
  }

  /** No token of `split(' ')` holds a space. */
  lemma {:induction false} SplitTokensSpaceFree(s: string)
    ensures forall k :: 0 <= k < |Split(s)| ==> ' ' !in Split(s)[k]
    decreases |s|
  {
    if s != [] {
      SplitTokensSpaceFree(s[1..]);
      if s[0] != ' ' {
        var rest := Split(s[1..]);
        assert ' ' !in rest[0];
        assert forall c :: c in [s[0]] + rest[0] ==> c == s[0] || c in rest[0];
      }
    }
  }

  /** A string without a space splits into itself alone. */
  lemma {:induction false} SplitSpaceFree(s: string)
    requires ' ' !in s
    ensures Split(s) == [s]
    decreases |s|
  {
    if s != [] {
      assert ' ' !in s[1..] by {
        forall c | c in s[1..] ensures c != ' ' { assert c in s; }
      }
      SplitSpaceFree(s[1..]);
      assert s == [s[0]] + s[1..];
    }
  }

  /** `a < b` on JavaScript strings: lexicographic, a proper prefix is smaller. */
  predicate LexLess(a: string, b: string)
    decreases |a|
  {
    if b == [] then false
    else if a == [] then true
    else if a[0] != b[0] then a[0] < b[0]
    else LexLess(a[1..], b[1..])
  }
}
