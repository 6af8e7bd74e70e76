/**
 * The canned-reply matcher of app/patterns.py: three whole-word alternations
 * `\b(w1|w2|...)\b`, tried in order; the first one that matches anywhere in
 * the text answers with one of its responses.
 *
 * `random.choice` becomes a `choice` index supplied by the caller.
 */
module Patterns {
  import opened Wrappers

  /** A compiled `\b(...)\b` alternation and the responses it may give. */
  datatype Pattern = Pattern(words: seq<string>, responses: seq<string>)

  const GreetingWords: seq<string> := ["salut", "buna", "hello", "hi"]
  const ThanksWords: seq<string> := ["multumesc", "merci", "thanks", "thank"]
  const IdentityWords: seq<string> := ["cine esti", "what are you"]

  const GreetingResponses: seq<string> := ["Salut!", "Bună, eu sunt BODAI."]
  const ThanksResponses: seq<string> := ["Cu plăcere!", "Oricând."]
  const IdentityResponse: string := "Sunt BODAI, asistentul tău personal."

  /** The `patterns` list; `thanks?` is spelt out as its two words. */
  const Patterns: seq<Pattern> := [
    Pattern(GreetingWords, GreetingResponses),
    Pattern(ThanksWords, ThanksResponses),
    Pattern(IdentityWords, [IdentityResponse])
  ]

  /** A word character for `\b`: ASCII letters and digits, `_`, and the letters of the
      Latin-1 and Latin Extended-A/B blocks. */
  predicate IsWordChar(c: char) {
    || 'a' <= c <= 'z' || 'A' <= c <= 'Z' || '0' <= c <= '9' || c == '_'
    || ('\U{C0}' <= c <= '\U{24F}' && c != '\U{D7}' && c != '\U{F7}')
  }

  /** `\b` at position `i`: a word character on exactly one side. */
  predicate Boundary(s: string, i: int)
    requires 0 <= i <= |s|
  {
    (i > 0 && IsWordChar(s[i - 1])) != (i < |s| && IsWordChar(s[i]))
  }

  /** `\bw\b` matches at position `i` of `s`. */
  predicate WordAt(s: string, w: string, i: int) {
    0 <= i && i + |w| <= |s| && s[i..i + |w|] == w && Boundary(s, i) && Boundary(s, i + |w|)
  }

  /** `regex.search(s)` for `\b(words[0]|words[1]|...)\b`. */
  predicate Searches(s: string, words: seq<string>) {
    exists k, i :: 0 <= k < |words| && 0 <= i <= |s| && WordAt(s, words[k], i)
  }

  /** Every pattern has at least one response, so `random.choice` never fails. */
  predicate HasResponses(ps: seq<Pattern>) {
    forall j :: 0 <= j < |ps| ==> ps[j].responses != []
  }

  /** The first pattern of `ps` whose alternation matches `s` answers; none if none matches. */
  function FirstMatch(s: string, ps: seq<Pattern>, choice: nat): (r: Option<string>)
    requires HasResponses(ps)
    ensures r.None? <==> forall j :: 0 <= j < |ps| ==> !Searches(s, ps[j].words)
    ensures r.Some? ==> exists j :: 0 <= j < |ps| && Searches(s, ps[j].words)
                                    && (forall l :: 0 <= l < j ==> !Searches(s, ps[l].words))
                                    && r.value in ps[j].responses
  {
    if ps == [] then None
    else if Searches(s, ps[0].words) then Some(ps[0].responses[choice % |ps[0].responses|])
    else
      var r := FirstMatch(s, ps[1..], choice);
      assert forall j :: 1 <= j < |ps| ==> ps[j] == ps[1..][j - 1];
      r
  }

  /** match_pattern. */
  function MatchPattern(text: string, choice: nat): (r: Option<string>)
    ensures r.None? <==> forall j :: 0 <= j < |Patterns| ==> !Searches(text, Patterns[j].words)
  {
    FirstMatch(text, Patterns, choice)
  }

  /** A greeting wins over everything after it, thanks included. */
  lemma GreetingTakesPrecedence(text: string, choice: nat)
    requires Searches(text, GreetingWords)
    ensures MatchPattern(text, choice).Some?
    ensures MatchPattern(text, choice).value in GreetingResponses
  {
  }

  /** Thanks answer only when no greeting word occurs. */
  lemma ThanksAnswer(text: string, choice: nat)
    requires !Searches(text, GreetingWords) && Searches(text, ThanksWords)
    ensures MatchPattern(text, choice).Some?
    ensures MatchPattern(text, choice).value in ThanksResponses
  {
    assert MatchPattern(text, choice) == FirstMatch(text, Patterns[1..], choice);
  }

  /** The identity question always gets the single identity response. */
  lemma IdentityAnswer(text: string, choice: nat)
    requires !Searches(text, GreetingWords) && !Searches(text, ThanksWords)
    requires Searches(text, IdentityWords)
    ensures MatchPattern(text, choice) == Some(IdentityResponse)
  {
    assert MatchPattern(text, choice) == FirstMatch(text, Patterns[1..], choice);
    assert Patterns[1..][1..] == [Pattern(IdentityWords, [IdentityResponse])];
  }

  /** Whole-word matching: "hi" inside "chip" is not a greeting, and "chip" matches nothing. */
  lemma ChipIsNoGreeting(choice: nat)
    ensures !Searches("chip", GreetingWords)
    ensures MatchPattern("chip", choice) == None
  {
    var s := "chip";
    forall k, i | 0 <= k < |GreetingWords| && 0 <= i <= |s| ensures !WordAt(s, GreetingWords[k], i) {
      if i == 1 && k == 3 {
        assert IsWordChar(s[0]);
      }
    }
    forall k, i | 0 <= k < |ThanksWords| && 0 <= i <= |s| ensures !WordAt(s, ThanksWords[k], i) {
    }
    forall k, i | 0 <= k < |IdentityWords| && 0 <= i <= |s| ensures !WordAt(s, IdentityWords[k], i) {
    }
  }

  /** A text with both a greeting and a thanks gets a greeting response. */
  lemma HelloThanks(choice: nat)
    ensures MatchPattern("thanks, hello", choice).Some?
    ensures MatchPattern("thanks, hello", choice).value in GreetingResponses
  {
    assert WordAt("thanks, hello", "hello", 8);
    assert Searches("thanks, hello", GreetingWords) by {
      assert GreetingWords[2] == "hello";
    }
  }
}
