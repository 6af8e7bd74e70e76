/**
 * The pure decision functions of app/main.py: the keyword tests
 * is_personal_query and looks_personal_memory, and smart_reply, the ordered
 * decision list that answers from the user's mood, a recalled memory, or a
 * conversational fallback, using what the profile knows.
 *
 * smart_reply reads the profile itself; here the rows it would read (newest
 * first) are a parameter.
 */
module Reply {
  import opened Wrappers
  import opened Text
  import opened Store

  const PersonalQueryKeywords: seq<string> := [
    "despre mine", "despre tine", "îți amintești", "iti amintesti",
    "eu", "mie", "mie îmi", "ce știi despre mine", "ce stii despre mine"
  ]

  const PersonalMemoryPatterns: seq<string> := [
    "imi ", "îmi ", "am ", "m-am", "prefer", "plac", "îmi place", "imi place"
  ]

  const PositiveMoods: seq<string> := ["bine", "fericit", "super", "excelent", "perfect"]
  const NegativeMoods: seq<string> := ["obosit", "trist", "plictisit", "stresat", "rau", "nervos"]

  const BotPersonality: string := "empatic, curios și atent, dar concis"

  /** Python's `any(k in text for k in keys)`. */
  predicate AnyIn(text: string, keys: seq<string>) {
    exists k :: 0 <= k < |keys| && Contains(text, keys[k])
  }

  /** is_personal_query: the lower-cased text mentions one of the personal-question keywords. */
  predicate IsPersonalQuery(text: string) {
    AnyIn(Lower(text), PersonalQueryKeywords)
  }

  /** looks_personal_memory: the lower-cased text has one of the first-person patterns. */
  predicate LooksPersonalMemory(text: string) {
    AnyIn(Lower(text), PersonalMemoryPatterns)
  }

  /** A hobby or preference row, the kinds `known_likes` collects. */
  predicate IsLike(r: ProfileRow) {
    r.category == "hobby" || r.category == "preferinta"
  }

  /** `known_likes`: the infos of the hobby and preference rows, in the order given. */
  function KnownLikes(profile: seq<ProfileRow>): (likes: seq<string>)
    ensures |likes| <= |profile|
    ensures forall s :: s in likes ==> exists r :: r in profile && r.info == s && IsLike(r)
  {
    if profile == [] then []
    else
      var rest := KnownLikes(profile[1..]);
      assert forall r :: r in profile[1..] ==> r in profile;
      (if IsLike(profile[0]) then [profile[0].info] else []) + rest
  }

  /** Every hobby and preference row is among the likes. */
  lemma {:induction false} KnownLikesComplete(profile: seq<ProfileRow>)
    ensures forall i :: 0 <= i < |profile| && IsLike(profile[i]) ==> profile[i].info in KnownLikes(profile)
  {
    if profile != [] {
      var rest := KnownLikes(profile[1..]);
      var likes := KnownLikes(profile);
      assert likes == (if IsLike(profile[0]) then [profile[0].info] else []) + rest;
      KnownLikesComplete(profile[1..]);
      forall i | 0 <= i < |profile| && IsLike(profile[i])
        ensures profile[i].info in likes
      {
        if i == 0 {
          assert likes[0] == profile[0].info;
        } else {
          assert profile[i] == profile[1..][i - 1];
          assert profile[i].info in rest;
        }
      }
    }
  }

  /** The first like is the info of the first hobby or preference row. */
  lemma {:induction false} KnownLikesFirst(profile: seq<ProfileRow>, i: nat)
    requires i < |profile| && IsLike(profile[i])
    requires forall j :: 0 <= j < i ==> !IsLike(profile[j])
    ensures KnownLikes(profile) != [] && KnownLikes(profile)[0] == profile[i].info
  {
    var rest := KnownLikes(profile[1..]);
    if i > 0 {
      assert !IsLike(profile[0]);
      assert KnownLikes(profile) == rest;
      forall j | 0 <= j < i - 1
        ensures !IsLike(profile[1..][j])
      {
        assert profile[1..][j] == profile[j + 1];
      }
      KnownLikesFirst(profile[1..], i - 1);
    }
  }

  /** `known_location`: the info of the first location row, if any. */
  function KnownLocation(profile: seq<ProfileRow>): (loc: Option<string>)
    ensures loc.None? <==> forall r :: r in profile ==> r.category != "loc"
    ensures loc.Some? ==> exists i :: 0 <= i < |profile| && profile[i].category == "loc"
                                      && profile[i].info == loc.value
                                      && forall j :: 0 <= j < i ==> profile[j].category != "loc"
  {
    if profile == [] then None
    else if profile[0].category == "loc" then Some(profile[0].info)
    else
      var rest := KnownLocation(profile[1..]);
      assert forall r :: r in profile ==> r == profile[0] || r in profile[1..];
      rest
  }

  /** The distinct whitespace-separated words of a text. */
  function WordSet(s: string): set<string> {
    set w | w in Split(s)
  }

  /** `len(set(a.lower().split()) & set(b.lower().split()))`. */
  function SharedWords(a: string, b: string): nat {
    |WordSet(Lower(a)) * WordSet(Lower(b))|
  }

  /** `fuzzy_score or 0`. */
  function ScoreOrZero(score: Option<real>): real {
    if score.Some? then score.value else 0.0
  }

  const Clarification: string := "Nu cred că te refereai la asta. Poți detalia puțin mai clar?"
  const GladPlain: string := "Mă bucur să aud că ești bine! 😊"
  const SorryCoffee: string := "Îmi pare rău că te simți așa... Poate o cafea bună te-ar ajuta puțin ☕"
  const SorryPlain: string := "Îmi pare rău că te simți așa... Dacă vrei, putem vorbi puțin. 💬"

  function GladWithLike(like: string): string {
    "Mă bucur să aud asta! Poate mai târziu te bucuri și de puțin " + like + " 😄"
  }

  function SorryWalk(location: string): string {
    "Îmi pare rău să aud asta... Poate o plimbare prin " + location + " ți-ar prinde bine. 🌳"
  }

  /** The replies of the mood branches. */
  ghost predicate IsMoodReply(r: string) {
    || r == GladPlain || r == SorryCoffee || r == SorryPlain
    || (exists like :: r == GladWithLike(like))
    || (exists location :: r == SorryWalk(location))
  }

  /** The memory branch, once the match is known to be relevant. */
  function RecallReply(m: string, fuzzyScore: Option<real>): string {
    if Contains(m, "imi place") || Contains(m, "îmi place") then
      "Îmi amintesc că ți-a plăcut când ai spus: '" + m + "'. ☕ Încă îți mai place la fel de mult?"
    else if Contains(m, "am fost") || Contains(m, "am iesit") then
      "Îmi amintesc când ai spus: '" + m + "'. A fost o zi frumoasă?"
    else if Contains(m, "am mancat") then
      "Îmi amintesc că ai spus '" + m + "'. Ți-a plăcut?"
    else if fuzzyScore.Some? && fuzzyScore.value != 0.0 && fuzzyScore.value > 60.0 then
      "Cred că te referi la ceva ce mi-ai spus: '" + m + "'. 😊"
    else
      "Îmi amintesc: " + m
  }

  /** The conversational fallback on the lower-cased text. */
  function Fallback(text: string): string {
    if Contains(text, "ce faci") then "Lucrez la procesarea cererilor tale 😄 Tu ce faci?"
    else if Contains(text, "cum esti") then "Sunt bine, mulțumesc! Mă bucur că vorbim."
    else if Contains(text, "salut") || Contains(text, "buna") then "Salut din nou! Ce mai e nou la tine?"
    else if Contains(text, "nu") then "Am înțeles, nicio problemă. 😊"
    else if Contains(text, "da") then "Mă bucur să aud asta! 😄"
    else "Încă învăț să gândesc mai complex. Țin minte că sunt " + BotPersonality
         + ". Povestește-mi ceva despre tine!"
  }

  /** smart_reply(user_text, memory_match, fuzzy_score), with the profile rows newest first.
      A memory match counts only when it is a non-empty string, as Python's truth test has it. */
  function SmartReply(userText: string, memoryMatch: Option<string>, fuzzyScore: Option<real>,
                      profile: seq<ProfileRow>): string
  {
    var likes := KnownLikes(profile);
    var location := KnownLocation(profile);
    var text := Lower(userText);
    if AnyIn(text, PositiveMoods) then
      (if likes != [] then GladWithLike(likes[0]) else GladPlain)
    else if AnyIn(text, NegativeMoods) then
      (if Contains(Lower(Join(" ", likes)), "cafea") then SorryCoffee
       else if location.Some? && location.value != [] then SorryWalk(location.value)
       else SorryPlain)
    else if memoryMatch.Some? && memoryMatch.value != [] then
      (if SharedWords(userText, memoryMatch.value) < 2 && ScoreOrZero(fuzzyScore) < 70.0 then Clarification
       else RecallReply(memoryMatch.value, fuzzyScore))
    else Fallback(text)
  }

  /** A positive mood word wins over everything else, the memory match included. */
  lemma PositiveMoodFirst(userText: string, memoryMatch: Option<string>, fuzzyScore: Option<real>,
                          profile: seq<ProfileRow>)
    requires AnyIn(Lower(userText), PositiveMoods)
    ensures KnownLikes(profile) != [] ==>
              SmartReply(userText, memoryMatch, fuzzyScore, profile) == GladWithLike(KnownLikes(profile)[0])
    ensures KnownLikes(profile) == [] ==> SmartReply(userText, memoryMatch, fuzzyScore, profile) == GladPlain
    ensures SmartReply(userText, memoryMatch, fuzzyScore, profile) == SmartReply(userText, None, None, profile)
  {
  }

  /** Without a positive mood, a negative one gets one of the sympathetic replies whatever the
      memory match: the coffee one when the liked things mention coffee, else a walk through
      the known location, else the plain one. */
  lemma NegativeMoodSecond(userText: string, memoryMatch: Option<string>, fuzzyScore: Option<real>,
                           profile: seq<ProfileRow>)
    requires !AnyIn(Lower(userText), PositiveMoods) && AnyIn(Lower(userText), NegativeMoods)
    ensures IsMoodReply(SmartReply(userText, memoryMatch, fuzzyScore, profile))
    ensures SmartReply(userText, memoryMatch, fuzzyScore, profile) == SmartReply(userText, None, None, profile)
    ensures Contains(Lower(Join(" ", KnownLikes(profile))), "cafea") ==>
              SmartReply(userText, memoryMatch, fuzzyScore, profile) == SorryCoffee
    ensures !Contains(Lower(Join(" ", KnownLikes(profile))), "cafea")
            && KnownLocation(profile).Some? && KnownLocation(profile).value != [] ==>
              SmartReply(userText, memoryMatch, fuzzyScore, profile) == SorryWalk(KnownLocation(profile).value)
    ensures !Contains(Lower(Join(" ", KnownLikes(profile))), "cafea")
            && (KnownLocation(profile).None? || KnownLocation(profile).value == []) ==>
              SmartReply(userText, memoryMatch, fuzzyScore, profile) == SorryPlain
    ensures KnownLikes(profile) == [] && KnownLocation(profile).None? ==>
              SmartReply(userText, memoryMatch, fuzzyScore, profile) == SorryPlain
  {
    if KnownLikes(profile) == [] {
      assert Join(" ", KnownLikes(profile)) == [];
      assert !Contains(Lower([]), "cafea");
    }
  }

  /** With no mood word, a relevant-looking memory that shares fewer than two words with the
      message and has a fuzzy score below 70 (none counting as 0) gets the clarifying question. */
  lemma ClarifiesWeakMatch(userText: string, m: string, fuzzyScore: Option<real>, profile: seq<ProfileRow>)
    requires !AnyIn(Lower(userText), PositiveMoods) && !AnyIn(Lower(userText), NegativeMoods)
    requires m != [] && SharedWords(userText, m) < 2
    requires fuzzyScore.None? || fuzzyScore.value < 70.0
    ensures SmartReply(userText, Some(m), fuzzyScore, profile) == Clarification
  {
  }

  /** An empty memory match is no match: the reply is the same as with none. */
  lemma EmptyMatchIsNoMatch(userText: string, fuzzyScore: Option<real>, profile: seq<ProfileRow>)
    ensures SmartReply(userText, Some(""), fuzzyScore, profile) == SmartReply(userText, None, None, profile)
  {
  }

  /** With no mood word and no match, the reply does not depend on the profile. */
  lemma FallbackIgnoresProfile(userText: string, p1: seq<ProfileRow>, p2: seq<ProfileRow>)
    requires !AnyIn(Lower(userText), PositiveMoods) && !AnyIn(Lower(userText), NegativeMoods)
    ensures SmartReply(userText, None, None, p1) == SmartReply(userText, None, None, p2)
  {
  }
}
