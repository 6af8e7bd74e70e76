/**
 * The `/chat` endpoint of app/main.py: a strict priority chain that either
 * learns something (a memory, a profile fact), forgets memories, or answers
 * from the canned patterns and phrases, the profile, the memories (TF-IDF, then
 * fuzzy matching) or the knowledge base, and finally falls back on smart_reply.
 *
 * The database is a `Store` value passed in and returned; the conversation log
 * is the `ContextMemory` object of the context module. The fuzzy scorer
 * (`fuzz.partial_ratio`), the float maths and `random.choice` come in an `Env`.
 */
module Chat {
  import opened Wrappers
  import opened Text
  import opened TfIdf
  import opened Context
  import opened Patterns
  import opened Store
  import opened Reply

  // ---------------------------------------------------------------------
  // Inputs, outputs and constants
  // ---------------------------------------------------------------------

  /** What the chain needs from outside: the float maths, the fuzzy scorer
      (rapidfuzz's `fuzz.partial_ratio`, unconstrained here) and the index `random.choice` picks. */
  datatype Env = Env(maths: Maths, fuzz: (string, string) -> real, choice: nat)

  /** One item of data/knowledge.json: `{"q": question, "a": answer}`. */
  datatype KbEntry = KbEntry(question: string, answer: string)

  /** The knowledge base and the TF-IDF model built over its questions at start-up. */
  datatype KnowledgeBase = KnowledgeBase(entries: seq<KbEntry>, vocab: map<string, int>,
                                         df: map<string, nat>, n: nat,
                                         vectors: seq<map<string, real>>)

  /** The HTTP error the endpoint raises. */
  datatype Rejection = Rejection(status: nat, detail: string)

  /** The reply of one message and the database after it. */
  datatype Outcome = Outcome(reply: string, store: Store)

  /** A finished best-match loop: `best_idx` (None when no score beat the start) and `best_score`. */
  datatype Pick = Pick(index: Option<nat>, score: real)

  /** A profile trigger that fired: the trigger, its category and the stripped rest of the message. */
  datatype Fact = Fact(trigger: string, category: string, info: string)

  const EmptyMessage: Rejection := Rejection(400, "Mesajul este gol.")

  const MemoriseTriggers: seq<string> := ["tine minte ca", "noteaza ca", "salveaza ca"]

  /** `personal_triggers`, in their listed order. */
  const ProfileTriggers: seq<(string, string)> := [
    ("imi place", "hobby"), ("îmi place", "hobby"),
    ("prefer", "preferinta"), ("locuiesc in", "loc"),
    ("sunt din", "loc"), ("ma numesc", "identitate"),
    ("lucrez ca", "profesie")
  ]

  /** The `conversational` dictionary, in insertion order. */
  const Conversational: seq<(string, string)> := [
    ("salut", "Bună, eu sunt BODAI."),
    ("buna", "Salut! Ce mai faci?"),
    ("ce faci", "Sunt bine, tu ce faci?"),
    ("cum esti", "Sunt bine, mulțumesc! Tu?"),
    ("cine esti", "Sunt BODAI, asistentul tău personal.")
  ]

  const MemoryCosineThreshold: real := 0.05
  const MemoryFuzzyThreshold: real := 50.0
  const KbCosineThreshold: real := 0.15
  const ForgetThreshold: real := 70.0

  const AskWhatToRemember: string := "Spune-mi exact ce vrei să țin minte."
  const AskWhatToForget: string := "Spune-mi ce vrei să uit."
  const NothingToForget: string := "Nu am găsit nimic de uitat."
  const ProfileUnknown: string := "Încă nu știu prea multe despre tine. " + "Spune-mi ce îți place sau unde locuiești. 🙂"

  // ---------------------------------------------------------------------
  // Selection: the best-match loops and the list filters
  // ---------------------------------------------------------------------

  /** The outcome of a best-match loop started at `best_score = 0`: the first index whose
      score is strictly greater than all scores before it and at least all scores after it,
      or none when no score is positive. */
  function Best(scores: seq<real>): (p: Pick)
    ensures p.index.None? <==> forall j :: 0 <= j < |scores| ==> scores[j] <= 0.0
    ensures p.index.None? ==> p.score == 0.0
    ensures p.index.Some? ==> p.index.value < |scores| && p.score == scores[p.index.value] > 0.0
    ensures p.index.Some? ==> forall j :: 0 <= j < p.index.value ==> scores[j] < p.score
    ensures p.index.Some? ==> forall j :: p.index.value < j < |scores| ==> scores[j] <= p.score
  {
    if scores == [] then Pick(None, 0.0)
    else
      var p := Best(scores[..|scores| - 1]);
      var s := scores[|scores| - 1];
      if s > p.score then Pick(Some(|scores| - 1), s) else p
  }

  /** A list comprehension `[x for x in s if keep(x)]`. */
  function Filter<T>(s: seq<T>, keep: T -> bool): (r: seq<T>)
    ensures |r| <= |s|
  {
    if s == [] then []
    else Filter(s[..|s| - 1], keep) + (if keep(s[|s| - 1]) then [s[|s| - 1]] else [])
  }

  /** The filter keeps exactly the elements that pass the test. */
  lemma {:induction false} FilterMembers<T>(s: seq<T>, keep: T -> bool)
    ensures forall i :: 0 <= i < |Filter(s, keep)| ==> Filter(s, keep)[i] in s && keep(Filter(s, keep)[i])
    ensures forall i :: 0 <= i < |s| && keep(s[i]) ==> s[i] in Filter(s, keep)
  {
    if s != [] {
      var front := s[..|s| - 1];
      FilterMembers(front, keep);
      assert forall x :: x in front ==> x in s;
      assert forall i :: 0 <= i < |front| ==> front[i] == s[i];
    }
  }

  /** Filtering distributes over concatenation: the kept elements stay in their order. */
  lemma {:induction false} FilterAppend<T>(a: seq<T>, b: seq<T>, keep: T -> bool)
    ensures Filter(a + b, keep) == Filter(a, keep) + Filter(b, keep)
    decreases |b|
  {
    if b != [] {
      var b' := b[..|b| - 1];
      assert (a + b)[..|a + b| - 1] == a + b';
      FilterAppend(a, b', keep);
    } else {
      assert a + b == a;
    }
  }

  /** A filter and its complement split the list between them. */
  lemma {:induction false} FilterSplits<T>(s: seq<T>, keep: T -> bool, drop: T -> bool)
    requires forall x :: keep(x) == !drop(x)
    ensures |Filter(s, keep)| + |Filter(s, drop)| == |s|
  {
    if s != [] {
      FilterSplits(s[..|s| - 1], keep, drop);
    }
  }

  /** Memory texts, `[r[1] for r in rows]`. */
  function Texts(rows: seq<Memory>): (ts: seq<string>)
    ensures |ts| == |rows|
  {
    seq(|rows|, i requires 0 <= i < |rows| => rows[i].text)
  }

  /** A filtered table keeps the primary-key property. */
  lemma {:induction false} FilterKeepsIds(s: seq<Memory>, keep: Memory -> bool, next: nat)
    requires forall i :: 0 <= i < |s| ==> s[i].id < next
    requires forall i, j :: 0 <= i < j < |s| ==> s[i].id != s[j].id
    ensures ValidStore(Store([], [], next).(memories := Filter(s, keep)))
  {
    var r := Filter(s, keep);
    FilterMembers(s, keep);
    forall k | 0 <= k < |r| ensures r[k].id < next {
      var j :| 0 <= j < |s| && s[j] == r[k];
    }
    if s != [] {
      var front := s[..|s| - 1];
      FilterKeepsIds(front, keep, next);
      var r' := Filter(front, keep);
      FilterMembers(front, keep);
      forall k | 0 <= k < |r'| ensures r'[k].id != s[|s| - 1].id {
        var j :| 0 <= j < |front| && front[j] == r'[k];
      }
    }
  }

  // ---------------------------------------------------------------------
  // Stage 0: memorise, learn a profile fact, forget
  // ---------------------------------------------------------------------

  /** `remove_diacritics(user_text.lower())`. */
  function Normalise(user: string): string {
    WithoutDiacritics(Lower(user))
  }

  /** `s.startswith(tuple(prefixes))`. */
  predicate StartsWithAny(s: string, prefixes: seq<string>) {
    exists k :: 0 <= k < |prefixes| && StartsWith(s, prefixes[k])
  }

  /** The memorise command: the text after the first "ca" of the message, stripped,
      becomes a memory when it is not empty. */
  function Memorise(user: string, st: Store): (o: Outcome)
    requires ValidStore(st)
    ensures ValidStore(o.store) && o.store.profile == st.profile
    ensures o.store != st ==> exists info :: info != [] && o.store.memories == st.memories + [Memory(st.nextMemoryId, info)]
  {
    var info := Strip(After(user, "ca"));
    if info != [] then Outcome("Am notat: " + info, AddMemory(st, info))
    else Outcome(AskWhatToRemember, st)
  }

  /** A profile trigger fires when it occurs in the normalised text and the original
      text after its first occurrence is not blank (every trigger is a non-empty word). */
  predicate Learns(norm: string, user: string, trigger: string) {
    trigger != [] && Contains(norm, trigger) && Strip(After(user, trigger)) != []
  }

  /** The loop over `personal_triggers` from position `from` on: the position of the first
      trigger, in list order, that fires. */
  function FirstTrigger(norm: string, user: string, triggers: seq<(string, string)>, from: nat)
    : (k: Option<nat>)
    requires from <= |triggers|
    ensures k.None? <==> forall j :: from <= j < |triggers| ==> !Learns(norm, user, triggers[j].0)
    ensures k.Some? ==> && from <= k.value < |triggers| && Learns(norm, user, triggers[k.value].0)
                        && forall l :: from <= l < k.value ==> !Learns(norm, user, triggers[l].0)
    decreases |triggers| - from
  {
    if from == |triggers| then None
    else if Learns(norm, user, triggers[from].0) then Some(from)
    else FirstTrigger(norm, user, triggers, from + 1)
  }

  /** The fact the first firing trigger records: its category, and the stripped original
      text after the trigger's first occurrence. */
  function FirstFact(norm: string, user: string, triggers: seq<(string, string)>): Option<Fact> {
    match FirstTrigger(norm, user, triggers, 0)
    case None => None
    case Some(k) => Some(Fact(triggers[k].0, triggers[k].1, Strip(After(user, triggers[k].0))))
  }

  /** Recording a fact: one profile row, and the confirmation. */
  function LearnFact(f: Fact, st: Store): (o: Outcome)
    ensures o.store.memories == st.memories && o.store.nextMemoryId == st.nextMemoryId
    ensures o.store.profile == st.profile + [ProfileRow(f.category, f.info)]
  {
    Outcome("Am notat în profilul tău că " + f.trigger + " " + f.info + ".",
            AddProfileInfo(st, f.category, f.info))
  }

  /** A memory the forget command removes: its fuzzy score against the description is above 70. */
  function Forgets(fuzz: (string, string) -> real, info: string): Memory -> bool {
    (m: Memory) => fuzz(Lower(info), Lower(m.text)) > ForgetThreshold
  }

  /** A memory the forget command keeps. */
  function Keeps(fuzz: (string, string) -> real, info: string): Memory -> bool {
    (m: Memory) => fuzz(Lower(info), Lower(m.text)) <= ForgetThreshold
  }

  /** The forget command: every memory that scores above 70 against the text after the
      first "ca" is deleted, and the reply lists the deleted texts in table order. */
  function ForgetOutcome(user: string, st: Store, fuzz: (string, string) -> real): (o: Outcome)
    ensures o.store.profile == st.profile && o.store.nextMemoryId == st.nextMemoryId
    ensures |o.store.memories| <= |st.memories|
  {
    var info := Strip(After(user, "ca"));
    if info == [] then Outcome(AskWhatToForget, st)
    else
      var deleted := Texts(Filter(st.memories, Forgets(fuzz, info)));
      Outcome(if deleted == [] then NothingToForget else "Am uitat: " + Join(", ", deleted),
              st.(memories := Filter(st.memories, Keeps(fuzz, info))))
  }

  /** Deleting row `i` of the snapshot `rows` from the table that still holds it after a
      prefix drawn from the earlier rows removes exactly that row. */
  lemma ForgetStep(rows: seq<Memory>, i: nat, front: seq<Memory>)
    requires i < |rows|
    requires forall a, b :: 0 <= a < b < |rows| ==> rows[a].id != rows[b].id
    requires forall k :: 0 <= k < |front| ==> front[k] in rows[..i]
    ensures DeleteMemory(front + rows[i..], rows[i].id) == front + rows[i + 1..]
  {
    EarlierIds(rows, i, front);
    DeleteAfter(front, rows[i..], rows[i].id);
    SuffixIds(rows, i);
    DeleteFirst(rows[i..]);
    assert rows[i..][1..] == rows[i + 1..];
  }

  /** The rows from position `i` on still have distinct ids. */
  lemma SuffixIds(rows: seq<Memory>, i: nat)
    requires i <= |rows|
    requires forall a, b :: 0 <= a < b < |rows| ==> rows[a].id != rows[b].id
    ensures forall a, b :: 0 <= a < b < |rows[i..]| ==> rows[i..][a].id != rows[i..][b].id
  {
    assert forall a :: 0 <= a < |rows[i..]| ==> rows[i..][a] == rows[i + a];
  }

  /** Rows drawn from before position `i` carry ids other than that of row `i`. */
  lemma EarlierIds(rows: seq<Memory>, i: nat, front: seq<Memory>)
    requires i < |rows|
    requires forall a, b :: 0 <= a < b < |rows| ==> rows[a].id != rows[b].id
    requires forall k :: 0 <= k < |front| ==> front[k] in rows[..i]
    ensures forall k :: 0 <= k < |front| ==> front[k].id != rows[i].id
  {
    forall k | 0 <= k < |front| ensures front[k].id != rows[i].id {
      var j :| 0 <= j < i && rows[..i][j] == front[k];
      assert rows[j] == front[k];
    }
  }

  /** One more row of the snapshot through a filter. */
  lemma FilterSnoc(rows: seq<Memory>, i: nat, keep: Memory -> bool)
    requires i < |rows|
    ensures Filter(rows[..i + 1], keep) == Filter(rows[..i], keep) + (if keep(rows[i]) then [rows[i]] else [])
  {
    assert rows[..i + 1][..i] == rows[..i];
  }

  /** A row the forget loop deletes: deleting its id from the table as it stands leaves
      the filtered prefix followed by the unread rows. */
  lemma DropRow(rows: seq<Memory>, i: nat, keep: Memory -> bool, drop: Memory -> bool)
    requires i < |rows|
    requires forall a, b :: 0 <= a < b < |rows| ==> rows[a].id != rows[b].id
    requires drop(rows[i]) && !keep(rows[i])
    ensures DeleteMemory(Filter(rows[..i], keep) + rows[i..], rows[i].id) == Filter(rows[..i + 1], keep) + rows[i + 1..]
    ensures Texts(Filter(rows[..i], drop)) + [rows[i].text] == Texts(Filter(rows[..i + 1], drop))
  {
    FilterSnoc(rows, i, keep);
    FilterSnoc(rows, i, drop);
    FilterMembers(rows[..i], keep);
    ForgetStep(rows, i, Filter(rows[..i], keep));
    TextsSnoc(Filter(rows[..i], drop), rows[i]);
  }

  /** A row the forget loop keeps moves from the unread rows to the filtered prefix. */
  lemma KeepRow(rows: seq<Memory>, i: nat, keep: Memory -> bool, drop: Memory -> bool)
    requires i < |rows|
    requires keep(rows[i]) && !drop(rows[i])
    ensures Filter(rows[..i], keep) + rows[i..] == Filter(rows[..i + 1], keep) + rows[i + 1..]
    ensures Filter(rows[..i], drop) == Filter(rows[..i + 1], drop)
  {
    FilterSnoc(rows, i, keep);
    FilterSnoc(rows, i, drop);
    assert rows[i..] == [rows[i]] + rows[i + 1..];
  }

  lemma TextsSnoc(rows: seq<Memory>, m: Memory)
    ensures Texts(rows + [m]) == Texts(rows) + [m.text]
  {
  }

  /** Every row is either kept or forgotten, by its fuzzy score. */
  lemma Verdict(fuzz: (string, string) -> real, info: string, m: Memory)
    ensures Forgets(fuzz, info)(m) == (fuzz(Lower(info), Lower(m.text)) > ForgetThreshold)
    ensures Keeps(fuzz, info)(m) == !Forgets(fuzz, info)(m)
  {
  }

  /** The forget stage: when the description is not blank, the rows that match it are
      deleted. */
  method Forget(user: string, st: Store, fuzz: (string, string) -> real) returns (reply: string, st': Store)
    requires ValidStore(st)
    ensures Outcome(reply, st') == ForgetOutcome(user, st, fuzz)
    ensures ValidStore(st')
  {
    var info := Strip(After(user, "ca"));
    if info == [] {
      return AskWhatToForget, st;
    }
    var mems, deleted := DeleteMatching(st.memories, info, fuzz);
    reply := if deleted == [] then NothingToForget else "Am uitat: " + Join(", ", deleted);
    st' := st.(memories := mems);
    FilterKeepsIds(st.memories, Keeps(fuzz, info), st.nextMemoryId);
  }

  /** The loop over `search_memories()`: each row whose score is above 70 is deleted by id
      from the table, and its text is collected. */
  method DeleteMatching(rows: seq<Memory>, info: string, fuzz: (string, string) -> real)
    returns (mems: seq<Memory>, deleted: seq<string>)
    requires forall a, b :: 0 <= a < b < |rows| ==> rows[a].id != rows[b].id
    ensures mems == Filter(rows, Keeps(fuzz, info))
    ensures deleted == Texts(Filter(rows, Forgets(fuzz, info)))
  {
    var keep, drop := Keeps(fuzz, info), Forgets(fuzz, info);
    mems := rows;
    deleted := [];
    var i := 0;
    while i < |rows|
      invariant 0 <= i <= |rows|
      invariant mems == Filter(rows[..i], keep) + rows[i..]
      invariant deleted == Texts(Filter(rows[..i], drop))
    {
      var r := rows[i];
      ScanStep(rows, i, info, fuzz);
      if drop(r) {
        mems := DeleteMemory(mems, r.id);
        deleted := deleted + [r.text];
      }
      i := i + 1;
    }
    assert rows[..i] == rows;
  }

  /** One turn of the forget loop, on the table and the collected texts as the loop
      invariant describes them. */
  lemma ScanStep(rows: seq<Memory>, i: nat, info: string, fuzz: (string, string) -> real)
    requires i < |rows|
    requires forall a, b :: 0 <= a < b < |rows| ==> rows[a].id != rows[b].id
    ensures var keep, drop := Keeps(fuzz, info), Forgets(fuzz, info);
            var mems := Filter(rows[..i], keep) + rows[i..];
            var deleted := Texts(Filter(rows[..i], drop));
            && (drop(rows[i]) ==> DeleteMemory(mems, rows[i].id) == Filter(rows[..i + 1], keep) + rows[i + 1..]
                                  && deleted + [rows[i].text] == Texts(Filter(rows[..i + 1], drop)))
            && (!drop(rows[i]) ==> mems == Filter(rows[..i + 1], keep) + rows[i + 1..]
                                   && deleted == Texts(Filter(rows[..i + 1], drop)))
  {
    var keep, drop := Keeps(fuzz, info), Forgets(fuzz, info);
    Verdict(fuzz, info, rows[i]);
    if drop(rows[i]) {
      DropRow(rows, i, keep, drop);
    } else {
      KeepRow(rows, i, keep, drop);
    }
  }

  // ---------------------------------------------------------------------
  // Stages 1 to 2: patterns, canned phrases, the profile question
  // ---------------------------------------------------------------------

  /** The loop over the `conversational` phrases: the reply of the first key, in
      insertion order, that occurs in the normalised text. */
  function Converse(norm: string, phrases: seq<(string, string)>): (r: Option<string>)
    ensures r.None? <==> forall j :: 0 <= j < |phrases| ==> !Contains(norm, phrases[j].0)
    ensures r.Some? ==> exists j :: 0 <= j < |phrases| && Contains(norm, phrases[j].0)
                                    && (forall l :: 0 <= l < j ==> !Contains(norm, phrases[l].0))
                                    && r.value == phrases[j].1
  {
    if phrases == [] then None
    else if Contains(norm, phrases[0].0) then Some(phrases[0].1)
    else
      var r := Converse(norm, phrases[1..]);
      assert forall j :: 1 <= j < |phrases| ==> phrases[j] == phrases[1..][j - 1];
      r
  }

  /** The profile question: "ce stii despre mine" or just "despre mine". */
  predicate AsksAboutProfile(norm: string) {
    Contains(norm, "ce stii despre mine") || Contains(norm, "despre mine")
  }

  /** The five categories the profile summary knows how to phrase. */
  predicate KnownCategory(category: string) {
    category in {"hobby", "loc", "profesie", "preferinta", "identitate"}
  }

  /** The summary phrase of one profile row; rows of any other category are skipped. */
  function SummaryLine(row: ProfileRow): (line: Option<string>)
    ensures line.Some? <==> KnownCategory(row.category)
  {
    if row.category == "hobby" then Some("îți place " + row.info)
    else if row.category == "loc" then Some("locuiești în " + row.info)
    else if row.category == "profesie" then Some("lucrezi ca " + row.info)
    else if row.category == "preferinta" then Some("preferi " + row.info)
    else if row.category == "identitate" then Some("te numești " + row.info)
    else None
  }

  /** The `summary` list: one phrase per row of a known category, in the rows' order. */
  function SummaryLines(rows: seq<ProfileRow>): (lines: seq<string>)
    ensures |lines| <= |rows|
    ensures lines == [] <==> forall i :: 0 <= i < |rows| ==> !KnownCategory(rows[i].category)
    ensures (forall i :: 0 <= i < |rows| ==> KnownCategory(rows[i].category)) ==> |lines| == |rows|
  {
    if rows == [] then []
    else
      var front := rows[..|rows| - 1];
      var lines := SummaryLines(front);
      assert forall i :: 0 <= i < |front| ==> front[i] == rows[i];
      match SummaryLine(rows[|rows| - 1])
      case Some(line) => lines + [line]
      case None => lines
  }

  /** The loop that builds `summary`. */
  method Summarise(rows: seq<ProfileRow>) returns (lines: seq<string>)
    ensures lines == SummaryLines(rows)
  {
    lines := [];
    var i := 0;
    while i < |rows|
      invariant 0 <= i <= |rows|
      invariant lines == SummaryLines(rows[..i])
    {
      assert rows[..i + 1][..i] == rows[..i];
      var line := SummaryLine(rows[i]);
      if line.Some? {
        lines := lines + [line.value];
      }
      i := i + 1;
    }
    assert rows[..i] == rows;
  }

  /** The answer to the profile question, from the rows newest first. */
  function ProfileReply(rows: seq<ProfileRow>): (r: string)
    ensures r == ProfileUnknown <==> rows == []
  {
    if rows == [] then ProfileUnknown
    else
      var head := "Știu despre tine că " + Join(", ", SummaryLines(rows));
      var r := head + ".";
      assert head[0] == 'Ș' && r[0] == head[0];
      assert ProfileUnknown[0] == 'Î';
      r
  }

  // ---------------------------------------------------------------------
  // Stages 3 and 4: memory recall and the knowledge base
  // ---------------------------------------------------------------------

  /** `[tokenize(t) for t in mem_texts]`. */
  function MemoryDocs(rows: seq<Memory>): (docs: seq<seq<string>>)
    ensures |docs| == |rows|
  {
    seq(|rows|, i requires 0 <= i < |rows| => Tokenize(rows[i].text))
  }

  /** `[tokenize(item["q"]) for item in knowledge_base]`. */
  function KbDocs(entries: seq<KbEntry>): (docs: seq<seq<string>>)
    ensures |docs| == |entries|
  {
    seq(|entries|, i requires 0 <= i < |entries| => Tokenize(entries[i].question))
  }

  /** The vector of every document under the TF-IDF model of the corpus they form. */
  function CorpusVectors(docs: seq<seq<string>>, log: real -> real): (vectors: seq<map<string, real>>)
    ensures |vectors| == |docs|
  {
    seq(|docs|, i requires 0 <= i < |docs| => Weights(docs[i], Vocabulary(docs), DocFreqs(docs), |docs|, log))
  }

  /** The cosine of the query against each vector, in order. */
  ghost function CosineScores(query: map<string, real>, vectors: seq<map<string, real>>, sqrt: real -> real)
    : (scores: seq<real>)
    ensures |scores| == |vectors|
  {
    seq(|vectors|, i requires 0 <= i < |vectors| => Cosine(query, vectors[i], sqrt))
  }

  /** The fuzzy score of the lower-cased message against each lower-cased memory, in order. */
  function FuzzyScores(text: string, rows: seq<Memory>, fuzz: (string, string) -> real): (scores: seq<real>)
    ensures |scores| == |rows|
  {
    seq(|rows|, i requires 0 <= i < |rows| => fuzz(text, Lower(rows[i].text)))
  }

  /** looks_personal_memory on a memory row. */
  const Personal: Memory -> bool := (m: Memory) => LooksPersonalMemory(m.text)

  /** The rows the fuzzy pass looks at: only the personal-looking ones for a personal question. */
  function Candidates(user: string, rows: seq<Memory>): (c: seq<Memory>)
    ensures !IsPersonalQuery(user) ==> c == rows
    ensures IsPersonalQuery(user) ==>
              (forall i :: 0 <= i < |c| ==> c[i] in rows && LooksPersonalMemory(c[i].text))
              && (forall i :: 0 <= i < |rows| && LooksPersonalMemory(rows[i].text) ==> rows[i] in c)
  {
    if IsPersonalQuery(user) then
      FilterMembers(rows, Personal);
      Filter(rows, Personal)
    else rows
  }

  /** Stage 3 on a non-empty table: the best TF-IDF match if its cosine is above 0.05, else the
      best fuzzy candidate if its score is above 50, answered through smart_reply; none otherwise. */
  ghost function RecallSpec(user: string, rows: seq<Memory>, profile: seq<ProfileRow>, env: Env)
    : Option<string>
  {
    if rows == [] then None
    else
      var docs := MemoryDocs(rows);
      var query := Weights(Tokenize(user), Vocabulary(docs), DocFreqs(docs), |docs|, env.maths.log);
      var pick := Best(CosineScores(query, CorpusVectors(docs, env.maths.log), env.maths.sqrt));
      if pick.index.Some? && pick.score > MemoryCosineThreshold then
        Some(SmartReply(user, Some(rows[pick.index.value].text), None, profile))
      else
        var candidates := Candidates(user, rows);
        var fuzzy := Best(FuzzyScores(Lower(user), candidates, env.fuzz));
        if fuzzy.index.Some? && fuzzy.score > MemoryFuzzyThreshold then
          Some(SmartReply(user, Some(candidates[fuzzy.index.value].text), Some(fuzzy.score), profile))
        else None
  }

  /** The knowledge-base vectors line up with its entries. */
  predicate Aligned(kb: KnowledgeBase) {
    |kb.vectors| == |kb.entries|
  }

  /** Stage 4: the answer of the best-matching question if its cosine is above 0.15. */
  ghost function KbSpec(tokens: seq<string>, kb: KnowledgeBase, maths: Maths): Option<string>
    requires Aligned(kb)
  {
    var query := Weights(tokens, kb.vocab.Keys, kb.df, kb.n, maths.log);
    var pick := Best(CosineScores(query, kb.vectors, maths.sqrt));
    if pick.index.Some? && pick.score > KbCosineThreshold then Some(kb.entries[pick.index.value].answer)
    else None
  }

  /** `[tfidf_vector(doc, vocab, df, N) for doc in docs]`. */
  method VectorsOf(docs: seq<seq<string>>, vocab: map<string, int>, df: map<string, nat>, n: nat, maths: Maths)
    returns (vectors: seq<map<string, real>>)
    ensures |vectors| == |docs|
    ensures forall i :: 0 <= i < |docs| ==> vectors[i] == Weights(docs[i], vocab.Keys, df, n, maths.log)
  {
    vectors := [];
    var i := 0;
    while i < |docs|
      invariant 0 <= i <= |docs|
      invariant |vectors| == i
      invariant forall j :: 0 <= j < i ==> vectors[j] == Weights(docs[j], vocab.Keys, df, n, maths.log)
    {
      var v := TfidfVector(docs[i], vocab, df, n, maths);
      vectors := vectors + [v];
      i := i + 1;
    }
  }

  /** The start-up code: the knowledge base's questions tokenised, its TF-IDF model and its vectors. */
  method BuildKnowledgeBase(entries: seq<KbEntry>, maths: Maths) returns (kb: KnowledgeBase)
    ensures kb.entries == entries && Aligned(kb)
    ensures kb.vocab.Keys == Vocabulary(KbDocs(entries)) && kb.df == DocFreqs(KbDocs(entries))
    ensures kb.n == |entries|
    ensures kb.vectors == CorpusVectors(KbDocs(entries), maths.log)
  {
    var docs := KbDocs(entries);
    var vocab, df, n := BuildTfidf(docs);
    var vectors := VectorsOf(docs, vocab, df, n, maths);
    kb := KnowledgeBase(entries, vocab, df, n, vectors);
  }

  /** A best-match loop over cosine similarities. */
  method BestCosine(query: map<string, real>, vectors: seq<map<string, real>>, maths: Maths) returns (pick: Pick)
    ensures pick == Best(CosineScores(query, vectors, maths.sqrt))
  {
    ghost var scores := CosineScores(query, vectors, maths.sqrt);
    pick := Pick(None, 0.0);
    var i := 0;
    while i < |vectors|
      invariant 0 <= i <= |vectors|
      invariant pick == Best(scores[..i])
    {
      var s := CosineSim(query, vectors[i], maths);
      assert scores[..i + 1][..i] == scores[..i];
      if s > pick.score {
        pick := Pick(Some(i), s);
      }
      i := i + 1;
    }
    assert scores[..i] == scores;
  }

  /** The best-match loop over fuzzy scores. */
  method BestFuzzy(text: string, rows: seq<Memory>, fuzz: (string, string) -> real) returns (pick: Pick)
    ensures pick == Best(FuzzyScores(text, rows, fuzz))
  {
    ghost var scores := FuzzyScores(text, rows, fuzz);
    pick := Pick(None, 0.0);
    var i := 0;
    while i < |rows|
      invariant 0 <= i <= |rows|
      invariant pick == Best(scores[..i])
    {
      var s := fuzz(text, Lower(rows[i].text));
      assert scores[..i + 1][..i] == scores[..i];
      if s > pick.score {
        pick := Pick(Some(i), s);
      }
      i := i + 1;
    }
    assert scores[..i] == scores;
  }

  /** Stage 3: the TF-IDF model of the memories, then the fuzzy pass. */
  method Recall(user: string, tokens: seq<string>, rows: seq<Memory>, profile: seq<ProfileRow>, env: Env)
    returns (r: Option<string>)
    requires tokens == Tokenize(user)
    ensures r == RecallSpec(user, rows, profile, env)
  {
    if rows == [] {
      return None;
    }
    var docs := MemoryDocs(rows);
    var vocab, df, n := BuildTfidf(docs);
    var vectors := VectorsOf(docs, vocab, df, n, env.maths);
    assert vectors == CorpusVectors(docs, env.maths.log);
    var query := TfidfVector(tokens, vocab, df, n, env.maths);
    var pick := BestCosine(query, vectors, env.maths);
    if pick.index.Some? && pick.score > MemoryCosineThreshold {
      return Some(SmartReply(user, Some(rows[pick.index.value].text), None, profile));
    }
    var candidates := Candidates(user, rows);
    var fuzzy := BestFuzzy(Lower(user), candidates, env.fuzz);
    if fuzzy.index.Some? && fuzzy.score > MemoryFuzzyThreshold {
      return Some(SmartReply(user, Some(candidates[fuzzy.index.value].text), Some(fuzzy.score), profile));
    }
    return None;
  }

  /** Stage 4. */
  method AskKb(tokens: seq<string>, kb: KnowledgeBase, maths: Maths) returns (r: Option<string>)
    requires Aligned(kb)
    ensures r == KbSpec(tokens, kb, maths)
  {
    var query := TfidfVector(tokens, kb.vocab, kb.df, kb.n, maths);
    var pick := BestCosine(query, kb.vectors, maths);
    if pick.index.Some? && pick.score > KbCosineThreshold {
      return Some(kb.entries[pick.index.value].answer);
    }
    return None;
  }

  // ---------------------------------------------------------------------
  // The priority chain
  // ---------------------------------------------------------------------

  /** Stage 0, the commands that write to the database: memorise, learn a profile fact,
      forget. None when the message is none of them. */
  function Command(user: string, st: Store, fuzz: (string, string) -> real): (o: Option<Outcome>)
    requires ValidStore(st)
    ensures o.Some? ==> ValidStore(o.value.store)
  {
    var norm := Normalise(user);
    if StartsWithAny(norm, MemoriseTriggers) then Some(Memorise(user, st))
    else if FirstFact(norm, user, ProfileTriggers).Some? then
      Some(LearnFact(FirstFact(norm, user, ProfileTriggers).value, st))
    else if StartsWith(norm, "uita ca") then
      ForgetKeepsStoreValid(user, st, fuzz);
      Some(ForgetOutcome(user, st, fuzz))
    else None
  }

  /** Stages 1 to 5, which only read the database: the first of patterns, canned phrases,
      the profile question, memory recall and the knowledge base that answers, else
      smart_reply with no memory. */
  ghost function ReadOnlyReply(user: string, st: Store, kb: KnowledgeBase, env: Env): string
    requires Aligned(kb)
  {
    var norm := Normalise(user);
    var profile := NewestFirst(st.profile);
    if MatchPattern(norm, env.choice).Some? then MatchPattern(norm, env.choice).value
    else if Converse(norm, Conversational).Some? then Converse(norm, Conversational).value
    else if AsksAboutProfile(norm) then ProfileReply(profile)
    else if RecallSpec(user, st.memories, profile, env).Some? then RecallSpec(user, st.memories, profile, env).value
    else if KbSpec(Tokenize(user), kb, env.maths).Some? then KbSpec(Tokenize(user), kb, env.maths).value
    else SmartReply(user, None, None, profile)
  }

  /** What one accepted message does, given its stripped text. */
  ghost function Respond(user: string, st: Store, kb: KnowledgeBase, env: Env): Outcome
    requires ValidStore(st) && Aligned(kb)
  {
    match Command(user, st, env.fuzz)
    case Some(o) => o
    case None => Outcome(ReadOnlyReply(user, st, kb, env), st)
  }

  /** The body of `chat` after the user's message is logged: the first stage that answers. */
  method Answer(user: string, norm: string, st: Store, kb: KnowledgeBase, env: Env)
    returns (reply: string, st': Store)
    requires norm == Normalise(user)
    requires ValidStore(st) && Aligned(kb)
    ensures Outcome(reply, st') == Respond(user, st, kb, env)
  {
    if StartsWithAny(norm, MemoriseTriggers) {
      var o := Memorise(user, st);
      return o.reply, o.store;
    }
    var fact := FirstFact(norm, user, ProfileTriggers);
    if fact.Some? {
      var o := LearnFact(fact.value, st);
      return o.reply, o.store;
    }
    if StartsWith(norm, "uita ca") {
      reply, st' := Forget(user, st, env.fuzz);
      return;
    }
    var pattern := MatchPattern(norm, env.choice);
    if pattern.Some? {
      return pattern.value, st;
    }
    var canned := Converse(norm, Conversational);
    if canned.Some? {
      return canned.value, st;
    }
    var profile := NewestFirst(st.profile);
    if AsksAboutProfile(norm) {
      if profile == [] {
        reply := ProfileUnknown;
      } else {
        var lines := Summarise(profile);
        reply := "Știu despre tine că " + Join(", ", lines) + ".";
      }
      return reply, st;
    }
    var tokens := Tokenize(user);
    var recalled := Recall(user, tokens, st.memories, profile, env);
    if recalled.Some? {
      return recalled.value, st;
    }
    var answer := AskKb(tokens, kb, env.maths);
    if answer.Some? {
      return answer.value, st;
    }
    return SmartReply(user, None, None, profile), st;
  }

  /** Logging two messages one after the other logs the pair. */
  lemma ExchangeLogged(before: seq<Message>, past: seq<Message>, u: Message, b: Message)
    ensures Window(Window(before + [u]) + [b]) == Window(before + [u, b])
    ensures past + [u] + [b] == past + [u, b]
  {
    WindowThenAppend(before + [u], [b]);
    assert before + [u] + [b] == before + [u, b];
  }

  /** The `/chat` endpoint. A message that is blank after stripping is rejected with 400 and
      nothing is logged; any other message is logged, answered by the first stage that
      applies, and the answer is logged after it. */
  method Chat(log: ContextMemory, st: Store, kb: KnowledgeBase, message: string, env: Env)
    returns (res: Result<string, Rejection>, st': Store)
    requires log.Valid() && ValidStore(st) && Aligned(kb)
    modifies log
    ensures log.Valid()
    ensures Strip(message) == [] ==>
              res == Err(EmptyMessage) && st' == st
              && log.messages == old(log.messages) && log.history == old(log.history) && log.saved == old(log.saved)
    ensures Strip(message) != [] ==>
              res.Ok? && Outcome(res.value, st') == Respond(Strip(message), st, kb, env)
    ensures Strip(message) != [] ==>
              var added := [Message("user", Strip(message)), Message("bot", res.value)];
              log.history == old(log.history) + added
              && log.messages == Window(old(log.messages) + added)
              && log.saved == Some(log.messages)
  {
    var user := Strip(message);
    if user == [] {
      return Err(EmptyMessage), st;
    }
    var lowered := Lower(user);
    var norm := RemoveDiacritics(lowered);
    ghost var before, past := log.messages, log.history;
    log.AddMessage("user", user);
    var reply;
    reply, st' := Answer(user, norm, st, kb, env);
    ExchangeLogged(before, past, Message("user", user), Message("bot", reply));
    log.AddMessage("bot", reply);
    res := Ok(reply);
  }

  // ---------------------------------------------------------------------
  // Properties of the chain
  // ---------------------------------------------------------------------

  /** The selection of a best-match loop is the only index with its defining property. */
  lemma BestIsUnique(scores: seq<real>, k: nat)
    requires k < |scores| && scores[k] > 0.0
    requires forall j :: 0 <= j < k ==> scores[j] < scores[k]
    requires forall j :: k < j < |scores| ==> scores[j] <= scores[k]
    ensures Best(scores) == Pick(Some(k), scores[k])
  {
  }

  /** The normalised text has no diacritics, so the profile trigger "îmi place" can never
      occur in it: that entry of the trigger list never fires. */
  lemma DiacriticTriggerNeverFires(user: string)
    ensures !Contains(Normalise(user), "îmi place")
    ensures !Learns(Normalise(user), user, ProfileTriggers[1].0)
  {
    var trigger := ProfileTriggers[1].0;
    assert trigger == "îmi place";
    WithoutDiacriticsIsClean(Lower(user));
    assert IsDiacritic(trigger[0]);
    NoDiacriticNoMatch(Normalise(user), trigger);
  }

  /** A text without diacritics holds no word that starts with one. */
  lemma NoDiacriticNoMatch(s: string, sub: string)
    requires sub != [] && IsDiacritic(sub[0])
    requires forall j :: 0 <= j < |s| ==> !IsDiacritic(s[j])
    ensures !Contains(s, sub)
  {
    forall i | 0 <= i && i + |sub| <= |s| ensures !OccursAt(s, sub, i) {
      assert s[i..i + |sub|][0] == s[i];
    }
  }

  /** The memorise command cuts the message at its first "ca" as typed, not at the
      trigger: when the trigger is written with "că", the cut falls inside a later word and
      only the rest of that word is remembered. */
  lemma MemoriseCutsAtFirstCa(user: string, st: Store)
    requires ValidStore(st)
    requires user == "Ține minte că cafeaua"
    ensures Memorise(user, st).store.memories == st.memories + [Memory(st.nextMemoryId, "feaua")]
  {
    FirstCaInCafeaua(user);
    StripStripped("feaua");
    Memorised(user, st, "feaua");
  }

  /** The memorise command with a non-blank remainder stores exactly that remainder. */
  lemma Memorised(user: string, st: Store, info: string)
    requires ValidStore(st)
    requires Strip(After(user, "ca")) == info && info != []
    ensures Memorise(user, st).store.memories == st.memories + [Memory(st.nextMemoryId, info)]
  {
  }

  /** In that message the first "ca" is the start of "cafeaua". */
  lemma FirstCaInCafeaua(user: string)
    requires user == "Ține minte că cafeaua"
    ensures After(user, "ca") == "feaua"
  {
    NoCaBefore(user);
    AfterFirst(user, "ca", 14);
  }

  /** No "ca" starts before position 14 of that message: the trigger's own word is "că". */
  lemma NoCaBefore(user: string)
    requires user == "Ține minte că cafeaua"
    ensures forall j :: 0 <= j < 14 ==> !OccursAt(user, "ca", j)
  {
    forall j | 0 <= j < 14 ensures !OccursAt(user, "ca", j) {
      assert user[j..j + 2][0] == user[j] && user[j..j + 2][1] == user[j + 1];
      assert user[j] != 'c' || user[j + 1] != 'a';
    }
  }

  /** Every category a trigger files a fact under is one the profile summary knows. */
  lemma TriggerCategoriesKnown()
    ensures forall j :: 0 <= j < |ProfileTriggers| ==> KnownCategory(ProfileTriggers[j].1)
  {
  }

  predicate KnownCategories(profile: seq<ProfileRow>) {
    forall i :: 0 <= i < |profile| ==> KnownCategory(profile[i].category)
  }

  /** The memorise command adds the stripped text after the first "ca" as a new memory with
      the next id when it is not blank, and changes nothing otherwise. */
  lemma MemoriseCommand(user: string, st: Store, fuzz: (string, string) -> real)
    requires ValidStore(st)
    requires StartsWithAny(Normalise(user), MemoriseTriggers)
    ensures var info := Strip(After(user, "ca"));
            var o := Command(user, st, fuzz);
            && o.Some?
            && (info != [] ==> o.value.reply == "Am notat: " + info
                               && o.value.store.memories == st.memories + [Memory(st.nextMemoryId, info)]
                               && o.value.store.profile == st.profile)
            && (info == [] ==> o.value == Outcome(AskWhatToRemember, st))
  {
  }

  /** The first trigger that fires adds exactly one profile row, of its own category and with
      a non-blank text, and leaves the memories alone. */
  lemma FactLearned(user: string, st: Store, fuzz: (string, string) -> real)
    requires ValidStore(st)
    requires !StartsWithAny(Normalise(user), MemoriseTriggers)
    requires FirstFact(Normalise(user), user, ProfileTriggers).Some?
    ensures var f := FirstFact(Normalise(user), user, ProfileTriggers).value;
            var o := Command(user, st, fuzz);
            && o.Some?
            && o.value.store.profile == st.profile + [ProfileRow(f.category, f.info)]
            && o.value.store.memories == st.memories
            && KnownCategory(f.category) && f.info != []
  {
    TriggerCategoriesKnown();
  }

  /** The forget command with a description keeps exactly the memories that score at most 70
      against it, deletes the others, and says so when there were none. */
  lemma ForgetCommand(user: string, st: Store, fuzz: (string, string) -> real)
    requires Strip(After(user, "ca")) != []
    ensures var info := Strip(After(user, "ca"));
            var o := ForgetOutcome(user, st, fuzz);
            && o.store.profile == st.profile && o.store.nextMemoryId == st.nextMemoryId
            && (forall i :: 0 <= i < |o.store.memories| ==> o.store.memories[i] in st.memories)
            && (forall i :: 0 <= i < |st.memories| ==>
                  (st.memories[i] in o.store.memories <==>
                   fuzz(Lower(info), Lower(st.memories[i].text)) <= ForgetThreshold))
            && (o.reply == NothingToForget <==>
                forall i :: 0 <= i < |st.memories| ==> fuzz(Lower(info), Lower(st.memories[i].text)) <= ForgetThreshold)
  {
    var info := Strip(After(user, "ca"));
    ForgetPartition(st.memories, info, fuzz);
    var deleted := Texts(Filter(st.memories, Forgets(fuzz, info)));
    if deleted != [] {
      assert ("Am uitat: " + Join(", ", deleted))[0] == 'A';
    }
  }

  /** The kept rows are exactly those scoring at most 70, and nothing is deleted exactly
      when no row scores above 70. */
  lemma ForgetPartition(rows: seq<Memory>, info: string, fuzz: (string, string) -> real)
    ensures forall i :: 0 <= i < |Filter(rows, Keeps(fuzz, info))| ==> Filter(rows, Keeps(fuzz, info))[i] in rows
    ensures forall i :: 0 <= i < |rows| ==>
              (rows[i] in Filter(rows, Keeps(fuzz, info)) <==> fuzz(Lower(info), Lower(rows[i].text)) <= ForgetThreshold)
    ensures Filter(rows, Forgets(fuzz, info)) == [] <==>
              forall i :: 0 <= i < |rows| ==> fuzz(Lower(info), Lower(rows[i].text)) <= ForgetThreshold
  {
    var keep, drop := Keeps(fuzz, info), Forgets(fuzz, info);
    FilterMembers(rows, keep);
    FilterMembers(rows, drop);
    forall m ensures keep(m) == !drop(m) && drop(m) == (fuzz(Lower(info), Lower(m.text)) > ForgetThreshold) {
      Verdict(fuzz, info, m);
    }
  }

  /** Past the learning and forgetting commands the database is only read. */
  lemma ReadOnlyPastStageZero(user: string, st: Store, kb: KnowledgeBase, env: Env)
    requires ValidStore(st) && Aligned(kb)
    requires !StartsWithAny(Normalise(user), MemoriseTriggers)
    requires FirstFact(Normalise(user), user, ProfileTriggers).None?
    requires !StartsWith(Normalise(user), "uita ca")
    ensures Command(user, st, env.fuzz).None?
    ensures Respond(user, st, kb, env) == Outcome(ReadOnlyReply(user, st, kb, env), st)
  {
  }

  /** The forget command deletes rows only, so the primary key stays intact. */
  lemma ForgetKeepsStoreValid(user: string, st: Store, fuzz: (string, string) -> real)
    requires ValidStore(st)
    ensures ValidStore(ForgetOutcome(user, st, fuzz).store)
  {
    FilterKeepsIds(st.memories, Keeps(fuzz, Strip(After(user, "ca"))), st.nextMemoryId);
  }

  /** A profile whose rows all have known categories keeps that property, so the profile
      summary always has one phrase per row. */
  lemma CommandKeepsKnownCategories(user: string, st: Store, fuzz: (string, string) -> real)
    requires ValidStore(st)
    requires KnownCategories(st.profile)
    ensures Command(user, st, fuzz).Some? ==> KnownCategories(Command(user, st, fuzz).value.store.profile)
  {
    var norm := Normalise(user);
    if StartsWithAny(norm, MemoriseTriggers) {
      assert Command(user, st, fuzz).value.store.profile == st.profile;
    } else if FirstFact(norm, user, ProfileTriggers).Some? {
      var f := FirstFact(norm, user, ProfileTriggers).value;
      FactLearned(user, st, fuzz);
      KnownAppend(st.profile, ProfileRow(f.category, f.info));
    } else if StartsWith(norm, "uita ca") {
      assert Command(user, st, fuzz).value.store.profile == ForgetOutcome(user, st, fuzz).store.profile == st.profile;
    }
  }

  /** Adding a row of a known category keeps every category known. */
  lemma KnownAppend(profile: seq<ProfileRow>, row: ProfileRow)
    requires KnownCategories(profile) && KnownCategory(row.category)
    ensures KnownCategories(profile + [row])
  {
    assert forall i :: 0 <= i < |profile| ==> (profile + [row])[i] == profile[i];
  }

  /** Every accepted message leaves a valid database; one whose profile rows all have known
      categories keeps them known. */
  lemma RespondKeepsStore(user: string, st: Store, kb: KnowledgeBase, env: Env)
    requires ValidStore(st) && Aligned(kb)
    ensures ValidStore(Respond(user, st, kb, env).store)
    ensures KnownCategories(st.profile) ==> KnownCategories(Respond(user, st, kb, env).store.profile)
  {
    if KnownCategories(st.profile) {
      CommandKeepsKnownCategories(user, st, env.fuzz);
    }
  }

  /** Past the commands, a whole-word greeting is answered by the pattern stage with one of
      its greetings, before the canned phrases, the profile, the memories and the knowledge
      base are consulted, and the database is unchanged. */
  lemma GreetingAnsweredByPattern(user: string, st: Store, kb: KnowledgeBase, env: Env)
    requires ValidStore(st) && Aligned(kb)
    requires Command(user, st, env.fuzz).None?
    requires Searches(Normalise(user), GreetingWords)
    ensures Respond(user, st, kb, env).reply in GreetingResponses
    ensures Respond(user, st, kb, env).store == st
  {
    GreetingTakesPrecedence(Normalise(user), env.choice);
  }
}
