# BODAI chat core in Dafny

BODAI is a small Romanian-language chatbot. A FastAPI endpoint, `/chat`, takes one message and does the following:

- it logs the message in a bounded conversation log;
- it runs a strict priority chain of stages and returns the first one that answers:
  1. memorise a fact;
  2. learn a profile fact;
  3. forget memories;
  4. canned regex patterns;
  5. canned phrases;
  6. the profile summary;
  7. TF-IDF memory recall, then fuzzy memory recall;
  8. a TF-IDF knowledge-base lookup;
  9. a mood-aware fallback (`smart_reply`);
- it logs the reply.

This project models that core and proves properties of it.

| file | module | what it models |
|---|---|---|
| `text.dfy` | `Text` | `remove_diacritics` (the dictionary loop, proved equal to a per-character table), `tokenize`, and the Python string operations the chain uses (`lower`, `strip`, `split()`, `in`, `startswith`, `split(sep, 1)[-1]`, `join`) |
| `tfidf.dfy` | `TfIdf` | `build_tfidf`, `tfidf_vector` and `cosine_sim`, as methods with loops over maps, each proved against a specification function |
| `context.dfy` | `Context` | the `maxlen=10` deque of app/context.py as a class. Ghost fields hold the full message history and the last saved JSON snapshot |
| `patterns.dfy` | `Patterns` | the three whole-word regexes of app/patterns.py and `match_pattern` |
| `store.dfy` | `Store` | the two SQLite tables the chain touches (`memory`, `user_profile`) as a value, with the inserts, the delete by id and `get_profile`'s newest-first order |
| `reply.dfy` | `Reply` | `is_personal_query`, `looks_personal_memory` and `smart_reply` |
| `chat.dfy` | `Chat` | the `/chat` chain |
| `wrappers.dfy` | `Wrappers` | `Option` and `Result` |

In `chat.dfy`, the `/chat` chain is built up as follows:

- Specification functions:
  - `Command`: the three stages that write to the database;
  - `ReadOnlyReply`: the stages that only read it;
  - `Respond`: the whole chain.
- Implementations:
  - `Answer`: the step-by-step body of the chain, proved equal to `Respond`;
  - `Chat`: the endpoint with its two log writes, proved against `Respond` and the log's window.
- Loops, each proved against a specification function:
  - the best-score loops (`BestCosine`, `BestFuzzy`, against `Best`);
  - the forget loop (`DeleteMatching`);
  - the profile summary (`Summarise`);
  - the knowledge-base construction (`BuildKnowledgeBase`).

The program text is the reference. Where the program's behaviour may surprise a reader, the model follows the program:

- **Memory recall without a score.** The TF-IDF memory stage calls `smart_reply(user_text, match)` with no score. Only the fuzzy stage passes its score.
- **Skipped profile triggers.** A profile trigger whose remainder is blank is skipped, and the next trigger in the list is tried.
- **Word overlap in `smart_reply`.** It compares lower-cased, whitespace-split words. Diacritics are not removed.
- **Unknown profile categories.** The profile summary skips rows whose category it has no phrase for.
- **Remainders come from the original text.** The memorise, profile and forget stages match their triggers on the normalised text (lower-cased, diacritics removed). They take the remainder from the original text, cutting at the first `"ca"` or at the first occurrence of the trigger, so:
  - the profile trigger `"îmi place"` can never fire (`DiacriticTriggerNeverFires`);
  - "Ține minte că cafeaua" stores "feaua" (`MemoriseCutsAtFirstCa`).

## Model

| member | source | states |
|---|---|---|
| Text.BaseLetter | app/nlp_utils.py:11-16 | each of the 14 Romanian diacritics maps to a plain letter that is no diacritic; every other character maps to itself |
| Text.LookupSnoc | app/nlp_utils.py:17-18 | one more `text.replace(k, v)` after earlier replacements acts like a lookup in the extended dictionary, provided no earlier value is the new key |
| Text.LookupOfTable | app/nlp_utils.py:11-18 | a first-match lookup in a list of pairs, each agreeing with the letter table and covering every diacritic, is the table |
| Text.ReplacementsFromTable | app/nlp_utils.py:11-16 | every pair of the source's replacement dictionary maps a character to its base letter |
| Text.ReplacementsCoverDiacritics | app/nlp_utils.py:11-16 | every diacritic is a key of the replacement dictionary |
| Text.ReplacementsAreBaseLetters | app/nlp_utils.py:11-18 | looking a character up in the dictionary gives its base letter |
| Text.RemoveDiacritics | app/nlp_utils.py:9-19 | the loop of successive `replace` calls keeps the length and replaces each character by its base letter, position by position |
| Text.WithoutDiacriticsIsClean | app/nlp_utils.py:11-19 | no diacritic is left in the output |
| Text.WithoutDiacriticsIdempotent | app/nlp_utils.py:11-19 | removing diacritics twice gives the same text as once |
| Text.TrimLeft | app/main.py:111 | the result is a suffix of the input, everything cut is whitespace, and it does not start with whitespace |
| Text.TrimRight | app/main.py:111 | the result is a prefix of the input, everything cut is whitespace, and it does not end with whitespace |
| Text.Strip | app/main.py:111 | `strip()` is empty exactly when the text is all whitespace; otherwise it neither starts nor ends with whitespace |
| Text.StripStripped | app/main.py:120 | a text with no whitespace at either end is left unchanged by `strip()` |
| Text.SplitFrom | app/nlp_utils.py:26 | every word that `split()` produces is non-empty and holds no whitespace; the words, concatenated, are the word being collected followed by the non-whitespace characters of the rest, in order |
| Text.Split | app/nlp_utils.py:26 | the words of `split()` are non-empty, hold no whitespace, and concatenate to exactly the non-whitespace characters of the text, in order |
| Text.SplitFromWord | app/nlp_utils.py:26 | a run of non-whitespace characters extends the word being collected rather than starting a new one |
| Text.SplitJoin | app/nlp_utils.py:26 | `split()` recovers the words of `" ".join(words)`, boundaries included, when each word is non-empty and holds no whitespace |
| Text.FindFrom | app/main.py:120 | the index found is the first occurrence of the separator at or after the start; none means the separator does not occur there |
| Text.AfterFirst | app/main.py:120 | `split(sep, 1)[-1]` is the text after the first occurrence of the separator |
| Text.Tokenize | app/nlp_utils.py:22-26 | every token is non-empty and consists only of allowlisted characters (`a-z`, `0-9`, `ăâîșşțţ`) |
| Text.NonSpaceIsAllowed | app/nlp_utils.py:25-26 | once everything outside the allowlist is blanked, the characters `split()` keeps are exactly the allowlisted ones |
| Text.TokenizeKeepsAllowed | app/nlp_utils.py:24-26 | the tokens, concatenated, are exactly the allowlisted characters of the lower-cased text, in order |
| Text.TokenizeNothingAllowed | app/nlp_utils.py:25-26 | a text with no allowlisted character gives no tokens |
| TfIdf.DocCountBounds | app/nlp_utils.py:40-43 | a document frequency is at most N, and at least 1 exactly for the tokens of the vocabulary |
| TfIdf.BuildTfidf | app/nlp_utils.py:31-45 | `N` is the number of documents; `vocab` and `df` have the vocabulary as their key set; `df[t]` counts the documents containing `t`; the vocabulary indices are exactly 0..\|vocab\|-1, each used once |
| TfIdf.CountDocument | app/nlp_utils.py:41-43 | the inner loop over `set(doc)`, in any order, counts each distinct token once, gives new tokens fresh indices and keeps the indices already assigned |
| TfIdf.NextDocument | app/nlp_utils.py:40-43 | after one more document the table holds the frequencies and vocabulary of the longer prefix of the corpus |
| TfIdf.AddFreshIndex | app/nlp_utils.py:42 | `setdefault(token, len(vocab))` on a new token keeps the indices dense and distinct |
| TfIdf.TfidfVector | app/nlp_utils.py:48-59 | the loop over the token counts builds the weight map: one entry per distinct token of the document that the vocabulary knows, with weight count × idf |
| TfIdf.WeightsPositive | app/nlp_utils.py:53-58 | the keys are the document's tokens that are in the vocabulary; every weight is at least the token's count, hence at least 1 (given df ≤ N and a log that is non-negative from 1); an empty document gives an empty map |
| TfIdf.WeightAtLeastCount | app/nlp_utils.py:57-58 | a single weight is at least its count when df ≤ N |
| TfIdf.Total | app/nlp_utils.py:68-70 | the summing loop computes the sum of the map's values |
| TfIdf.CosineSim | app/nlp_utils.py:62-73 | the method computes the cosine as specified, and returns 0 when either vector is empty |
| TfIdf.CosineSymmetric | app/nlp_utils.py:62-73 | the cosine is symmetric in its two vectors |
| TfIdf.CosineDisjoint | app/nlp_utils.py:67-73 | vectors with no shared token have cosine 0 |
| TfIdf.CosineSeesSharedTokensOnly | app/nlp_utils.py:67-70 | the numerator reads only the shared tokens: changing the second vector outside the first one's keys, with the same norm, does not change the cosine |
| TfIdf.CosineNonNegative | app/nlp_utils.py:62-73 | with non-negative weights (and a non-negative square root) the cosine is non-negative |
| Context.Window | app/context.py:10 | the window holds min(\|s\|, 10) messages, and they are the last ones of `s` |
| Context.WindowOfSuffix | app/context.py:10 | dropping messages that are older than the window does not change it |
| Context.WindowThenAppend | app/context.py:10-17 | appending to the bounded deque gives the window of appending to the whole history |
| Context.WindowOfTail | app/context.py:10 | anything before a window-long tail is outside the window |
| Context.LoadingLastIsLoadingAll | app/context.py:48 | `extend(data[-10:])` leaves the same deque as `extend(data)` |
| Context.LoadStep | app/context.py:48 | extending by one more loaded entry grows the window and the history by that entry |
| Context.ContextMemory.constructor | app/context.py:10 | the log starts empty, with the file's snapshot as given |
| Context.ContextMemory.Append | app/context.py:17 | the message becomes the last entry; at capacity the oldest entry is dropped; the deque stays the window of the history |
| Context.ContextMemory.AddMessage | app/context.py:15-18 | `{role, text}` is appended and the snapshot then equals the whole deque |
| Context.ContextMemory.SaveContext | app/context.py:35-39 | the snapshot becomes the deque's contents, and the deque is unchanged |
| Context.ContextMemory.GetContext | app/context.py:21-23 | returns the deque, oldest first: the last at most 10 messages of the history; nothing changes |
| Context.ContextMemory.ClearContext | app/context.py:26-30 | the deque and history are empty, and the snapshot is removed |
| Context.ContextMemory.LoadContext | app/context.py:42-51 | a parsed file appends its last min(10, \|data\|) entries in order, and the deque is the window of old plus new; a missing or unreadable file changes nothing; the snapshot is not written |
| Patterns.FirstMatch | app/patterns.py:9-13 | none exactly when no pattern matches; otherwise the reply is one of the responses of the first pattern, in list order, that matches |
| Patterns.MatchPattern | app/patterns.py:3-13 | `match_pattern` returns None exactly when none of the three regexes matches |
| Patterns.GreetingTakesPrecedence | app/patterns.py:3-12 | a text with a whole-word greeting gets a greeting response, whatever else it contains |
| Patterns.ThanksAnswer | app/patterns.py:3-12 | without a greeting, a whole-word thanks gets a thanks response |
| Patterns.IdentityAnswer | app/patterns.py:3-12 | with only the identity question matching, the reply is always "Sunt BODAI, asistentul tău personal." |
| Patterns.ChipIsNoGreeting | app/patterns.py:4 | "hi" inside "chip" is no whole word, so nothing matches |
| Patterns.HelloThanks | app/patterns.py:3-12 | "thanks, hello" gets a greeting response: the earlier pattern wins |
| Store.AddMemory | app/db.py:35-41 | the memory table gains one row with the next id; ids stay distinct and below the counter |
| Store.AddProfileInfo | app/db.py:78-85 | the profile table gains one row, newest last; the memories are unchanged |
| Store.DeleteMemory | app/main.py:159 | no row with the deleted id remains |
| Store.DeleteFirst | app/main.py:159 | with distinct ids, deleting the first row's id removes exactly that row |
| Store.KeepAll | app/main.py:159 | deleting an id that no row has changes nothing |
| Store.DeleteAfter | app/main.py:159 | deleting an id absent from a prefix leaves the prefix in place |
| Store.NewestFirst | app/db.py:87-94 | `get_profile` returns the rows in reverse insertion order |
| Reply.IsPersonalQuery | app/main.py:41-42 | no contract of its own: one of the personal-question keywords occurs, as a substring, in the lower-cased text; its effect on recall is stated by `Chat.Candidates` |
| Reply.LooksPersonalMemory | app/main.py:44-45 | no contract of its own: one of the first-person patterns occurs, as a substring, in the lower-cased text; `Chat.Candidates` states which memories it keeps |
| Reply.KnownLikes | app/main.py:52 | at most one like per row, and every liked thing is the info of a hobby or preference row |
| Reply.KnownLikesComplete | app/main.py:52 | the info of every hobby or preference row is among the likes |
| Reply.KnownLikesFirst | app/main.py:52 | the first like is the info of the first hobby or preference row |
| Reply.KnownLocation | app/main.py:53 | none exactly when there is no location row; otherwise it is the info of the first such row |
| Reply.SmartReply | app/main.py:48-102 | no contract of its own: the ordered decision list (positive mood, negative mood, memory match, conversational fallback); `PositiveMoodFirst`, `NegativeMoodSecond`, `ClarifiesWeakMatch`, `EmptyMatchIsNoMatch` and `FallbackIgnoresProfile` state its branches |
| Reply.PositiveMoodFirst | app/main.py:60-64 | a positive mood word gets, whatever the memory match, the glad reply naming the first liked thing when a like is known, and the plain glad reply when none is |
| Reply.NegativeMoodSecond | app/main.py:66-72 | without a positive word, a negative one gets, whatever the memory match, the coffee reply when the likes mention coffee; else the walk through the known location when it is non-empty; else the plain sympathetic reply |
| Reply.ClarifiesWeakMatch | app/main.py:75-78 | a memory match sharing fewer than 2 words, with a fuzzy score below 70 or none, gets the clarification question |
| Reply.EmptyMatchIsNoMatch | app/main.py:75 | an empty memory match is treated as none |
| Reply.FallbackIgnoresProfile | app/main.py:91-102 | with no mood word and no match, the reply does not depend on the profile |
| Chat.Best | app/main.py:213-217 | the loop picks the first index with the strictly greatest score, or none with score 0 when every score is ≤ 0 |
| Chat.BestIsUnique | app/main.py:213-217 | the pick is the only index that is positive, beats every earlier score and is at least every later score |
| Chat.Filter | app/main.py:227 | a filtered list is no longer than its source |
| Chat.FilterMembers | app/main.py:227 | the filtered list holds exactly the source's elements that pass the test |
| Chat.FilterAppend | app/main.py:227 | filtering distributes over concatenation |
| Chat.FilterSplits | app/main.py:155-162 | every row is kept or deleted, never both |
| Chat.Texts | app/main.py:207 | one text per row |
| Chat.FilterKeepsIds | app/main.py:155-162 | deleting any rows keeps the ids distinct and below the counter |
| Chat.FirstTrigger | app/main.py:137-143 | none exactly when no trigger fires; otherwise the first trigger in list order that occurs in the normalised text and leaves a non-blank remainder |
| Chat.ForgetStep | app/main.py:155-162 | deleting the current row's id from the table as the loop has left it removes exactly that row |
| Chat.SuffixIds | app/main.py:155 | the rows still to visit have distinct ids |
| Chat.EarlierIds | app/main.py:155-159 | rows kept from earlier in the scan have ids other than the current row's |
| Chat.FilterSnoc | app/main.py:155-156 | one more row of the scan is kept or not by its own test |
| Chat.DropRow | app/main.py:156-162 | a matching row leaves the table and its text joins the deleted list |
| Chat.KeepRow | app/main.py:155-156 | a non-matching row stays and the deleted list is unchanged |
| Chat.TextsSnoc | app/main.py:162 | appending a row appends its text |
| Chat.Verdict | app/main.py:156 | a row is forgotten exactly when its score is above 70, and kept otherwise |
| Chat.Memorise | app/main.py:119-127 | the memorise command keeps the table's primary key and the profile, and either changes nothing or adds one memory with the next id and a non-blank text |
| Chat.ForgetOutcome | app/main.py:146-165 | the forget command leaves the profile and the id counter alone and never adds a memory; `ForgetCommand` states which rows go |
| Chat.Forget | app/main.py:146-165 | the forget stage yields the forget outcome, and the table keeps its primary key |
| Chat.DeleteMatching | app/main.py:153-162 | the loop leaves exactly the rows scoring at most 70, and lists the deleted texts in table order |
| Chat.ScanStep | app/main.py:155-162 | one turn of the loop keeps its invariant for both verdicts |
| Chat.Converse | app/main.py:174-184 | none exactly when no key occurs; otherwise the response of the first key, in insertion order, that occurs |
| Chat.SummaryLine | app/main.py:193-198 | a row has a phrase exactly when its category is one of the five known ones |
| Chat.SummaryLines | app/main.py:192-198 | at most one phrase per row; none exactly when no row has a known category; one per row when all categories are known |
| Chat.Summarise | app/main.py:192-198 | the summary loop builds the phrase list |
| Chat.ProfileReply | app/main.py:188-199 | the "nothing known yet" reply is given exactly when the profile is empty |
| Chat.MemoryDocs | app/main.py:207-208 | one token list per memory |
| Chat.KbDocs | app/main.py:29-30 | one token list per question |
| Chat.CorpusVectors | app/main.py:210 | one vector per document |
| Chat.CosineScores | app/main.py:214-215 | one cosine per vector |
| Chat.FuzzyScores | app/main.py:229-230 | one fuzzy score per candidate |
| Chat.Candidates | app/main.py:226-227 | outside personal mode the candidates are all rows; in personal mode they are exactly the rows that look like personal memories |
| Chat.VectorsOf | app/main.py:32 | each vector is the weight map of its document |
| Chat.BuildKnowledgeBase | app/main.py:29-32 | the start-up model has the questions' vocabulary, document frequencies, count and vectors |
| Chat.BestCosine | app/main.py:213-217 | the cosine loop makes the pick `Best` specifies |
| Chat.BestFuzzy | app/main.py:228-232 | the fuzzy loop makes the pick `Best` specifies |
| Chat.Recall | app/main.py:203-239 | memory recall answers as specified: TF-IDF above 0.05 first, then fuzzy above 50 over the candidates, both through `smart_reply` |
| Chat.AskKb | app/main.py:242-253 | the answer of the best question, if its cosine is above 0.15 |
| Chat.Respond | app/main.py:110-258 | no contract of its own: the first of the command stages that fires, else the read-only stages with the database unchanged; `ReadOnlyPastStageZero`, `RespondKeepsStore`, `GreetingAnsweredByPattern` and the command lemmas state its meaning |
| Chat.Answer | app/main.py:119-258 | the step-by-step chain gives the reply and database the chain specifies |
| Chat.ExchangeLogged | app/main.py:116 | logging the user message and then the reply is logging the pair |
| Chat.Chat | app/main.py:110-258 | a blank message is refused with 400 and "Mesajul este gol." and nothing is logged or stored; otherwise the reply is the chain's, and the log gains exactly the stripped message as "user" and the reply as "bot", with the snapshot saved |
| Chat.DiacriticTriggerNeverFires | app/main.py:131-138 | the normalised text never contains "îmi place", so that trigger never fires |
| Chat.NoDiacriticNoMatch | app/main.py:138 | a text without diacritics contains no phrase that starts with one |
| Chat.MemoriseCutsAtFirstCa | app/main.py:119-124 | "Ține minte că cafeaua" stores "feaua" as the new memory |
| Chat.Memorised | app/main.py:120-124 | a non-blank remainder is stored as a new memory with the next id |
| Chat.FirstCaInCafeaua | app/main.py:120 | in that message the remainder after the first "ca" is "feaua" |
| Chat.NoCaBefore | app/main.py:120 | no "ca" occurs before "cafeaua" in that message |
| Chat.TriggerCategoriesKnown | app/main.py:130-135 | every trigger's category is one the profile summary can phrase |
| Chat.MemoriseCommand | app/main.py:119-127 | memorise adds the stripped remainder after the first "ca" as a new memory with the next id and replies "Am notat: …" if that remainder is not blank; otherwise it asks again and changes nothing |
| Chat.FactLearned | app/main.py:137-143 | the first firing trigger adds exactly one profile row of its category with a non-blank text; the memories are unchanged |
| Chat.ForgetCommand | app/main.py:146-165 | forget keeps exactly the memories scoring at most 70, leaves the profile alone, and says "Nu am găsit nimic de uitat." exactly when none scores above 70 |
| Chat.ForgetPartition | app/main.py:155-163 | the kept rows come from the table and are exactly those scoring at most 70; nothing is deleted exactly when no row scores above 70 |
| Chat.ReadOnlyPastStageZero | app/main.py:146-258 | once the three commands are past, the database is only read |
| Chat.Command | app/main.py:119-165 | every command that fires (memorise, learn a profile fact, forget) keeps the memory table's primary key intact |
| Chat.ForgetKeepsStoreValid | app/main.py:153-162 | the forget command deletes rows only, so ids stay distinct and below the counter |
| Chat.CommandKeepsKnownCategories | app/main.py:130-143 | commands only add profile rows of known categories |
| Chat.KnownAppend | app/main.py:140 | adding a row of a known category keeps all categories known |
| Chat.RespondKeepsStore | app/main.py:110-258 | every accepted message leaves a valid database, and keeps all profile categories known if they were |
| Chat.GreetingAnsweredByPattern | app/main.py:167-171 | past the commands, a whole-word greeting is answered by a pattern greeting before any later stage, and nothing is stored |

## Left out

- Floating point: scores, weights and thresholds are Dafny `real`s. `math.log` and `math.sqrt` are function parameters (`Maths`). The IDF and cosine lemmas assume only that log is non-negative from 1 and sqrt is non-negative. Nothing is proved about self-similarity or a [0, 1] range.
- `fuzz.partial_ratio` from rapidfuzz is a function parameter. It is not constrained to 0..100.
- `random.choice` is an index parameter; the model only states that the reply is one of the pattern's responses.
- Database I/O: the connections, SQL and timestamps of app/db.py are not modelled; the tables are a `Store` value passed in and returned. `search_memories` has no `ORDER BY`. The model takes table (insertion) order, so the forget reply and the tie-breaking of the best-match loops follow that order.
- File I/O: the JSON reads and writes of app/context.py are a ghost snapshot plus a `FileRead` parameter standing for what reading the file gave. The `print` messages of `load_context` are left out.
- Start-up loading of the YAML config and of data/knowledge.json: the knowledge base is a parameter built by `BuildKnowledgeBase`.
- FastAPI routing and the static mount. The `/health`, `/context`, `/profile` (list, update, delete) endpoints only forward to the log and the database, and are not modelled beyond `GetContext` and `ClearContext`.
- Debug `print`s in `chat`.
- Concurrency: FastAPI runs the synchronous `chat` in a thread pool, so two requests can interleave their log appends and database writes on the shared deque and tables. The model treats requests as serialised; `Chat.Chat`'s promise that the log gains exactly the user message and the reply holds for one request at a time.
- Text.Lower: Python's full Unicode `str.lower()` is restricted to ASCII, Latin-1 capitals and the Romanian capitals with comma and cedilla.
- Patterns: the word characters of `\b` are restricted to ASCII letters and digits, `_`, and Latin-1 and Latin Extended-A/B letters.
- Text.After: has no contract of its own; its meaning is given by `FindFrom` and `AfterFirst`. Python raises `ValueError` for an empty separator; every separator the chain uses is non-empty (`Learns` requires a non-empty trigger).
- Reply.SmartReply: carries no contract of its own. That it always returns a string is given by its type. Its ordering is stated by the lemmas after it.
