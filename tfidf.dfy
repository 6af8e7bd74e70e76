/**
 * The TF-IDF engine of app/nlp_utils.py: building a vocabulary and a
 * document-frequency table from a corpus of token lists, weighting a token list
 * against them, and the cosine similarity of two sparse weight vectors.
 *
 * Floating-point numbers are modelled as reals; the natural logarithm and the
 * square root are kept abstract and passed in as a `Maths` value.
 */
module TfIdf {

  /** The two floating-point primitives the engine calls: `math.log` and `math.sqrt`. */
  datatype Maths = Maths(log: real -> real, sqrt: real -> real)

  /** The properties of `log` and `sqrt` that the lemmas below rely on. */
  ghost predicate LogIsNonNegativeFromOne(log: real -> real) {
    forall x: real :: x >= 1.0 ==> log(x) >= 0.0
  }

  ghost predicate SqrtIsNonNegative(sqrt: real -> real) {
    forall x: real :: x >= 0.0 ==> sqrt(x) >= 0.0
  }

  // ---------------------------------------------------------------------
  // Corpus statistics
  // ---------------------------------------------------------------------

  /** The distinct tokens of one document (`set(doc)`). */
  function TokenSet(doc: seq<string>): set<string> {
    set t | t in doc
  }

  /** Every token that occurs in some document of the corpus. */
  function Vocabulary(docs: seq<seq<string>>): set<string> {
    if docs == [] then {} else Vocabulary(docs[..|docs| - 1]) + TokenSet(docs[|docs| - 1])
  }

  /** The number of documents that contain `t`; repetitions inside one document count once. */
  function DocCount(docs: seq<seq<string>>, t: string): nat {
    if docs == [] then 0
    else DocCount(docs[..|docs| - 1], t) + (if t in docs[|docs| - 1] then 1 else 0)
  }

  /** A document frequency lies between 1 and the number of documents for every
      token of the vocabulary, and is 0 for every other token. */
  lemma {:induction false} DocCountBounds(docs: seq<seq<string>>, t: string)
    ensures DocCount(docs, t) <= |docs|
    ensures t in Vocabulary(docs) <==> DocCount(docs, t) >= 1
  {
    if docs != [] {
      DocCountBounds(docs[..|docs| - 1], t);
    }
  }

  /** The vocabulary numbers its tokens densely: its values are exactly 0 .. |vocab| - 1,
      each used by one token. */
  predicate IsDenseIndex(vocab: map<string, int>) {
    && (forall t :: t in vocab ==> 0 <= vocab[t] < |vocab|)
    && (forall k :: 0 <= k < |vocab| ==> k in vocab.Values)
    && (forall t, u :: t in vocab && u in vocab && t != u ==> vocab[t] != vocab[u])
  }

  /** The document-frequency table of a corpus: every token of its vocabulary with the
      number of documents containing it. */
  function DocFreqs(docs: seq<seq<string>>): map<string, nat> {
    map t | t in Vocabulary(docs) :: DocCount(docs, t)
  }

  /** build_tfidf: one pass over the documents; for each, CountDocument runs the inner loop
      over its distinct tokens. */
  method BuildTfidf(docs: seq<seq<string>>) returns (vocab: map<string, int>, df: map<string, nat>, n: nat)
    ensures n == |docs|
    ensures vocab.Keys == df.Keys == Vocabulary(docs)
    ensures forall t :: t in df ==> df[t] == DocCount(docs, t)
    ensures df == DocFreqs(docs)
    ensures IsDenseIndex(vocab)
  {
    vocab, df := map[], map[];
    n := |docs|;
    var i := 0;
    while i < |docs|
      invariant 0 <= i <= |docs|
      invariant vocab.Keys == df.Keys == Vocabulary(docs[..i])
      invariant Tallies(df, docs[..i])
      invariant IsDenseIndex(vocab)
    {
      ghost var before := df;
      vocab, df := CountDocument(vocab, df, docs[i]);
      NextDocument(before, df, docs, i);
      i := i + 1;
    }
    assert docs[..i] == docs;
  }

  /** `df` holds, for every token it knows, the number of documents of `docs` containing it. */
  predicate Tallies(df: map<string, nat>, docs: seq<seq<string>>) {
    forall u :: u in df ==> df[u] == DocCount(docs, u)
  }

  /** The frequency table after counting `doc` once more on top of `df0`. */
  predicate CountedOnce(df0: map<string, nat>, df: map<string, nat>, doc: set<string>) {
    forall u :: u in df ==> df[u] == (if u in df0 then df0[u] else 0) + (if u in doc then 1 else 0)
  }

  /** The inner loop of build_tfidf, over `set(doc)` in an unspecified order: a token gets the
      next free index the first time it is seen (`setdefault(token, len(vocab))`) and its
      counter goes up by one (`df.get(token, 0) + 1`); every distinct token counts once. */
  method CountDocument(vocab0: map<string, int>, df0: map<string, nat>, doc: seq<string>)
    returns (vocab: map<string, int>, df: map<string, nat>)
    requires vocab0.Keys == df0.Keys
    requires IsDenseIndex(vocab0)
    ensures vocab.Keys == df.Keys == df0.Keys + TokenSet(doc)
    ensures CountedOnce(df0, df, TokenSet(doc))
    ensures IsDenseIndex(vocab)
    ensures forall u :: u in vocab0 ==> vocab[u] == vocab0[u]
  {
    vocab, df := vocab0, df0;
    var rest := TokenSet(doc);
    ghost var seen: set<string> := {};
    while rest != {}
      invariant forall u :: u in rest <==> u in doc && u !in seen
      invariant forall u :: u in seen ==> u in doc
      invariant forall u :: u in df <==> u in df0 || u in seen
      invariant forall u :: u in vocab <==> u in df
      invariant CountedOnce(df0, df, seen)
      invariant IsDenseIndex(vocab)
      invariant forall u :: u in vocab0 ==> u in vocab && vocab[u] == vocab0[u]
      decreases rest
    {
      var t :| t in rest;
      CountStep(df0, df, seen, t);
      ExtendStep(vocab0, vocab, t);
      if t !in vocab {
        AddFreshIndex(vocab, t);
        vocab := vocab[t := |vocab|];
      }
      df := df[t := (if t in df then df[t] else 0) + 1];
      rest := rest - {t};
      seen := seen + {t};
    }
  }

  /** Once every distinct token of document `i` is counted on top of the tallies of the
      first `i` documents, the table holds the tallies of the first `i + 1` documents. */
  lemma NextDocument(df0: map<string, nat>, df: map<string, nat>, docs: seq<seq<string>>, i: nat)
    requires i < |docs|
    requires df0.Keys == Vocabulary(docs[..i]) && Tallies(df0, docs[..i])
    requires CountedOnce(df0, df, TokenSet(docs[i]))
    ensures Tallies(df, docs[..i + 1])
    ensures Vocabulary(docs[..i + 1]) == Vocabulary(docs[..i]) + TokenSet(docs[i])
  {
    assert docs[..i + 1][..i] == docs[..i];
    assert docs[..i + 1][i] == docs[i];
    forall u | u in df ensures df[u] == DocCount(docs[..i + 1], u) {
      DocCountBounds(docs[..i], u);
    }
  }

  /** Counting a token not counted before keeps `CountedOnce`. */
  lemma CountStep(df0: map<string, nat>, df: map<string, nat>, seen: set<string>, t: string)
    requires CountedOnce(df0, df, seen) && t !in seen && (t in df <==> t in df0)
    ensures CountedOnce(df0, df[t := (if t in df then df[t] else 0) + 1], seen + {t})
  {
  }

  /** Numbering a new token leaves the numbers already given untouched. */
  lemma ExtendStep(vocab0: map<string, int>, vocab: map<string, int>, t: string)
    requires forall u :: u in vocab0 ==> u in vocab && vocab[u] == vocab0[u]
    ensures var v := if t in vocab then vocab else vocab[t := |vocab|];
            forall u :: u in vocab0 ==> u in v && v[u] == vocab0[u]
  {
  }

  /** Giving a new token the index |vocab| keeps the numbering dense. */
  lemma AddFreshIndex(vocab: map<string, int>, t: string)
    requires IsDenseIndex(vocab) && t !in vocab
    ensures IsDenseIndex(vocab[t := |vocab|])
  {
    var v := vocab[t := |vocab|];
    assert |v| == |vocab| + 1;
    forall k | 0 <= k < |v| ensures k in v.Values {
      if k == |vocab| {
        assert v[t] == k;
      } else {
        assert k in vocab.Values;
        var u :| u in vocab && vocab[u] == k;
        assert v[u] == k;
      }
    }
  }

  // ---------------------------------------------------------------------
  // TF-IDF weights
  // ---------------------------------------------------------------------

  /** The number of occurrences of `t` in `doc`. */
  function Count(doc: seq<string>, t: string): nat {
    if doc == [] then 0 else Count(doc[..|doc| - 1], t) + (if doc[|doc| - 1] == t then 1 else 0)
  }

  lemma {:induction false} CountPositive(doc: seq<string>, t: string)
    requires t in doc
    ensures Count(doc, t) >= 1
  {
    if doc[|doc| - 1] != t {
      assert t in doc[..|doc| - 1];
      CountPositive(doc[..|doc| - 1], t);
    }
  }

  /** `Counter(doc)`: each distinct token with its number of occurrences. */
  function Counts(doc: seq<string>): map<string, nat> {
    map t | t in doc :: Count(doc, t)
  }

  /** The smoothed inverse document frequency `ln((N + 1) / (df + 1)) + 1`. */
  function Idf(log: real -> real, n: nat, d: nat): real {
    log((n + 1) as real / (d + 1) as real) + 1.0
  }

  /** The weight vector of a document: one entry per distinct token that the vocabulary
      knows, `count × idf`, with a missing frequency read as 1 (`df.get(term, 1)`). */
  function Weights(doc: seq<string>, vocab: set<string>, df: map<string, nat>, n: nat, log: real -> real)
    : map<string, real>
  {
    WeightsOver(doc, TokenSet(doc), vocab, df, n, log)
  }

  /** The weight of one token: its count times its idf. */
  function Weight(doc: seq<string>, t: string, df: map<string, nat>, n: nat, log: real -> real): real {
    Scale(Count(doc, t), Idf(log, n, if t in df then df[t] else 1))
  }

  /** `count * idf`. */
  function Scale(count: nat, idf: real): real {
    count as real * idf
  }

  /** The entries of the weight vector for the tokens in `terms`. */
  function WeightsOver(doc: seq<string>, terms: set<string>, vocab: set<string>, df: map<string, nat>, n: nat,
                       log: real -> real): map<string, real>
  {
    map t | t in terms && t in vocab :: Weight(doc, t, df, n, log)
  }

  lemma WeightsOverAdd(doc: seq<string>, terms: set<string>, t: string, vocab: set<string>, df: map<string, nat>,
                       n: nat, log: real -> real)
    ensures WeightsOver(doc, terms + {t}, vocab, df, n, log) ==
            if t in vocab then WeightsOver(doc, terms, vocab, df, n, log)[t := Weight(doc, t, df, n, log)]
            else WeightsOver(doc, terms, vocab, df, n, log)
  {
  }

  /** tfidf_vector: counts the tokens, then fills the vector one distinct token at a time
      (in the counter's order, which does not affect the result). */
  method TfidfVector(doc: seq<string>, vocab: map<string, int>, df: map<string, nat>, n: nat, maths: Maths)
    returns (vec: map<string, real>)
    ensures vec == Weights(doc, vocab.Keys, df, n, maths.log)
  {
    var tf := Counts(doc);
    vec := map[];
    var terms := tf.Keys;
    ghost var done: set<string> := {};
    assert tf.Keys == TokenSet(doc);
    while terms != {}
      invariant terms + done == tf.Keys
      invariant terms !! done
      invariant vec == WeightsOver(doc, done, vocab.Keys, df, n, maths.log)
      decreases terms
    {
      var term :| term in terms;
      WeightsOverAdd(doc, done, term, vocab.Keys, df, n, maths.log);
      if term in vocab {
        var idf := maths.log((n + 1) as real / ((if term in df then df[term] else 1) + 1) as real) + 1.0;
        assert idf == Idf(maths.log, n, if term in df then df[term] else 1);
        assert tf[term] == Count(doc, term);
        vec := vec[term := Scale(tf[term], idf)];
      }
      terms := terms - {term};
      done := done + {term};
    }
  }

  /** With frequencies taken from the same corpus (so 1 <= df <= N), every idf is at least 1,
      the vector's keys are exactly the distinct known tokens of the document, and every
      weight is at least the token's count, hence positive. An empty document has an empty vector. */
  lemma WeightsPositive(doc: seq<string>, vocab: set<string>, df: map<string, nat>, n: nat, log: real -> real)
    requires LogIsNonNegativeFromOne(log)
    requires vocab <= df.Keys
    requires forall t :: t in df ==> df[t] <= n
    ensures Weights(doc, vocab, df, n, log).Keys == TokenSet(doc) * vocab
    ensures forall t :: t in Weights(doc, vocab, df, n, log) ==>
              Weights(doc, vocab, df, n, log)[t] >= Count(doc, t) as real >= 1.0
    ensures doc == [] ==> Weights(doc, vocab, df, n, log) == map[]
  {
    var w := Weights(doc, vocab, df, n, log);
    forall t | t in w ensures w[t] >= Count(doc, t) as real >= 1.0 {
      WeightAtLeastCount(doc, t, df, n, log);
    }
  }

  /** The weight of a known token of the document is at least its count, which is at least 1. */
  lemma WeightAtLeastCount(doc: seq<string>, t: string, df: map<string, nat>, n: nat, log: real -> real)
    requires LogIsNonNegativeFromOne(log)
    requires t in doc && t in df && df[t] <= n
    ensures Weight(doc, t, df, n, log) >= Count(doc, t) as real >= 1.0
  {
    CountPositive(doc, t);
    var d := df[t];
    RatioAtLeastOne((n + 1) as real, (d + 1) as real);
    ScaleAtLeast(Count(doc, t) as real, Idf(log, n, d));
  }

  lemma RatioAtLeastOne(x: real, y: real)
    requires 0.0 < y <= x
    ensures x / y >= 1.0
  {
  }

  lemma ScaleAtLeast(c: real, f: real)
    requires c >= 0.0 && f >= 1.0
    ensures c * f >= c
  {
    assert c * f - c == c * (f - 1.0);
  }

  // ---------------------------------------------------------------------
  // Sums and cosine similarity
  // ---------------------------------------------------------------------

  /** The sum of the values of a sparse vector. */
  ghost function SumOf(m: map<string, real>): real
    decreases |m|
  {
    if m == map[] then 0.0
    else
      var t :| t in m;
      assert |m - {t}| < |m| by { assert (m - {t}).Keys == m.Keys - {t}; }
      m[t] + SumOf(m - {t})
  }

  /** The sum does not depend on which key is taken out first. */
  lemma {:induction false} SumOfRemove(m: map<string, real>, t: string)
    requires t in m
    ensures SumOf(m) == m[t] + SumOf(m - {t})
    decreases |m|
  {
    var u :| u in m && SumOf(m) == m[u] + SumOf(m - {u});
    assert (m - {u}).Keys == m.Keys - {u};
    assert (m - {t}).Keys == m.Keys - {t};
    if u != t {
      SumOfRemove(m - {u}, t);
      SumOfRemove(m - {t}, u);
      assert m - {u} - {t} == m - {t} - {u};
    }
  }

  /** A sum of non-negative values is non-negative. */
  lemma {:induction false} SumOfNonNegative(m: map<string, real>)
    requires forall t :: t in m ==> m[t] >= 0.0
    ensures SumOf(m) >= 0.0
    decreases |m|
  {
    if m != map[] {
      var t :| t in m;
      SumOfRemove(m, t);
      assert (m - {t}).Keys == m.Keys - {t};
      SumOfNonNegative(m - {t});
    }
  }

  function Restrict(m: map<string, real>, keys: set<string>): map<string, real> {
    map t | t in keys && t in m :: m[t]
  }

  /** Python's `sum(...)` over the values of a sparse vector, one key at a time. */
  method Total(m: map<string, real>) returns (s: real)
    ensures s == SumOf(m)
  {
    s := 0.0;
    var rest := m.Keys;
    assert Restrict(m, rest) == m;
    while rest != {}
      invariant rest <= m.Keys
      invariant s + SumOf(Restrict(m, rest)) == SumOf(m)
      decreases rest
    {
      var t :| t in rest;
      SumOfRemove(Restrict(m, rest), t);
      assert Restrict(m, rest) - {t} == Restrict(m, rest - {t});
      s := s + m[t];
      rest := rest - {t};
    }
    assert Restrict(m, rest) == map[];
  }

  /** Real multiplication, named so that the solver only unfolds it where a proof asks. */
  function Mul(x: real, y: real): real {
    x * y
  }

  /** `num / (denA * denB)`. */
  function Quotient(num: real, denA: real, denB: real): real
    requires denA != 0.0 && denB != 0.0
  {
    num / (denA * denB)
  }

  /** The products of the two vectors' weights over their shared tokens. */
  function Products(a: map<string, real>, b: map<string, real>): map<string, real> {
    map t | t in a.Keys * b.Keys :: Mul(a[t], b[t])
  }

  /** The squared weights of a vector. */
  function Squares(a: map<string, real>): map<string, real> {
    map t | t in a :: Mul(a[t], a[t])
  }

  /** The cosine similarity as the source computes it: 0 for an empty vector or a zero norm,
      otherwise the dot product over the shared tokens divided by the product of the norms. */
  ghost function Cosine(a: map<string, real>, b: map<string, real>, sqrt: real -> real): real {
    if |a| == 0 || |b| == 0 then 0.0
    else
      var denA := sqrt(SumOf(Squares(a)));
      var denB := sqrt(SumOf(Squares(b)));
      if denA == 0.0 || denB == 0.0 then 0.0
      else Quotient(SumOf(Products(a, b)), denA, denB)
  }

  /** cosine_sim. */
  method CosineSim(a: map<string, real>, b: map<string, real>, maths: Maths) returns (r: real)
    ensures r == Cosine(a, b, maths.sqrt)
    ensures |a| == 0 || |b| == 0 ==> r == 0.0
  {
    if |a| == 0 || |b| == 0 {
      return 0.0;
    }
    var common := a.Keys * b.Keys;
    var num := Total(map t | t in common :: Mul(a[t], b[t]));
    var sumA := Total(Squares(a));
    var sumB := Total(Squares(b));
    var denA := maths.sqrt(sumA);
    var denB := maths.sqrt(sumB);
    if denA == 0.0 || denB == 0.0 {
      return 0.0;
    }
    r := Quotient(num, denA, denB);
  }

  /** cosine_sim is symmetric in its two arguments. */
  lemma CosineSymmetric(a: map<string, real>, b: map<string, real>, sqrt: real -> real)
    ensures Cosine(a, b, sqrt) == Cosine(b, a, sqrt)
  {
    forall t | t in a && t in b ensures Mul(a[t], b[t]) == Mul(b[t], a[t]) {
    }
    assert Products(a, b) == Products(b, a);
  }

  /** Only shared tokens feed the numerator: vectors with no token in common have similarity 0. */
  lemma CosineDisjoint(a: map<string, real>, b: map<string, real>, sqrt: real -> real)
    requires a.Keys !! b.Keys
    ensures Cosine(a, b, sqrt) == 0.0
  {
    assert Products(a, b) == map[];
  }

  /** Only shared tokens feed the numerator: replacing `b` by a vector with the same norm
      that agrees with it on the tokens of `a` does not change the similarity. */
  lemma CosineSeesSharedTokensOnly(a: map<string, real>, b: map<string, real>, b': map<string, real>,
                                   sqrt: real -> real)
    requires |b| > 0 <==> |b'| > 0
    requires SumOf(Squares(b)) == SumOf(Squares(b'))
    requires forall t :: t in a ==> (t in b <==> t in b') && (t in b ==> b[t] == b'[t])
    ensures Cosine(a, b, sqrt) == Cosine(a, b', sqrt)
  {
    assert a.Keys * b.Keys == a.Keys * b'.Keys;
    assert Products(a, b) == Products(a, b');
  }

  /** With non-negative weights and a non-negative square root, the similarity is non-negative. */
  lemma CosineNonNegative(a: map<string, real>, b: map<string, real>, sqrt: real -> real)
    requires SqrtIsNonNegative(sqrt)
    requires forall t :: t in a ==> a[t] >= 0.0
    requires forall t :: t in b ==> b[t] >= 0.0
    ensures Cosine(a, b, sqrt) >= 0.0
  {
    if |a| > 0 && |b| > 0 {
      forall t | t in a.Keys * b.Keys ensures Mul(a[t], b[t]) >= 0.0 {
        MulNonNegative(a[t], b[t]);
      }
      forall t | t in a ensures Mul(a[t], a[t]) >= 0.0 {
        MulNonNegative(a[t], a[t]);
      }
      forall t | t in b ensures Mul(b[t], b[t]) >= 0.0 {
        MulNonNegative(b[t], b[t]);
      }
      SumOfNonNegative(Squares(a));
      SumOfNonNegative(Squares(b));
      SumOfNonNegative(Products(a, b));
      var denA := sqrt(SumOf(Squares(a)));
      var denB := sqrt(SumOf(Squares(b)));
      if denA != 0.0 && denB != 0.0 {
        QuotientNonNegative(SumOf(Products(a, b)), denA, denB);
      }
    }
  }

  lemma MulNonNegative(x: real, y: real)
    requires x >= 0.0 && y >= 0.0
    ensures Mul(x, y) >= 0.0
  {
  }

  lemma QuotientNonNegative(num: real, denA: real, denB: real)
    requires num >= 0.0 && denA > 0.0 && denB > 0.0
    ensures Quotient(num, denA, denB) >= 0.0
  {
    assert denA * denB > 0.0;
  }
}
