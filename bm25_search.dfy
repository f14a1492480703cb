/**
 * Keyword search: a tokenizer and the BM25-style ranking of documents for a
 * query. The per-term weight (the IDF and length-normalised TF formula) is
 * an abstract function of the counts it is computed from.
 */
module Bm25Search {
  import opened Text
  import opened Seqs
  import opened Ranking

  /** The characters of the pattern [a-zA-Z0-9]+. */
  predicate IsAlnum(c: char)
  {
    'a' <= c <= 'z' || 'A' <= c <= 'Z' || '0' <= c <= '9'
  }

  const Stopwords: set<string> := {
    "a", "an", "the", "and", "or", "but", "in", "on", "at", "to", "for",
    "of", "with", "by", "from", "as", "is", "was", "are", "were", "be",
    "been", "being", "have", "has", "had", "do", "does", "did", "will",
    "would", "shall", "should", "may", "might", "must", "can", "could",
    "not", "no", "nor", "so", "if", "then", "than", "too", "very",
    "just", "about", "above", "after", "again", "all", "also", "am",
    "any", "because", "before", "between", "both", "each", "few",
    "here", "how", "into", "it", "its", "me", "more", "most", "my",
    "new", "now", "only", "other", "our", "out", "own", "re", "same",
    "she", "he", "some", "such", "that", "their", "them", "there",
    "these", "they", "this", "those", "through", "under", "until", "up",
    "we", "what", "when", "where", "which", "while", "who", "whom",
    "why", "you", "your"
  }

  /** A token the tokenizer keeps. */
  predicate IsTerm(t: string)
  {
    t !in Stopwords && |t| > 1
  }

  /** s[a..b] is a maximal run of alphanumerics: one match of [a-zA-Z0-9]+ in re.findall. */
  predicate IsMaxRun(s: string, a: int, b: int)
  {
    0 <= a < b <= |s| && (a == 0 || !IsAlnum(s[a - 1])) && (b == |s| || !IsAlnum(s[b]))
    && forall j :: a <= j < b ==> IsAlnum(s[j])
  }

  function AlnumRunEnd(s: string, i: nat): (e: nat)
    requires i <= |s|
    ensures i <= e <= |s|
    ensures forall j :: i <= j < e ==> IsAlnum(s[j])
    ensures e == |s| || !IsAlnum(s[e])
    decreases |s| - i
  {
    if i == |s| || !IsAlnum(s[i]) then i else AlnumRunEnd(s, i + 1)
  }

  /** i does not fall strictly inside a run of alphanumerics. */
  predicate AtBoundary(s: string, i: nat)
  {
    i <= |s| && (i == 0 || i == |s| || !IsAlnum(s[i - 1]) || !IsAlnum(s[i]))
  }

  /** A maximal run that starts at i ends where the run scan from i stops. */
  lemma RunEndUnique(s: string, i: nat, b: int)
    requires i < |s| && IsMaxRun(s, i, b)
    ensures b == AlnumRunEnd(s, i)
  {
  }

  /** The spans of the kept tokens from position i on, left to right. */
  function TermSpans(s: string, i: nat): (r: seq<(nat, nat)>)
    requires AtBoundary(s, i)
    ensures forall k :: 0 <= k < |r| ==> i <= r[k].0 < r[k].1 <= |s|
    decreases |s| - i
  {
    if i == |s| then []
    else if !IsAlnum(s[i]) then TermSpans(s, i + 1)
    else
      var e := AlnumRunEnd(s, i);
      if IsTerm(s[i..e]) then [(i, e)] + TermSpans(s, e) else TermSpans(s, e)
  }

  /** Every span TermSpans finds from position i is a maximal run at or after i that is a term. */
  lemma {:induction false} TermSpansSound(s: string, i: nat)
    requires AtBoundary(s, i)
    ensures forall k :: 0 <= k < |TermSpans(s, i)| ==>
      var span := TermSpans(s, i)[k]; i <= span.0 && IsMaxRun(s, span.0, span.1) && IsTerm(s[span.0..span.1])
    decreases |s| - i
  {
    if i < |s| {
      if !IsAlnum(s[i]) {
        TermSpansSound(s, i + 1);
      } else {
        var e := AlnumRunEnd(s, i);
        TermSpansSound(s, e);
        assert IsMaxRun(s, i, e);
      }
    }
  }

  /** The spans run left to right without touching. */
  lemma {:induction false} TermSpansOrdered(s: string, i: nat)
    requires AtBoundary(s, i)
    ensures forall k :: 0 <= k < |TermSpans(s, i)| - 1 ==> TermSpans(s, i)[k].1 < TermSpans(s, i)[k + 1].0
    decreases |s| - i
  {
    if i < |s| {
      if !IsAlnum(s[i]) {
        TermSpansOrdered(s, i + 1);
      } else {
        var e := AlnumRunEnd(s, i);
        TermSpansOrdered(s, e);
        var rest := TermSpans(s, e);
        if IsTerm(s[i..e]) && rest != [] {
          TermSpansSound(s, e);
          assert IsMaxRun(s, rest[0].0, rest[0].1);
          assert rest[0].0 != e;
          var r := [(i, e)] + rest;
          forall k | 0 <= k < |r| - 1 ensures r[k].1 < r[k + 1].0 {
            if k > 0 {
              assert r[k] == rest[k - 1] && r[k + 1] == rest[k];
            }
          }
        }
      }
    }
  }

  /** Every maximal run at or after i that is a term is among the spans. */
  lemma {:induction false} TermSpansComplete(s: string, i: nat)
    requires AtBoundary(s, i)
    ensures forall a, b :: i <= a && IsMaxRun(s, a, b) && IsTerm(s[a..b]) ==> (a, b) in TermSpans(s, i)
    decreases |s| - i
  {
    if i < |s| {
      if !IsAlnum(s[i]) {
        TermSpansComplete(s, i + 1);
      } else {
        var e := AlnumRunEnd(s, i);
        TermSpansComplete(s, e);
        forall b | IsMaxRun(s, i, b) ensures b == e {
          RunEndUnique(s, i, b);
        }
        forall a, b | IsMaxRun(s, a, b) && i < a ensures e <= a {
          assert !IsAlnum(s[a - 1]);
        }
      }
    }
  }

  function Words(s: string, spans: seq<(nat, nat)>): (r: seq<string>)
    requires forall k :: 0 <= k < |spans| ==> spans[k].0 <= spans[k].1 <= |s|
    ensures |r| == |spans| && forall k :: 0 <= k < |r| ==> r[k] == s[spans[k].0..spans[k].1]
  {
    seq(|spans|, k requires 0 <= k < |spans| => s[spans[k].0..spans[k].1])
  }

  /**
   * tokenize: the lower-cased text's alphanumeric runs, in order, without
   * stopwords and one-character runs.
   */
  function Tokenize(text: string): seq<string>
  {
    var low := Lower(text);
    Words(low, TermSpans(low, 0))
  }

  /** Every token is a term of lower-case letters and digits. */
  lemma TokensAreTerms(text: string)
    ensures var r := Tokenize(text);
      && (forall k :: 0 <= k < |r| ==> IsTerm(r[k]))
      && (forall k, j :: 0 <= k < |r| && 0 <= j < |r[k]| ==> 'a' <= r[k][j] <= 'z' || '0' <= r[k][j] <= '9')
  {
    var low := Lower(text);
    var spans := TermSpans(low, 0);
    TermSpansSound(low, 0);
    var r := Words(low, spans);
    forall k, j | 0 <= k < |r| && 0 <= j < |r[k]| ensures 'a' <= r[k][j] <= 'z' || '0' <= r[k][j] <= '9' {
      var p := spans[k].0 + j;
      assert r[k][j] == low[p] == LowerChar(text[p]);
      assert IsAlnum(low[p]);
    }
  }

  /**
   * The tokens are the lower-cased text at its maximal alphanumeric runs
   * that are terms: all of them, left to right.
   */
  lemma TokensInSourceOrder(text: string)
    ensures var low := Lower(text);
      var spans := TermSpans(low, 0);
      && Tokenize(text) == Words(low, spans)
      && (forall k :: 0 <= k < |spans| ==> IsMaxRun(low, spans[k].0, spans[k].1))
      && (forall k :: 0 <= k < |spans| - 1 ==> spans[k].1 < spans[k + 1].0)
      && (forall a, b :: IsMaxRun(low, a, b) && IsTerm(low[a..b]) ==> (a, b) in spans)
  {
    TermSpansSound(Lower(text), 0);
    TermSpansOrdered(Lower(text), 0);
    TermSpansComplete(Lower(text), 0);
  }

  // ---------------------------------------------------------------------------
  // Document frequency
  // ---------------------------------------------------------------------------

  /** The intended document frequency: the number of documents whose tokens contain the term. */
  function DocFreq(term: string, docs: seq<seq<string>>): (n: nat)
    ensures n <= |docs|
    ensures n == 0 <==> forall d :: 0 <= d < |docs| ==> term !in docs[d]
  {
    if docs == [] then 0
    else DocFreq(term, docs[..|docs| - 1]) + (if term in docs[|docs| - 1] then 1 else 0)
  }

  /** The count bm25_search keeps as written: one increment per occurrence of the term in the query, per document. */
  function DocFreqAsWritten(term: string, query: seq<string>, docs: seq<seq<string>>): nat
  {
    if docs == [] then 0
    else DocFreqAsWritten(term, query, docs[..|docs| - 1]) + (if term in docs[|docs| - 1] then Count(query, term) else 0)
  }

  /** As written, the count is the true document frequency times the term's multiplicity in the query. */
  lemma {:induction false} DocFreqAsWrittenScales(term: string, query: seq<string>, docs: seq<seq<string>>)
    ensures DocFreqAsWritten(term, query, docs) == Count(query, term) * DocFreq(term, docs)
  {
    if docs != [] {
      var init, last := docs[..|docs| - 1], docs[|docs| - 1];
      DocFreqAsWrittenScales(term, query, init);
      var c, d := Count(query, term), DocFreq(term, init);
      if term in last {
        assert DocFreqAsWritten(term, query, docs) == c * d + c;
        assert DocFreq(term, docs) == d + 1;
        MulSucc(c, d);
      } else {
        assert DocFreqAsWritten(term, query, docs) == c * d;
        assert DocFreq(term, docs) == d;
      }
    }
  }

  lemma MulSucc(c: nat, d: nat)
    ensures c * (d + 1) == c * d + c
  {
  }

  /** A query with a repeated term over one matching document counts that term in two documents out of one. */
  lemma RepeatedQueryTermExceedsN()
    ensures DocFreqAsWritten("cat", ["cat", "cat"], [["cat"]]) == 2 > |[["cat"]]|
    ensures DocFreq("cat", [["cat"]]) == 1
  {
    DocFreqAsWrittenScales("cat", ["cat", "cat"], [["cat"]]);
    assert Count(["cat", "cat"], "cat") == 2 by {
      assert ["cat", "cat"][..1] == ["cat"];
      assert Count(["cat"], "cat") == 1;
    }
  }

  // ---------------------------------------------------------------------------
  // Scores
  // ---------------------------------------------------------------------------

  /** idf * tf_norm for a term: (N, document frequency, term frequency, document length, average length). */
  type Weight = (nat, nat, nat, nat, real) -> real

  function SumLengths(docs: seq<seq<string>>): nat
  {
    if docs == [] then 0 else SumLengths(docs[..|docs| - 1]) + |docs[|docs| - 1]|
  }

  /** avg_dl: the mean token count. */
  function AvgLength(docs: seq<seq<string>>): real
    requires docs != []
  {
    SumLengths(docs) as real / |docs| as real
  }

  /**
   * The sum over the tokens q (repeats included) that occur in document d;
   * each weight gets the document frequency the df loop counts for the
   * whole query.
   */
  function TermSum(q: seq<string>, query: seq<string>, docs: seq<seq<string>>, d: nat, w: Weight): real
    requires d < |docs|
  {
    if q == [] then 0.0
    else
      var term := q[|q| - 1];
      TermSum(q[..|q| - 1], query, docs, d, w)
      + (if term in docs[d] then w(|docs|, DocFreqAsWritten(term, query, docs), Count(docs[d], term), |docs[d]|, AvgLength(docs))
         else 0.0)
  }

  /** A document without tokens scores 0. */
  function Score(query: seq<string>, docs: seq<seq<string>>, d: nat, w: Weight): (s: real)
    requires d < |docs|
    ensures docs[d] == [] ==> s == 0.0
  {
    if docs[d] == [] then 0.0 else TermSum(query, query, docs, d, w)
  }

  /** A term the query names once gets the true document frequency. */
  lemma SingleQueryTermAgrees(term: string, query: seq<string>, docs: seq<seq<string>>)
    requires Count(query, term) == 1
    ensures DocFreqAsWritten(term, query, docs) == DocFreq(term, docs)
  {
    DocFreqAsWrittenScales(term, query, docs);
  }

  /**
   * The query "cat cat" over the one document "cat": each of the two
   * weights is computed with a document frequency of 2 for N = 1.
   */
  lemma RepeatedTermWeight(q: seq<string>, docs: seq<seq<string>>, w: Weight)
    requires q == ["cat", "cat"] && docs == [["cat"]]
    ensures Score(q, docs, 0, w) == w(1, 2, 1, 1, 1.0) + w(1, 2, 1, 1, 1.0)
  {
    RepeatedQueryTermExceedsN();
    assert Count(docs[0], "cat") == 1 by {
      assert docs[0][..0] == [];
    }
    assert AvgLength(docs) == 1.0 by {
      assert docs[..0] == [];
    }
    assert q[..1] == ["cat"] && q[..1][..0] == [];
  }

  /** [(i, s) for i, s in enumerate(scores) if s > 0] */
  function Positive(scores: seq<real>): (r: seq<(nat, real)>)
    ensures forall k :: 0 <= k < |r| ==> r[k].0 < |scores| && r[k].1 == scores[r[k].0] && r[k].1 > 0.0
    ensures forall k :: 0 <= k < |r| - 1 ==> r[k].0 < r[k + 1].0
    ensures forall i :: 0 <= i < |scores| && scores[i] > 0.0 ==> (i, scores[i]) in r
  {
    if scores == [] then []
    else
      var init := scores[..|scores| - 1];
      var last := |scores| - 1;
      Positive(init) + (if scores[last] > 0.0 then [(last, scores[last])] else [])
  }

  function Seconds(s: seq<(nat, real)>): (r: seq<real>)
    ensures |r| == |s| && forall k :: 0 <= k < |s| ==> r[k] == s[k].1
  {
    seq(|s|, k requires 0 <= k < |s| => s[k].1)
  }

  /** indexed_scores, tagged with its positions and sorted. */
  function SortPositive(scores: seq<real>): seq<Ranked<(nat, real)>>
  {
    SortRanked(Tag(Positive(scores), Seconds(Positive(scores))))
  }

  lemma SortPositiveEntries(scores: seq<real>)
    ensures var p, sp := Positive(scores), SortPositive(scores);
      forall k :: 0 <= k < |sp| ==> sp[k].pos < |p| && sp[k] == Ranked(sp[k].pos, p[sp[k].pos].1, p[sp[k].pos])
  {
    var p := Positive(scores);
    FromTag(SortPositive(scores), p, Seconds(p));
  }

  lemma SortPositiveOrder(scores: seq<real>, k: nat, l: nat)
    requires k < l < |SortPositive(scores)|
    ensures var sp := SortPositive(scores);
      sp[k].item.1 > sp[l].item.1 || (sp[k].item.1 == sp[l].item.1 && sp[k].item.0 < sp[l].item.0)
  {
    var sp := SortPositive(scores);
    SortPositiveEntries(scores);
    assert Before(sp[k], sp[l]);
    if sp[k].score == sp[l].score {
      PositiveIncreasing(scores, sp[k].pos, sp[l].pos);
    }
  }

  lemma SortPositiveComplete(scores: seq<real>, i: nat)
    requires i < |scores| && scores[i] > 0.0
    ensures exists m :: 0 <= m < |SortPositive(scores)| && SortPositive(scores)[m].item == (i, scores[i])
  {
    var p := Positive(scores);
    var tagged := Tag(p, Seconds(p));
    var k :| 0 <= k < |p| && p[k] == (i, scores[i]);
    assert tagged[k] in multiset(SortPositive(scores));
    var m :| 0 <= m < |SortPositive(scores)| && SortPositive(scores)[m] == tagged[k];
  }

  /**
   * indexed_scores after the stable reverse sort: the positive scores with
   * their indices, by non-increasing score, ties by ascending index.
   */
  function RankPositive(scores: seq<real>): (r: seq<(nat, real)>)
    ensures forall k :: 0 <= k < |r| ==> r[k].0 < |scores| && r[k].1 == scores[r[k].0] && r[k].1 > 0.0
    ensures forall k, l :: 0 <= k < l < |r| ==> r[k].1 > r[l].1 || (r[k].1 == r[l].1 && r[k].0 < r[l].0)
    ensures forall i :: 0 <= i < |scores| && scores[i] > 0.0 ==> (i, scores[i]) in r
  {
    SortPositiveEntries(scores);
    SortedItemsOrdered(scores);
    SortedItemsComplete(scores);
    Items(SortPositive(scores))
  }

  lemma SortedItemsOrdered(scores: seq<real>)
    ensures var items := Items(SortPositive(scores));
      forall k, l :: 0 <= k < l < |items| ==> items[k].1 > items[l].1 || (items[k].1 == items[l].1 && items[k].0 < items[l].0)
  {
    var items := Items(SortPositive(scores));
    forall k, l | 0 <= k < l < |items|
      ensures items[k].1 > items[l].1 || (items[k].1 == items[l].1 && items[k].0 < items[l].0)
    {
      SortPositiveOrder(scores, k, l);
    }
  }

  lemma SortedItemsComplete(scores: seq<real>)
    ensures forall i :: 0 <= i < |scores| && scores[i] > 0.0 ==> (i, scores[i]) in Items(SortPositive(scores))
  {
    var items := Items(SortPositive(scores));
    forall i | 0 <= i < |scores| && scores[i] > 0.0 ensures (i, scores[i]) in items {
      SortPositiveComplete(scores, i);
    }
  }

  /** The token lists of the documents. */
  function DocTokens(docs: seq<string>): (r: seq<seq<string>>)
    ensures |r| == |docs| && forall i :: 0 <= i < |docs| ==> r[i] == Tokenize(docs[i])
  {
    seq(|docs|, i requires 0 <= i < |docs| => Tokenize(docs[i]))
  }

  function Scores(query: seq<string>, docs: seq<seq<string>>, w: Weight): (r: seq<real>)
    ensures |r| == |docs| && forall i :: 0 <= i < |docs| ==> r[i] == Score(query, docs, i, w)
  {
    seq(|docs|, i requires 0 <= i < |docs| => Score(query, docs, i, w))
  }

  /** The documents ranked for the query's tokens, cut to top_n. */
  function RankedResults(q: seq<string>, dt: seq<seq<string>>, topN: int, w: Weight): seq<(nat, real)>
  {
    Prefix(RankPositive(Scores(q, dt, w)), topN)
  }

  /** The result of bm25_search, specified on the whole input. */
  function Bm25Results(query: string, docs: seq<string>, topN: int, w: Weight): seq<(nat, real)>
  {
    if docs == [] || query == "" then []
    else
      var q := Tokenize(query);
      if q == [] then [] else RankedResults(q, DocTokens(docs), topN, w)
  }

  /**
   * The ranked documents have a positive score, so they are never a
   * document without tokens; they carry that score, come in non-increasing
   * score order with ties by ascending index, and number at most top_n.
   */
  lemma RankedResultsProperties(q: seq<string>, dt: seq<seq<string>>, topN: int, w: Weight)
    ensures var r := RankedResults(q, dt, topN, w);
      (topN >= 0 ==> |r| <= topN)
      && (forall k :: 0 <= k < |r| ==>
            (r[k].0 < |dt| && r[k].1 > 0.0 && dt[r[k].0] != [] && r[k].1 == Score(q, dt, r[k].0, w)))
      && (forall k, l :: 0 <= k < l < |r| ==> r[k].1 > r[l].1 || (r[k].1 == r[l].1 && r[k].0 < r[l].0))
  {
    var scores := Scores(q, dt, w);
    var items := RankPositive(scores);
    var r := Prefix(items, topN);
    forall k | 0 <= k < |r|
      ensures r[k].0 < |dt| && r[k].1 > 0.0 && dt[r[k].0] != [] && r[k].1 == Score(q, dt, r[k].0, w)
    {
      assert r[k] == items[k];
      var d := items[k].0;
      assert items[k].1 == scores[d] == Score(q, dt, d, w);
    }
    forall k, l | 0 <= k < l < |r| ensures r[k].1 > r[l].1 || (r[k].1 == r[l].1 && r[k].0 < r[l].0) {
      assert r[k] == items[k] && r[l] == items[l];
    }
  }

  /**
   * The results name documents with a positive score (so never a document
   * without tokens), carry that score, come in non-increasing score order
   * with ties by ascending index, and number at most top_n.
   */
  lemma Bm25ResultsProperties(query: string, docs: seq<string>, topN: int, w: Weight)
    ensures var r := Bm25Results(query, docs, topN, w);
      (topN >= 0 ==> |r| <= topN)
      && (forall k :: 0 <= k < |r| ==>
            (r[k].0 < |docs| && r[k].1 > 0.0 && Tokenize(docs[r[k].0]) != []
             && r[k].1 == Score(Tokenize(query), DocTokens(docs), r[k].0, w)))
      && (forall k, l :: 0 <= k < l < |r| ==> r[k].1 > r[l].1 || (r[k].1 == r[l].1 && r[k].0 < r[l].0))
  {
    if docs != [] && query != "" && Tokenize(query) != [] {
      RankedResultsProperties(Tokenize(query), DocTokens(docs), topN, w);
    }
  }

  /** The indices of Positive increase strictly with position. */
  lemma {:induction false} PositiveIncreasing(scores: seq<real>, a: nat, b: nat)
    requires a < b < |Positive(scores)|
    ensures Positive(scores)[a].0 < Positive(scores)[b].0
  {
    var p := Positive(scores);
    if b > a + 1 {
      PositiveIncreasing(scores, a, b - 1);
    }
  }

  /** An empty document list, an empty query, or a query without tokens gives no results. */
  lemma NothingToRank(query: string, docs: seq<string>, topN: int, w: Weight)
    requires docs == [] || Tokenize(query) == []
    ensures Bm25Results(query, docs, topN, w) == []
  {
  }

  // ---------------------------------------------------------------------------
  // The loops of bm25_search
  // ---------------------------------------------------------------------------

  /**
   * The df loop: for each document, one increment per query token (repeats
   * included) that occurs in the document's token set.
   */
  method CountDocFreq(queryTokens: seq<string>, docTokens: seq<seq<string>>) returns (df: map<string, nat>)
    ensures forall t :: t in queryTokens ==> Get(df, t, 0) == DocFreqAsWritten(t, queryTokens, docTokens)
  {
    df := map[];
    for i := 0 to |docTokens|
      invariant forall t :: t in queryTokens ==> Get(df, t, 0) == DocFreqAsWritten(t, queryTokens, docTokens[..i])
    {
      assert docTokens[..i + 1][..i] == docTokens[..i];
      var unique := set t | t in docTokens[i];
      for j := 0 to |queryTokens|
        invariant forall t :: t in queryTokens ==>
          Get(df, t, 0) == DocFreqAsWritten(t, queryTokens, docTokens[..i]) + (if t in unique then Count(queryTokens[..j], t) else 0)
      {
        assert queryTokens[..j + 1][..j] == queryTokens[..j];
        if queryTokens[j] in unique {
          df := df[queryTokens[j] := Get(df, queryTokens[j], 0) + 1];
        }
      }
      assert queryTokens[..|queryTokens|] == queryTokens;
    }
    assert docTokens[..|docTokens|] == docTokens;
  }

  /** One iteration of the scoring loop: 0.0 for a document without tokens, else the sum over the query's tokens. */
  method ScoreDocument(queryTokens: seq<string>, docTokens: seq<seq<string>>, i: nat, df: map<string, nat>, avgDl: real, w: Weight)
    returns (score: real)
    requires i < |docTokens| && avgDl == AvgLength(docTokens)
    requires forall t :: t in queryTokens ==> Get(df, t, 0) == DocFreqAsWritten(t, queryTokens, docTokens)
    ensures score == Score(queryTokens, docTokens, i, w)
  {
    var tokens := docTokens[i];
    if tokens == [] {
      return 0.0;
    }
    score := 0.0;
    for j := 0 to |queryTokens|
      invariant score == TermSum(queryTokens[..j], queryTokens, docTokens, i, w)
    {
      assert queryTokens[..j + 1][..j] == queryTokens[..j];
      var term := queryTokens[j];
      if term in tokens {
        var n := Get(df, term, 0);
        score := score + w(|docTokens|, n, Count(tokens, term), |tokens|, avgDl);
      }
    }
    assert queryTokens[..|queryTokens|] == queryTokens;
  }

  method Bm25Search(query: string, docs: seq<string>, topN: int, w: Weight) returns (r: seq<(nat, real)>)
    ensures r == Bm25Results(query, docs, topN, w)
  {
    if docs == [] || query == "" {
      return [];
    }
    var queryTokens := Tokenize(query);
    if queryTokens == [] {
      return [];
    }
    var docTokens := DocTokens(docs);
    var avgDl := AvgLength(docTokens);
    var df := CountDocFreq(queryTokens, docTokens);
    var scores: seq<real> := [];
    for i := 0 to |docTokens|
      invariant |scores| == i && forall d :: 0 <= d < i ==> scores[d] == Score(queryTokens, docTokens, d, w)
    {
      var score := ScoreDocument(queryTokens, docTokens, i, df, avgDl, w);
      scores := scores + [score];
    }
    assert scores == Scores(queryTokens, docTokens, w);
    r := Prefix(RankPositive(scores), topN);
    assert r == RankedResults(queryTokens, docTokens, topN, w);
  }
}
