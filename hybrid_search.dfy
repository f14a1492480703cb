/**
 * Hybrid retrieval: vector results and BM25 keyword results merged by
 * Reciprocal Rank Fusion. Scores are exact rationals (`real`).
 */
module HybridSearch {
  import opened Wrappers
  import opened Text
  import opened Seqs
  import opened Ranking

  /** A result row (vector hit or stored chunk): the fields the merge reads and writes. */
  datatype Hit = Hit(filePath: Option<string>, chunkIndex: Option<int>, text: string,
                     distance: Option<real>, rrfScore: Option<real>)

  /** _result_key: file_path + "::" + chunk_index, with defaults "" and 0. */
  function ResultKey(h: Hit): string
  {
    h.filePath.GetOr("") + "::" + IntToString(h.chunkIndex.GetOr(0))
  }

  predicate NoColon(s: string)
  {
    forall i :: 0 <= i < |s| ==> s[i] != ':'
  }

  lemma IntToStringNoColon(i: int)
    ensures NoColon(IntToString(i))
  {
    var s := IntToString(i);
    forall j | 0 <= j < |s| ensures s[j] != ':' {
      if j > 0 {
        assert IsDigit(s[j]);
      }
    }
  }

  /** When the separator ends a colon-free suffix shorter than another, the two keys differ. */
  lemma ShorterSuffixDiffers(x: string, u: string, y: string, v: string)
    requires NoColon(v)
    ensures |u| < |v| ==> x + "::" + u != y + "::" + v
  {
    if |u| < |v| {
      var a, b := x + "::" + u, y + "::" + v;
      if |a| == |b| {
        assert a[|a| - |u| - 1] == ':';
        assert b[|b| - |u| - 1] == v[|v| - |u| - 1];
      }
    }
  }

  /** The key determines the file path and the chunk index it was built from. */
  lemma ResultKeyInjective(a: Hit, b: Hit)
    requires ResultKey(a) == ResultKey(b)
    ensures a.filePath.GetOr("") == b.filePath.GetOr("")
    ensures a.chunkIndex.GetOr(0) == b.chunkIndex.GetOr(0)
  {
    var x, u := a.filePath.GetOr(""), IntToString(a.chunkIndex.GetOr(0));
    var y, v := b.filePath.GetOr(""), IntToString(b.chunkIndex.GetOr(0));
    IntToStringNoColon(a.chunkIndex.GetOr(0));
    IntToStringNoColon(b.chunkIndex.GetOr(0));
    ShorterSuffixDiffers(x, u, y, v);
    ShorterSuffixDiffers(y, v, x, u);
    var w := x + "::" + u;
    assert |u| == |v|;
    assert u == w[|w| - |u|..] == v;
    assert x == w[..|x|] == y;
    IntToStringInjective(a.chunkIndex.GetOr(0), b.chunkIndex.GetOr(0));
  }

  // ---------------------------------------------------------------------------
  // Reciprocal Rank Fusion
  // ---------------------------------------------------------------------------

  /** Σ 1/(k + r + 1) over the 0-based positions r at which key occurs in keys. */
  function RankSum(keys: seq<string>, key: string, k: nat): (s: real)
    ensures s >= 0.0
    ensures s == 0.0 <==> key !in keys
  {
    if keys == [] then 0.0
    else
      var init := keys[..|keys| - 1];
      assert key in keys <==> key in init || keys[|keys| - 1] == key;
      RankSum(init, key, k) + (if keys[|keys| - 1] == key then 1.0 / (k + |init| + 1) as real else 0.0)
  }

  function Keys(hits: seq<Hit>): (r: seq<string>)
    ensures |r| == |hits| && forall i :: 0 <= i < |hits| ==> r[i] == ResultKey(hits[i])
  {
    seq(|hits|, i requires 0 <= i < |hits| => ResultKey(hits[i]))
  }

  predicate ValidBm25(bm25: seq<(nat, real)>, chunks: seq<Hit>)
  {
    forall i :: 0 <= i < |bm25| ==> bm25[i].0 < |chunks|
  }

  /** The chunks the BM25 results point at, in BM25 rank order. */
  function Bm25Chunks(bm25: seq<(nat, real)>, chunks: seq<Hit>): (r: seq<Hit>)
    requires ValidBm25(bm25, chunks)
    ensures |r| == |bm25| && forall i :: 0 <= i < |bm25| ==> r[i] == chunks[bm25[i].0]
  {
    seq(|bm25|, i requires 0 <= i < |bm25| => chunks[bm25[i].0])
  }

  /** The RRF score of a key: its rank contributions from the vector list and from the BM25 list. */
  function Rrf(key: string, vecKeys: seq<string>, bmKeys: seq<string>, k: nat): real
  {
    RankSum(vecKeys, key, k) + RankSum(bmKeys, key, k)
  }

  /** bm25_lookup[key]: the last BM25 chunk with that key (later assignments overwrite). */
  function LastWithKey(bmHits: seq<Hit>, key: string): (h: Hit)
    requires key in Keys(bmHits)
    ensures h in bmHits && ResultKey(h) == key
  {
    var init := bmHits[..|bmHits| - 1];
    var last := bmHits[|bmHits| - 1];
    if ResultKey(last) == key then last
    else
      KeyInFront(bmHits, key);
      var h := LastWithKey(init, key);
      assert h in bmHits by { var j :| 0 <= j < |init| && init[j] == h; assert bmHits[j] == h; }
      h
  }

  /** A key of the hits that is not the last hit's is a key of the hits before it. */
  lemma KeyInFront(hits: seq<Hit>, key: string)
    requires key in Keys(hits) && ResultKey(hits[|hits| - 1]) != key
    ensures key in Keys(hits[..|hits| - 1])
  {
    var i :| 0 <= i < |hits| && Keys(hits)[i] == key;
    assert Keys(hits[..|hits| - 1])[i] == key;
  }

  /** A vector result with its score attached. */
  function Scored(h: Hit, s: real): Hit
  {
    h.(rrfScore := Some(s))
  }

  function VectorPart(vec: seq<Hit>, vecKeys: seq<string>, bmKeys: seq<string>, k: nat): (r: seq<Hit>)
    ensures |r| == |vec|
    ensures forall i :: 0 <= i < |vec| ==> r[i] == Scored(vec[i], Rrf(ResultKey(vec[i]), vecKeys, bmKeys, k))
  {
    seq(|vec|, i requires 0 <= i < |vec| => Scored(vec[i], Rrf(ResultKey(vec[i]), vecKeys, bmKeys, k)))
  }

  /** The BM25-only entries for the lookup keys in order: those not among the vector keys, with distance 2.0. */
  function Bm25Part(order: seq<string>, bmHits: seq<Hit>, vecKeys: seq<string>, bmKeys: seq<string>, k: nat): seq<Hit>
    requires forall i :: 0 <= i < |order| ==> order[i] in Keys(bmHits)
  {
    if order == [] then []
    else
      var key := order[|order| - 1];
      Bm25Part(order[..|order| - 1], bmHits, vecKeys, bmKeys, k)
      + (if key !in vecKeys then [LastWithKey(bmHits, key).(rrfScore := Some(Rrf(key, vecKeys, bmKeys, k)), distance := Some(2.0))] else [])
  }

  /** The combined list before sorting. */
  function Combined(vec: seq<Hit>, chunks: seq<Hit>, bm25: seq<(nat, real)>, k: nat): seq<Hit>
    requires ValidBm25(bm25, chunks)
  {
    var bmHits := Bm25Chunks(bm25, chunks);
    var vecKeys, bmKeys := Keys(vec), Keys(bmHits);
    VectorPart(vec, vecKeys, bmKeys, k) + Bm25Part(Dedup(bmKeys), bmHits, vecKeys, bmKeys, k)
  }

  function RrfOf(hits: seq<Hit>): (r: seq<real>)
    ensures |r| == |hits| && forall i :: 0 <= i < |hits| ==> r[i] == hits[i].rrfScore.GetOr(0.0)
  {
    seq(|hits|, i requires 0 <= i < |hits| => hits[i].rrfScore.GetOr(0.0))
  }

  /** combined.sort(key=rrf_score, reverse=True) */
  function SortByRrf(hits: seq<Hit>): seq<Hit>
  {
    Items(SortRanked(Tag(hits, RrfOf(hits))))
  }

  /** hybrid_merge, with the chunk table and the BM25 results over it given. */
  function HybridResults(vec: seq<Hit>, chunks: seq<Hit>, bm25: seq<(nat, real)>, topN: int, k: nat): seq<Hit>
    requires ValidBm25(bm25, chunks)
  {
    if vec == [] then []
    else if chunks == [] then Prefix(seq(|vec|, i requires 0 <= i < |vec| => Scored(vec[i], 0.0)), topN)
    else Prefix(SortByRrf(Combined(vec, chunks, bm25, k)), topN)
  }

  // ---------------------------------------------------------------------------
  // Properties
  // ---------------------------------------------------------------------------

  /** Without vector results there is nothing to merge. */
  lemma NoVectorResults(chunks: seq<Hit>, bm25: seq<(nat, real)>, topN: int, k: nat)
    requires ValidBm25(bm25, chunks)
    ensures HybridResults([], chunks, bm25, topN, k) == []
  {
  }

  /** Without chunks every vector result gets score 0.0 and the first top_n are returned in order. */
  lemma NoChunks(vec: seq<Hit>, topN: int, k: nat)
    requires vec != []
    ensures var r := HybridResults(vec, [], [], topN, k);
      |r| == |Prefix(vec, topN)| && forall i :: 0 <= i < |r| ==> r[i] == vec[i].(rrfScore := Some(0.0))
  {
  }

  /** The keys of the BM25-only entries: the lookup keys that are not vector keys, in lookup order. */
  lemma {:induction false} Bm25PartKeys(order: seq<string>, bmHits: seq<Hit>, vecKeys: seq<string>, bmKeys: seq<string>, k: nat)
    requires forall i :: 0 <= i < |order| ==> order[i] in Keys(bmHits)
    ensures Keys(Bm25Part(order, bmHits, vecKeys, bmKeys, k)) == Filter(order, key => key !in vecKeys)
  {
    if order != [] {
      var init := order[..|order| - 1];
      Bm25PartKeys(init, bmHits, vecKeys, bmKeys, k);
      var key := order[|order| - 1];
      var part := Bm25Part(init, bmHits, vecKeys, bmKeys, k);
      if key !in vecKeys {
        var e := LastWithKey(bmHits, key).(rrfScore := Some(Rrf(key, vecKeys, bmKeys, k)), distance := Some(2.0));
        assert Keys(part + [e]) == Keys(part) + [key];
      }
    }
  }

  /** Each BM25-only entry carries distance 2.0 and the RRF score of its own key. */
  lemma {:induction false} Bm25PartEntries(order: seq<string>, bmHits: seq<Hit>, vecKeys: seq<string>, bmKeys: seq<string>, k: nat)
    requires forall i :: 0 <= i < |order| ==> order[i] in Keys(bmHits)
    ensures forall e :: e in Bm25Part(order, bmHits, vecKeys, bmKeys, k) ==>
      e.distance == Some(2.0) && e.rrfScore == Some(Rrf(ResultKey(e), vecKeys, bmKeys, k)) && ResultKey(e) !in vecKeys
  {
    if order != [] {
      Bm25PartEntries(order[..|order| - 1], bmHits, vecKeys, bmKeys, k);
    }
  }

  /**
   * Before sorting: one entry per vector result, in vector order, then each
   * key found only by BM25 exactly once, in first-occurrence order; every
   * entry carries the RRF score of its key.
   */
  lemma CombinedShape(vec: seq<Hit>, chunks: seq<Hit>, bm25: seq<(nat, real)>, k: nat)
    requires ValidBm25(bm25, chunks)
    ensures var c := Combined(vec, chunks, bm25, k);
      var bmKeys := Keys(Bm25Chunks(bm25, chunks));
      |vec| <= |c|
      && (forall i :: 0 <= i < |vec| ==> c[i] == vec[i].(rrfScore := Some(Rrf(ResultKey(vec[i]), Keys(vec), bmKeys, k))))
      && Keys(c[|vec|..]) == Filter(Dedup(bmKeys), key => key !in Keys(vec))
      && (forall i :: |vec| <= i < |c| ==> c[i].distance == Some(2.0))
      && (forall i :: 0 <= i < |c| ==> c[i].rrfScore == Some(Rrf(ResultKey(c[i]), Keys(vec), bmKeys, k)))
  {
    var bmHits := Bm25Chunks(bm25, chunks);
    var vecKeys, bmKeys := Keys(vec), Keys(bmHits);
    var vp := VectorPart(vec, vecKeys, bmKeys, k);
    var bp := Bm25Part(Dedup(bmKeys), bmHits, vecKeys, bmKeys, k);
    Bm25PartKeys(Dedup(bmKeys), bmHits, vecKeys, bmKeys, k);
    Bm25PartEntries(Dedup(bmKeys), bmHits, vecKeys, bmKeys, k);
    var c := vp + bp;
    assert c[|vec|..] == bp;
    forall i | |vec| <= i < |c| ensures c[i].distance == Some(2.0) && c[i].rrfScore == Some(Rrf(ResultKey(c[i]), vecKeys, bmKeys, k)) {
      assert c[i] == bp[i - |vec|];
    }
  }

  /** Sorting by RRF keeps only merged hits and orders them by non-increasing score. */
  lemma SortByRrfOrder(hits: seq<Hit>)
    ensures |SortByRrf(hits)| == |hits|
    ensures forall i :: 0 <= i < |SortByRrf(hits)| ==> SortByRrf(hits)[i] in hits
    ensures forall i, j :: 0 <= i < j < |SortByRrf(hits)| ==>
      SortByRrf(hits)[i].rrfScore.GetOr(0.0) >= SortByRrf(hits)[j].rrfScore.GetOr(0.0)
  {
    var sorted := SortRanked(Tag(hits, RrfOf(hits)));
    assert |multiset(sorted)| == |multiset(Tag(hits, RrfOf(hits)))|;
    FromTag(sorted, hits, RrfOf(hits));
    forall i, j | 0 <= i < j < |sorted|
      ensures sorted[i].item.rrfScore.GetOr(0.0) >= sorted[j].item.rrfScore.GetOr(0.0)
    {
      assert Before(sorted[i], sorted[j]);
    }
  }

  /** The merged output: at most top_n entries of the combined list, by non-increasing RRF score. */
  lemma MergedOrder(vec: seq<Hit>, chunks: seq<Hit>, bm25: seq<(nat, real)>, topN: int, k: nat)
    requires ValidBm25(bm25, chunks)
    ensures var r := HybridResults(vec, chunks, bm25, topN, k);
      (topN >= 0 ==> |r| <= topN)
      && (chunks != [] ==> forall i :: 0 <= i < |r| ==> r[i] in Combined(vec, chunks, bm25, k))
      && (forall i, j :: 0 <= i < j < |r| ==> r[i].rrfScore.GetOr(0.0) >= r[j].rrfScore.GetOr(0.0))
  {
    if vec != [] && chunks != [] {
      var c := Combined(vec, chunks, bm25, k);
      SortByRrfOrder(c);
      var s := SortByRrf(c);
      var r := Prefix(s, topN);
      assert r == s[..|r|];
      forall i, j | 0 <= i < j < |r| ensures r[i].rrfScore.GetOr(0.0) >= r[j].rrfScore.GetOr(0.0) {
        assert r[i] == s[i] && r[j] == s[j];
      }
      forall i | 0 <= i < |r| ensures r[i] in c {
        assert r[i] == s[i];
      }
    }
  }

  // ---------------------------------------------------------------------------
  // hybrid_merge
  // ---------------------------------------------------------------------------

  /** For each rank of a result list: rrf_scores[key] = rrf_scores.get(key, 0) + 1.0 / (k + rank + 1). */
  method AddRanks(rrf0: map<string, real>, keys: seq<string>, k: nat) returns (rrf: map<string, real>)
    ensures forall key :: Get(rrf, key, 0.0) == Get(rrf0, key, 0.0) + RankSum(keys, key, k)
  {
    rrf := rrf0;
    for rank := 0 to |keys|
      invariant forall key :: Get(rrf, key, 0.0) == Get(rrf0, key, 0.0) + RankSum(keys[..rank], key, k)
    {
      assert keys[..rank + 1][..rank] == keys[..rank];
      var key := keys[rank];
      ghost var before := rrf;
      rrf := rrf[key := Get(rrf, key, 0.0) + 1.0 / (k + rank + 1) as real];
      forall key' ensures Get(rrf, key', 0.0) == Get(rrf0, key', 0.0) + RankSum(keys[..rank + 1], key', k) {
        assert Get(before, key', 0.0) == Get(rrf0, key', 0.0) + RankSum(keys[..rank], key', k);
      }
    }
    assert keys[..|keys|] == keys;
  }

  /** bm25_lookup[key] = chunk over the BM25 hits; the later hit with a key replaces the earlier one. */
  method BuildLookup(bmHits: seq<Hit>) returns (lookup: map<string, Hit>, lookupOrder: seq<string>)
    ensures lookupOrder == Dedup(Keys(bmHits))
    ensures forall key :: key in lookup <==> key in Keys(bmHits)
    ensures forall key :: key in lookup ==> key in Keys(bmHits) && lookup[key] == LastWithKey(bmHits, key)
  {
    lookup, lookupOrder := map[], [];
    for rank := 0 to |bmHits|
      invariant LookupOf(lookup, lookupOrder, bmHits[..rank])
    {
      assert bmHits[..rank + 1] == bmHits[..rank] + [bmHits[rank]];
      lookup, lookupOrder := AddToLookup(lookup, lookupOrder, bmHits[..rank], bmHits[rank]);
    }
    assert bmHits[..|bmHits|] == bmHits;
  }

  /** The lookup and its key order after the assignments for the hits. */
  ghost predicate LookupOf(lookup: map<string, Hit>, lookupOrder: seq<string>, hits: seq<Hit>)
  {
    && lookupOrder == Dedup(Keys(hits))
    && (forall key :: key in lookup <==> key in Keys(hits))
    && (forall key :: key in lookup ==> key in Keys(hits) && lookup[key] == LastWithKey(hits, key))
  }

  /** One pass of the lookup loop: bm25_lookup[key] = chunk, and the key's first occurrence is recorded. */
  method AddToLookup(lookup: map<string, Hit>, lookupOrder: seq<string>, ghost pre: seq<Hit>, chunk: Hit)
    returns (lookup': map<string, Hit>, lookupOrder': seq<string>)
    requires LookupOf(lookup, lookupOrder, pre)
    ensures LookupOf(lookup', lookupOrder', pre + [chunk])
  {
    var key := ResultKey(chunk);
    LookupStep(pre, chunk, lookup);
    lookupOrder' := lookupOrder;
    if key !in lookup {
      lookupOrder' := lookupOrder + [key];
    }
    lookup' := lookup[key := chunk];
  }

  /** One assignment bm25_lookup[key] = chunk keeps the lookup equal to the last chunk per key. */
  lemma LookupStep(pre: seq<Hit>, chunk: Hit, lookup: map<string, Hit>)
    requires forall key :: key in lookup <==> key in Keys(pre)
    requires forall key :: key in lookup ==> key in Keys(pre) && lookup[key] == LastWithKey(pre, key)
    ensures var post, key := pre + [chunk], ResultKey(chunk);
      && Keys(post) == Keys(pre) + [key]
      && Dedup(Keys(post)) == Dedup(Keys(pre)) + (if key in lookup then [] else [key])
      && (forall key' :: key' in lookup[key := chunk] <==> key' in Keys(post))
      && (forall key' :: key' in lookup[key := chunk] ==> key' in Keys(post) && lookup[key := chunk][key'] == LastWithKey(post, key'))
  {
    var post, key := pre + [chunk], ResultKey(chunk);
    assert Keys(post) == Keys(pre) + [key];
    assert Keys(post)[..|Keys(post)| - 1] == Keys(pre);
    assert post[..|post| - 1] == pre;
    forall key' | key' in Keys(pre) && key' != key ensures LastWithKey(post, key') == LastWithKey(pre, key') {
    }
  }

  /** Each vector result, copied with its score, in vector order; seen_keys collects their keys. */
  method VectorEntries(vec: seq<Hit>, rrf: map<string, real>, vecKeys: seq<string>, bmKeys: seq<string>, k: nat)
    returns (combined: seq<Hit>, seen: set<string>)
    requires forall key :: Get(rrf, key, 0.0) == Rrf(key, vecKeys, bmKeys, k)
    ensures combined == VectorPart(vec, vecKeys, bmKeys, k)
    ensures forall key :: key in seen <==> key in Keys(vec)
  {
    combined, seen := [], {};
    for i := 0 to |vec|
      invariant combined == VectorPart(vec[..i], vecKeys, bmKeys, k)
      invariant forall key :: key in seen <==> key in Keys(vec[..i])
    {
      assert vec[..i + 1] == vec[..i] + [vec[i]];
      combined, seen := AddVectorEntry(combined, seen, vec[i], rrf, vec[..i], vecKeys, bmKeys, k);
    }
    assert vec[..|vec|] == vec;
  }

  /** One pass of the vector loop: the copy with its score is appended and its key is seen. */
  method AddVectorEntry(combined: seq<Hit>, seen: set<string>, h: Hit, rrf: map<string, real>, ghost done: seq<Hit>,
                        vecKeys: seq<string>, bmKeys: seq<string>, k: nat)
    returns (combined': seq<Hit>, seen': set<string>)
    requires Get(rrf, ResultKey(h), 0.0) == Rrf(ResultKey(h), vecKeys, bmKeys, k)
    requires combined == VectorPart(done, vecKeys, bmKeys, k)
    requires forall key :: key in seen <==> key in Keys(done)
    ensures combined' == VectorPart(done + [h], vecKeys, bmKeys, k)
    ensures forall key :: key in seen' <==> key in Keys(done + [h])
  {
    assert Keys(done + [h]) == Keys(done) + [ResultKey(h)];
    var key := ResultKey(h);
    combined' := combined + [Scored(h, Get(rrf, key, 0.0))];
    seen' := seen + {key};
    assert combined' == VectorPart(done + [h], vecKeys, bmKeys, k) by {
      var v := VectorPart(done + [h], vecKeys, bmKeys, k);
      assert |v| == |combined'|;
      forall i | 0 <= i < |v| ensures v[i] == combined'[i] {
        if i < |done| {
          assert (done + [h])[i] == done[i];
        }
      }
    }
  }

  /** The BM25-only entries for `done`, and the keys seen so far: the vector keys and `done`. */
  ghost predicate OnlyEntries(extra: seq<Hit>, seen: set<string>, done: seq<string>, bmHits: seq<Hit>,
                              vecKeys: seq<string>, bmKeys: seq<string>, k: nat)
  {
    && (forall i :: 0 <= i < |done| ==> done[i] in Keys(bmHits))
    && extra == Bm25Part(done, bmHits, vecKeys, bmKeys, k)
    && (forall key :: key in seen <==> key in vecKeys || key in done)
  }

  /** The lookup keys not seen yet, each once, with its score and distance 2.0. */
  method Bm25OnlyEntries(lookupOrder: seq<string>, lookup: map<string, Hit>, seen0: set<string>, rrf: map<string, real>,
                         bmHits: seq<Hit>, vecKeys: seq<string>, bmKeys: seq<string>, k: nat)
    returns (extra: seq<Hit>)
    requires forall i, j :: 0 <= i < j < |lookupOrder| ==> lookupOrder[i] != lookupOrder[j]
    requires forall i :: 0 <= i < |lookupOrder| ==> lookupOrder[i] in lookup && lookupOrder[i] in Keys(bmHits)
    requires forall key :: key in lookup ==> key in Keys(bmHits) && lookup[key] == LastWithKey(bmHits, key)
    requires forall key :: key in seen0 <==> key in vecKeys
    requires forall key :: Get(rrf, key, 0.0) == Rrf(key, vecKeys, bmKeys, k)
    ensures extra == Bm25Part(lookupOrder, bmHits, vecKeys, bmKeys, k)
  {
    extra := [];
    var seen := seen0;
    for j := 0 to |lookupOrder|
      invariant OnlyEntries(extra, seen, lookupOrder[..j], bmHits, vecKeys, bmKeys, k)
    {
      TakeSnoc(lookupOrder, j);
      var key := lookupOrder[j];
      DistinctNotBefore(lookupOrder, j);
      extra, seen := AddBm25Entry(extra, seen, key, lookup, rrf, lookupOrder[..j], bmHits, vecKeys, bmKeys, k);
    }
    assert lookupOrder[..|lookupOrder|] == lookupOrder;
  }

  lemma DistinctNotBefore(s: seq<string>, j: nat)
    requires forall i, j :: 0 <= i < j < |s| ==> s[i] != s[j]
    requires j < |s|
    ensures s[j] !in s[..j]
  {
    forall m | 0 <= m < j ensures s[..j][m] != s[j] {
      assert s[..j][m] == s[m];
    }
  }

  /** One pass of the BM25 loop: an unseen key's chunk is appended with its score and distance 2.0. */
  method AddBm25Entry(extra: seq<Hit>, seen: set<string>, key: string, lookup: map<string, Hit>, rrf: map<string, real>,
                      ghost done: seq<string>, bmHits: seq<Hit>, vecKeys: seq<string>, bmKeys: seq<string>, k: nat)
    returns (extra': seq<Hit>, seen': set<string>)
    requires OnlyEntries(extra, seen, done, bmHits, vecKeys, bmKeys, k)
    requires key in lookup && key in Keys(bmHits) && key !in done && lookup[key] == LastWithKey(bmHits, key)
    requires Get(rrf, key, 0.0) == Rrf(key, vecKeys, bmKeys, k)
    ensures OnlyEntries(extra', seen', done + [key], bmHits, vecKeys, bmKeys, k)
  {
    ghost var all := done + [key];
    assert all[..|done|] == done;
    ghost var e := LastWithKey(bmHits, key).(rrfScore := Some(Rrf(key, vecKeys, bmKeys, k)), distance := Some(2.0));
    assert Bm25Part(all, bmHits, vecKeys, bmKeys, k) == extra + (if key !in vecKeys then [e] else []);
    extra', seen' := extra, seen;
    if key !in seen {
      extra' := extra + [lookup[key].(rrfScore := Some(Get(rrf, key, 0.0)), distance := Some(2.0))];
      seen' := seen + {key};
    }
  }

  method HybridMerge(vec: seq<Hit>, chunks: seq<Hit>, bm25: seq<(nat, real)>, topN: int, k: nat) returns (r: seq<Hit>)
    requires ValidBm25(bm25, chunks)
    ensures r == HybridResults(vec, chunks, bm25, topN, k)
  {
    if vec == [] {
      return [];
    }
    if chunks == [] {
      var zeroed := seq(|vec|, i requires 0 <= i < |vec| => Scored(vec[i], 0.0));
      return Prefix(zeroed, topN);
    }
    var bmHits := Bm25Chunks(bm25, chunks);
    var rrf := AddRanks(map[], Keys(vec), k);
    rrf := AddRanks(rrf, Keys(bmHits), k);
    var lookup, lookupOrder := BuildLookup(bmHits);
    var combined, seen := VectorEntries(vec, rrf, Keys(vec), Keys(bmHits), k);
    var extra := Bm25OnlyEntries(lookupOrder, lookup, seen, rrf, bmHits, Keys(vec), Keys(bmHits), k);
    combined := combined + extra;
    r := Prefix(SortByRrf(combined), topN);
  }
}
