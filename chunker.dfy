/**
 * Splitting a document into overlapping chunks (the indexer's chunker).
 * Paragraphs are packed greedily up to the chunk size; a paragraph that is
 * too long on its own is packed sentence by sentence, and a sentence that is
 * too long on its own is cut into fixed windows.
 */
module Chunker {
  import opened Wrappers
  import opened Text

  const ChunkSize: nat := 2000
  const ChunkOverlap: nat := 200

  /** One output record: {text, chunk_index, total_chunks}. */
  datatype Chunk = Chunk(text: string, chunkIndex: nat, totalChunks: nat)

  /** The accumulator of a packing loop: the chunks emitted so far and the chunk being built. */
  datatype Pack = Pack(chunks: seq<string>, current: string)

  function Min(a: int, b: int): int
  {
    if a <= b then a else b
  }

  predicate IsSentenceEnd(c: char)
  {
    c == '.' || c == '!' || c == '?'
  }

  /** End of the maximal run of whitespace starting at i (what a greedy \s* consumes). */
  function SpaceRunEnd(s: string, i: nat): (e: nat)
    requires i <= |s|
    ensures i <= e <= |s|
    ensures forall j :: i <= j < e ==> IsSpace(s[j])
    ensures e == |s| || !IsSpace(s[e])
    decreases |s| - i
  {
    if i == |s| || !IsSpace(s[i]) then i else SpaceRunEnd(s, i + 1)
  }

  // ---------------------------------------------------------------------------
  // Paragraph split: re.split(r'\n\s*\n', text)
  // ---------------------------------------------------------------------------

  /** The pattern \n\s*\n matches s[p..q+1]. */
  predicate ParaBreak(s: string, p: int, q: int)
  {
    0 <= p < q < |s| && s[p] == '\n' && s[q] == '\n' && forall j :: p < j < q ==> IsSpace(s[j])
  }

  /** The last newline of a match starting at p. */
  function ParaBreakEnd(s: string, p: nat): Option<nat>
    requires p < |s|
  {
    if s[p] != '\n' then None
    else
      var e := SpaceRunEnd(s, p + 1);
      var k := RFindChar(s[p + 1..e], '\n');
      if k < 0 then None else Some(p + 1 + k)
  }

  /** ParaBreakEnd finds a match exactly when there is one, and the greedy \s* makes it the longest. */
  lemma ParaBreakEndSpec(s: string, p: nat)
    requires p < |s|
    ensures var r := ParaBreakEnd(s, p);
      && (r.Some? ==> ParaBreak(s, p, r.value) && forall q :: ParaBreak(s, p, q) ==> q <= r.value)
      && (r.None? ==> forall q :: !ParaBreak(s, p, q))
  {
    if s[p] == '\n' {
      var e := SpaceRunEnd(s, p + 1);
      var k := RFindChar(s[p + 1..e], '\n');
      var t := s[p + 1..e];
      BreakInsideRun(s, p, e);
      if k >= 0 {
        assert t[k] == '\n' && '\n' !in t[k + 1..];
        LastNewlineOfRun(s, p, e, k);
        assert ParaBreakEnd(s, p) == Some(p + 1 + k);
      } else {
        assert '\n' !in t;
        assert ParaBreakEnd(s, p) == None;
      }
    } else {
      assert ParaBreakEnd(s, p) == None;
    }
  }

  /** A match starting at p ends on a newline inside the whitespace run after p. */
  lemma BreakInsideRun(s: string, p: nat, e: nat)
    requires p + 1 <= e <= |s|
    requires forall j :: p + 1 <= j < e ==> IsSpace(s[j])
    requires e == |s| || !IsSpace(s[e])
    ensures forall q :: ParaBreak(s, p, q) ==> q < e && s[p + 1..e][q - p - 1] == '\n'
  {
    forall q | ParaBreak(s, p, q) ensures q < e && s[p + 1..e][q - p - 1] == '\n' {
      assert IsSpace(s[q]);
      assert forall j :: p < j <= q ==> IsSpace(s[j]);
    }
  }

  /** The last newline of the run is a match, and no match ends later. */
  lemma LastNewlineOfRun(s: string, p: nat, e: nat, k: nat)
    requires p < |s| && s[p] == '\n' && p + 1 <= e <= |s|
    requires forall j :: p + 1 <= j < e ==> IsSpace(s[j])
    requires k < e - p - 1 && s[p + 1..e][k] == '\n' && '\n' !in s[p + 1..e][k + 1..]
    requires forall q :: ParaBreak(s, p, q) ==> q < e && s[p + 1..e][q - p - 1] == '\n'
    ensures ParaBreak(s, p, p + 1 + k)
    ensures forall q :: ParaBreak(s, p, q) ==> q <= p + 1 + k
  {
    var t := s[p + 1..e];
    assert forall i :: k < i < |t| ==> t[i] == t[k + 1..][i - (k + 1)];
  }

  lemma NoBreakWithoutEnd(s: string, p: nat, q: int)
    requires p < |s| && ParaBreakEnd(s, p).None?
    ensures !ParaBreak(s, p, q)
  {
    ParaBreakEndSpec(s, p);
  }

  lemma BreakInPrefix(s: string, n: nat, p: int, q: int)
    requires n <= |s|
    ensures ParaBreak(s[..n], p, q) ==> ParaBreak(s, p, q)
  {
  }

  /** The leftmost match at or after i, as (start, last newline). */
  function NextParaBreak(s: string, i: nat): (r: Option<(nat, nat)>)
    ensures r.Some? ==> i <= r.value.0 < |s| && ParaBreakEnd(s, r.value.0) == Some(r.value.1)
    ensures r.Some? ==> forall j :: i <= j < r.value.0 ==> ParaBreakEnd(s, j).None?
    ensures r.None? ==> forall j :: i <= j < |s| ==> ParaBreakEnd(s, j).None?
    decreases |s| - i
  {
    if i >= |s| then None
    else
      match ParaBreakEnd(s, i)
      case Some(q) => Some((i, q))
      case None => NextParaBreak(s, i + 1)
  }

  /** re.split(r'\n\s*\n', s): the pieces between successive leftmost matches. */
  function SplitParagraphs(s: string): (r: seq<string>)
    ensures |r| >= 1
    ensures forall k, p, q :: 0 <= k < |r| ==> !ParaBreak(r[k], p, q)
    ensures NextParaBreak(s, 0).None? ==> r == [s]
    decreases |s|
  {
    match NextParaBreak(s, 0)
    case None =>
      forall p, q ensures !ParaBreak(s, p, q) {
        if 0 <= p < |s| {
          NoBreakWithoutEnd(s, p, q);
        }
      }
      [s]
    case Some((p, q)) =>
      var head := s[..p];
      forall a, b ensures !ParaBreak(head, a, b) {
        if 0 <= a < p {
          NoBreakWithoutEnd(s, a, b);
          BreakInPrefix(s, p, a, b);
        }
      }
      [head] + SplitParagraphs(s[q + 1..])
  }

  // ---------------------------------------------------------------------------
  // Sentence split: re.split(r'(?<=[.!?])\s+', text), and re.search(r'[.!?]\s+', tail)
  // ---------------------------------------------------------------------------

  /** Position p is just after a sentence end and starts a whitespace run. */
  predicate SentenceBreakAt(s: string, p: int)
  {
    0 < p < |s| && IsSentenceEnd(s[p - 1]) && IsSpace(s[p])
  }

  /** The leftmost sentence break at or after i. */
  function NextSentenceBreak(s: string, i: nat): (r: Option<nat>)
    ensures r.Some? ==> i <= r.value && SentenceBreakAt(s, r.value)
    ensures r.Some? ==> forall j :: i <= j < r.value ==> !SentenceBreakAt(s, j)
    ensures r.None? ==> forall j :: i <= j ==> !SentenceBreakAt(s, j)
    decreases |s| - i
  {
    if i >= |s| then None
    else if SentenceBreakAt(s, i) then Some(i)
    else NextSentenceBreak(s, i + 1)
  }

  /** The sentences of a paragraph; the whitespace after each sentence end is dropped. */
  function SplitSentences(s: string): (r: seq<string>)
    ensures |r| >= 1
    ensures forall k, j :: 0 <= k < |r| ==> !SentenceBreakAt(r[k], j)
    ensures NextSentenceBreak(s, 0).None? ==> r == [s]
    decreases |s|
  {
    match NextSentenceBreak(s, 0)
    case None => [s]
    case Some(p) =>
      var head := s[..p];
      assert forall j :: !SentenceBreakAt(head, j) by {
        forall j | SentenceBreakAt(head, j) ensures false {
          assert SentenceBreakAt(s, j);
        }
      }
      [head] + SplitSentences(s[SpaceRunEnd(s, p)..])
  }

  // ---------------------------------------------------------------------------
  // Overlap tail
  // ---------------------------------------------------------------------------

  /**
   * The overlap _get_overlap's docstring intends: the last n characters of
   * text, cut after the first sentence end, else after the first space.
   */
  function Overlap(text: string, n: nat): (r: string)
    ensures |text| <= n ==> r == text
    ensures |text| > n ==> |r| <= n && r == text[|text| - |r|..]
  {
    if |text| <= n then text
    else OverlapOfTail(text[|text| - n..])
  }

  /** The cut _get_overlap applies to its tail. */
  function OverlapOfTail(tail: string): (r: string)
    ensures |r| <= |tail| && r == tail[|tail| - |r|..]
  {
    match NextSentenceBreak(tail, 0)
    case Some(p) => tail[SpaceRunEnd(tail, p)..]
    case None =>
      var w := FindChar(tail, ' ');
      if w >= 0 then tail[w + 1..] else tail
  }

  /**
   * _get_overlap as written, the overlap both packing loops use: the tail
   * is text[-n:], which for n == 0 is the whole text.
   */
  function OverlapAsWritten(text: string, n: nat): (r: string)
    ensures |text| <= n ==> r == text
    ensures n > 0 ==> r == Overlap(text, n)
  {
    if |text| <= n then text
    else OverlapOfTail(if n == 0 then text else text[|text| - n..])
  }

  /** With overlap 0 the written code keeps the whole chunk instead of nothing. */
  lemma OverlapZeroKeepsText()
    ensures |OverlapAsWritten("ab", 0)| == 2
    ensures Overlap("ab", 0) == ""
  {
    assert !SentenceBreakAt("ab", 1);
    assert NextSentenceBreak("ab", 0).None?;
    assert FindChar("ab", ' ') == -1;
  }

  /**
   * Through the paragraph loop, overlap 0 starts the next chunk with the
   * emitted chunk again (all of it, when it has no sentence end and no
   * space), instead of with the next paragraph alone.
   */
  lemma ZeroOverlapRepeatsChunk(st: Pack, raw: string, size: nat)
    requires 0 < size && st.current != "" && Strip(raw) != "" && |st.current| + |Strip(raw)| + 2 > size
    requires NextSentenceBreak(st.current, 0).None? && FindChar(st.current, ' ') == -1
    ensures ParaStep(st, raw, size, 0) == Pack(st.chunks + [Strip(st.current)], st.current + "\n\n" + Strip(raw))
  {
    assert OverlapAsWritten(st.current, 0) == st.current;
  }

  // ---------------------------------------------------------------------------
  // Hard split of a sentence longer than the chunk size
  // ---------------------------------------------------------------------------

  /** len(range(0, n, step)) */
  function PieceCount(n: nat, step: nat): (c: nat)
    requires step > 0
    ensures c * step >= n
    ensures c > 0 ==> (c - 1) * step < n
    decreases n
  {
    if n == 0 then 0
    else if n <= step then 1
    else
      var c := 1 + PieceCount(n - step, step);
      assert c * step == step + (c - 1) * step;
      c
  }

  /** [s[i:i + size] for i in range(0, len(s), step)] */
  function HardPieces(s: string, size: nat, step: nat): seq<string>
    requires step > 0
  {
    seq(PieceCount(|s|, step), j requires 0 <= j => s[Min(j * step, |s|)..Min(j * step + size, |s|)])
  }

  lemma MulMonotone(a: nat, b: nat, m: nat)
    requires a <= b
    ensures a * m <= b * m
  {
  }

  /** The window for piece j starts at j * step, inside the sentence, and is at most size long. */
  lemma HardPieceBounds(s: string, size: nat, step: nat, j: nat)
    requires 0 < step <= size && j < |HardPieces(s, size, step)|
    ensures j * step < |s|
    ensures HardPieces(s, size, step)[j] == s[j * step..Min(j * step + size, |s|)]
    ensures 0 < |HardPieces(s, size, step)[j]| <= size
  {
    MulMonotone(j, PieceCount(|s|, step) - 1, step);
  }

  /** Character t of the sentence is character t % step of piece t / step. */
  lemma HardPieceCovers(s: string, size: nat, step: nat, t: nat)
    requires 0 < step <= size && t < |s|
    ensures t / step < |HardPieces(s, size, step)|
    ensures t % step < |HardPieces(s, size, step)[t / step]|
    ensures s[t] == HardPieces(s, size, step)[t / step][t % step]
  {
    var c := PieceCount(|s|, step);
    var j := t / step;
    assert j * step + t % step == t;
    if j >= c {
      MulMonotone(c, j, step);
    }
    HardPieceBounds(s, size, step, j);
  }

  /** for i in range(0, len(sentence), step): chunks.append(sentence[i:i + size]) */
  method HardSplit(sentence: string, size: nat, step: nat) returns (pieces: seq<string>)
    requires 0 < step <= size
    ensures pieces == HardPieces(sentence, size, step)
  {
    pieces := [];
    var n := PieceCount(|sentence|, step);
    for k := 0 to n
      invariant pieces == HardPieces(sentence, size, step)[..k]
    {
      assert HardPieces(sentence, size, step)[..k + 1] == HardPieces(sentence, size, step)[..k] + [HardPieces(sentence, size, step)[k]];
      pieces := pieces + [sentence[Min(k * step, |sentence|)..Min(k * step + size, |sentence|)]];
    }
    assert HardPieces(sentence, size, step)[..n] == HardPieces(sentence, size, step);
  }

  // ---------------------------------------------------------------------------
  // Greedy packing
  // ---------------------------------------------------------------------------

  /** One iteration of the sentence loop of _split_long_paragraph. */
  function SentStep(st: Pack, sentence: string, size: nat, overlap: nat): (r: Pack)
    requires overlap < size
    ensures |st.chunks| <= |r.chunks| && r.chunks[..|st.chunks|] == st.chunks
    ensures r.chunks == st.chunks <==> |st.current| + |sentence| + 1 <= size
  {
    if |st.current| + |sentence| + 1 > size then
      if st.current != "" then
        var ov := OverlapAsWritten(st.current, overlap);
        Pack(st.chunks + [Strip(st.current)], if ov != "" then ov + " " + sentence else sentence)
      else
        var hard := HardPieces(sentence, size, size - overlap);
        assert |hard| > 0;
        Pack(st.chunks + hard, "")
    else
      Pack(st.chunks, if st.current != "" then st.current + " " + sentence else sentence)
  }

  function PackSentences(sentences: seq<string>, size: nat, overlap: nat): Pack
    requires overlap < size
  {
    if sentences == [] then Pack([], "")
    else SentStep(PackSentences(sentences[..|sentences| - 1], size, overlap), sentences[|sentences| - 1], size, overlap)
  }

  /** After the loop: the accumulator is emitted, stripped, only when it is not blank. */
  function Finish(st: Pack): (r: seq<string>)
    ensures |r| == |st.chunks| + (if AllSpace(st.current) then 0 else 1)
    ensures r[..|st.chunks|] == st.chunks
    ensures !AllSpace(st.current) ==> r[|r| - 1] == Strip(st.current)
  {
    if Strip(st.current) != "" then st.chunks + [Strip(st.current)] else st.chunks
  }

  /** _split_long_paragraph */
  function LongParagraphChunks(text: string, size: nat, overlap: nat): seq<string>
    requires overlap < size
  {
    Finish(PackSentences(SplitSentences(text), size, overlap))
  }

  /** One iteration of the paragraph loop of chunk_text. */
  function ParaStep(st: Pack, raw: string, size: nat, overlap: nat): (r: Pack)
    requires overlap < size
    ensures AllSpace(raw) ==> r == st
    ensures |st.chunks| <= |r.chunks| && r.chunks[..|st.chunks|] == st.chunks
  {
    var para := Strip(raw);
    if para == "" then st
    else if |st.current| + |para| + 2 > size then
      if st.current != "" then
        var ov := OverlapAsWritten(st.current, overlap);
        Pack(st.chunks + [Strip(st.current)], if ov != "" then ov + "\n\n" + para else para)
      else
        var sc := LongParagraphChunks(para, size, overlap);
        if sc != [] then Pack(st.chunks + sc[..|sc| - 1], sc[|sc| - 1])
        else Pack(st.chunks, para)
    else
      Pack(st.chunks, if st.current != "" then st.current + "\n\n" + para else para)
  }

  function PackParagraphs(paras: seq<string>, size: nat, overlap: nat): Pack
    requires overlap < size
  {
    if paras == [] then Pack([], "")
    else ParaStep(PackParagraphs(paras[..|paras| - 1], size, overlap), paras[|paras| - 1], size, overlap)
  }

  /**
   * A non-blank paragraph is joined to a non-empty chunk with "\n\n" exactly
   * when the joined length stays within the chunk size; otherwise the chunk
   * is emitted.
   */
  lemma ParagraphJoinedIffFits(st: Pack, raw: string, size: nat, overlap: nat)
    requires overlap < size && st.current != "" && !AllSpace(raw)
    ensures var r := ParaStep(st, raw, size, overlap);
      (r == Pack(st.chunks, st.current + "\n\n" + Strip(raw))) <==> |st.current| + |Strip(raw)| + 2 <= size
    ensures var r := ParaStep(st, raw, size, overlap);
      |st.current| + |Strip(raw)| + 2 > size ==> r.chunks == st.chunks + [Strip(st.current)]
  {
    StripEmpty(raw);
    var para := Strip(raw);
    var r := ParaStep(st, raw, size, overlap);
    if |st.current| + |para| + 2 > size {
      var ov := OverlapAsWritten(st.current, overlap);
      assert r == Pack(st.chunks + [Strip(st.current)], if ov != "" then ov + "\n\n" + para else para);
      assert |r.chunks| != |st.chunks|;
    } else {
      assert r == Pack(st.chunks, st.current + "\n\n" + para);
    }
  }

  /** Chunks are only ever appended: the list after a prefix of the paragraphs is a prefix of the final list. */
  lemma {:induction false} PackParagraphsAppendOnly(paras: seq<string>, i: nat, size: nat, overlap: nat)
    requires overlap < size && i <= |paras|
    ensures var a := PackParagraphs(paras[..i], size, overlap).chunks;
      var b := PackParagraphs(paras, size, overlap).chunks;
      |a| <= |b| && b[..|a|] == a
  {
    if i < |paras| {
      var init := paras[..|paras| - 1];
      assert init[..i] == paras[..i];
      PackParagraphsAppendOnly(init, i, size, overlap);
    } else {
      assert paras[..i] == paras;
    }
  }

  /** chunk_text */
  function Chunks(text: string, size: nat, overlap: nat): (r: seq<Chunk>)
    requires overlap < size
    ensures AllSpace(text) ==> r == []
    ensures !AllSpace(text) && |Strip(text)| <= size ==> r == [Chunk(Strip(text), 0, 1)]
    ensures forall i :: 0 <= i < |r| ==> r[i].chunkIndex == i && r[i].totalChunks == |r|
  {
    var t := Strip(text);
    if t == "" then []
    else if |t| <= size then [Chunk(t, 0, 1)]
    else Numbered(Finish(PackParagraphs(SplitParagraphs(t), size, overlap)))
  }

  /** Chunk i of n gets chunk_index i and total_chunks n. */
  function Numbered(cs: seq<string>): (r: seq<Chunk>)
    ensures |r| == |cs|
    ensures forall i :: 0 <= i < |r| ==> r[i].text == cs[i] && r[i].chunkIndex == i && r[i].totalChunks == |cs|
  {
    seq(|cs|, i requires 0 <= i < |cs| => Chunk(cs[i], i, |cs|))
  }

  // ---------------------------------------------------------------------------
  // The loops
  // ---------------------------------------------------------------------------

  /** One pass of the sentence loop of _split_long_paragraph. */
  method SentenceIteration(chunks: seq<string>, current: string, sentence: string, size: nat, overlap: nat)
    returns (chunks': seq<string>, current': string)
    requires overlap < size
    ensures Pack(chunks', current') == SentStep(Pack(chunks, current), sentence, size, overlap)
  {
    chunks', current' := chunks, current;
    if |current| + |sentence| + 1 > size {
      if current != "" {
        chunks' := chunks + [Strip(current)];
        var ov := OverlapAsWritten(current, overlap);
        current' := if ov != "" then ov + " " + sentence else sentence;
      } else {
        var pieces := HardSplit(sentence, size, size - overlap);
        chunks' := chunks + pieces;
        current' := "";
      }
    } else {
      current' := if current != "" then current + " " + sentence else sentence;
    }
  }

  /** The last chunk, appended after the loop when it is not blank. */
  method FinishChunks(chunks: seq<string>, current: string) returns (r: seq<string>)
    ensures r == Finish(Pack(chunks, current))
  {
    r := chunks;
    if Strip(current) != "" {
      r := r + [Strip(current)];
    }
  }

  /** The sentence loop of _split_long_paragraph. */
  method PackSentenceLoop(sentences: seq<string>, size: nat, overlap: nat) returns (chunks: seq<string>, current: string)
    requires overlap < size
    ensures Pack(chunks, current) == PackSentences(sentences, size, overlap)
  {
    chunks, current := [], "";
    for i := 0 to |sentences|
      invariant Pack(chunks, current) == PackSentences(sentences[..i], size, overlap)
    {
      assert sentences[..i + 1][..i] == sentences[..i];
      chunks, current := SentenceIteration(chunks, current, sentences[i], size, overlap);
    }
    assert sentences[..|sentences|] == sentences;
  }

  method SplitLongParagraph(text: string, size: nat, overlap: nat) returns (r: seq<string>)
    requires overlap < size
    ensures r == LongParagraphChunks(text, size, overlap)
  {
    var sentences := SplitSentences(text);
    var chunks, current := PackSentenceLoop(sentences, size, overlap);
    r := FinishChunks(chunks, current);
  }

  /** One pass of the paragraph loop of chunk_text. */
  method ParagraphIteration(chunks: seq<string>, current: string, raw: string, size: nat, overlap: nat)
    returns (chunks': seq<string>, current': string)
    requires overlap < size
    ensures Pack(chunks', current') == ParaStep(Pack(chunks, current), raw, size, overlap)
  {
    chunks', current' := chunks, current;
    var para := Strip(raw);
    if para == "" {
      return;
    }
    if |current| + |para| + 2 > size {
      if current != "" {
        chunks' := chunks + [Strip(current)];
        var ov := OverlapAsWritten(current, overlap);
        current' := if ov != "" then ov + "\n\n" + para else para;
      } else {
        var sc := SplitLongParagraph(para, size, overlap);
        if sc != [] {
          chunks' := chunks + sc[..|sc| - 1];
          current' := sc[|sc| - 1];
        } else {
          current' := para;
        }
      }
    } else {
      current' := if current != "" then current + "\n\n" + para else para;
    }
  }

  /** The paragraph loop of chunk_text. */
  method PackParagraphLoop(paragraphs: seq<string>, size: nat, overlap: nat) returns (chunks: seq<string>, current: string)
    requires overlap < size
    ensures Pack(chunks, current) == PackParagraphs(paragraphs, size, overlap)
  {
    chunks, current := [], "";
    for i := 0 to |paragraphs|
      invariant Pack(chunks, current) == PackParagraphs(paragraphs[..i], size, overlap)
    {
      assert paragraphs[..i + 1][..i] == paragraphs[..i];
      chunks, current := ParagraphIteration(chunks, current, paragraphs[i], size, overlap);
    }
    assert paragraphs[..|paragraphs|] == paragraphs;
  }

  method ChunkText(text: string, size: nat, overlap: nat) returns (r: seq<Chunk>)
    requires overlap < size
    ensures r == Chunks(text, size, overlap)
  {
    var t := Strip(text);
    if t == "" {
      return [];
    }
    if |t| <= size {
      return [Chunk(t, 0, 1)];
    }
    var paragraphs := SplitParagraphs(t);
    var chunks, current := PackParagraphLoop(paragraphs, size, overlap);
    chunks := FinishChunks(chunks, current);
    var total := |chunks|;
    r := seq(total, i requires 0 <= i < total => Chunk(chunks[i], i, total));
  }
}
