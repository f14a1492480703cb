# Semantic search engine back end, modelled in Dafny

This project models the Python back end of a local semantic search engine.
The back end turns a user's documents and mail into chunks for a vector index,
and answers queries by fusing vector and keyword rankings. The model covers:

- **Format extractors** (`parse_html`, `parse_xlsx`, `parse_yaml`, `parse_pptx`): the text each extractor builds from the tree, rows, document or slides that its parsing library returns.
- **Chunker** (`chunker`): paragraphs are packed greedily up to the chunk size. Overlong paragraphs are packed by sentence, and overlong sentences are cut into fixed windows. An overlap tail carries context into the next chunk.
- **Keyword search** (`bm25_search`): the tokenizer, document-frequency counting, keeping only positive scores, and a stable descending sort with a cut to top_n.
- **Hybrid search** (`hybrid_search`): Reciprocal Rank Fusion (RRF) of the vector results and the BM25 results, computed with exact rationals.
- **Query expansion** (`query_expand`): the LLM reply is post-processed, and the query alone is the fallback.
- **Configuration** (`config`): defaults, the model table, feature flags, and the version-gated reindex flag.
- **Index metadata** (`index_metadata`): per-folder records and change detection. Files are split into needs-index, unchanged and deleted.
- **Connectors** (`base_connector`, `gmail_connector`, `connector_registry`):
  - the status fields and state file shared by all connectors;
  - the IMAP mail connector: filename sanitising, HTML stripping, body selection, login, and the incremental sync driven by a per-folder UID watermark;
  - the registry of connector classes, saved configurations and live instances.
- **Sync engine** (`sync_engine`): the single-flight guard and the hash-gated indexing of a connector's items folder.
- **HTTP handlers** (`api_server`): the logic held by `/parse`, `/search` and `DELETE /connectors/{id}`.

`text`, `seqs`, `ranking` and `wrappers` hold shared definitions:

- `text`: the Python string built-ins used (strip, join, find, lower, str of an int);
- `seqs`: filtering comprehensions and prefix slices;
- `ranking`: the stable `sort(reverse=True)`;
- `wrappers`: Option and Result.

**Modelling choices:**

- **Collaborators** become function parameters or values: the file system calls, the parsing libraries, the IMAP server, the LLM server, `json.loads`, the vector store and the reranker.
- **Mutable state** (JSON files on disk, module-level dicts, object fields) becomes fields of classes (`Disk`, `Connector`, `Registry`, `IndexStore`, `ConfigStore`, `Engine`). Their methods state the new state.

**Where the code and its design notes differ, the model follows the code:**

- RRF adds 1/(k + rank + 1) over 0-based ranks. Ties are left in merge order by the stable sort. They are not broken by best rank or chunk identity.
- The default engine version is 2.
- `needs_reindex` compares the stored version with that default, not with the stored engine_version.
- The two defects listed under Findings are modelled as written all through `chunk_text` and `bm25_search`. The corrected definitions (Chunker.Overlap, Bm25Search.DocFreq) stand beside them, with the intended properties proved.

## Model

| member | source | states |
|---|---|---|
| ParseHtml.Iter | backend/python/parse_html.py:22 | `tree.iter()` starts with the root element itself |
| ParseHtml.SubtreesVisited | backend/python/parse_html.py:22 | every element of the first n children's subtrees is visited by the walk over those children |
| ParseHtml.ChildrenVisited | backend/python/parse_html.py:22 | every element below any child is visited by `tree.iter()`, so no nested text is skipped |
| ParseHtml.ExtractHtml | backend/python/parse_html.py:7-29 | a read error, a parser error (HTML parser first, then XML) and a parser that returns None give the three error texts |
| ParseHtml.PartStripped | backend/python/parse_html.py:23-26 | a text or tail contributes at most one part, which is non-empty with no whitespace at either end |
| ParseHtml.ElementPartsStripped | backend/python/parse_html.py:23-26 | an element contributes at most two parts (text, then tail), each stripped and non-empty |
| ParseHtml.PartsStripped | backend/python/parse_html.py:21-26 | the walk yields at most two parts per element, none empty and none with edge whitespace |
| ParseHtml.RootFirst | backend/python/parse_html.py:22-26 | the root's own text and tail come before anything from its children |
| ParseHtml.ParsedTreeText | backend/python/parse_html.py:21-27 | a parsed tree gives its parts joined by newlines, with at most two stripped, non-empty parts per element |
| ParseHtml.XmlOnlyAsFallback | backend/python/parse_html.py:12-15 | the XML parser's result is used exactly when the HTML parser raises |
| ParseHtml.VisitElement | backend/python/parse_html.py:23-26 | one loop iteration appends the element's stripped text and then its stripped tail, each only when non-empty |
| ParseHtml.CollectParts | backend/python/parse_html.py:21-26 | the loop over the elements collects exactly the parts of the walk, in document order |
| ParseHtml.ExtractHtmlText | backend/python/parse_html.py:5-29 | the imperative extractor returns exactly the specified text for every read and parse outcome |
| ParseXlsx.Cells | backend/python/parse_xlsx.py:15 | one rendered cell per cell, with None rendered as "" |
| ParseXlsx.SheetLines | backend/python/parse_xlsx.py:13-17 | a sheet's block is its "Sheet: name" header followed by its kept rows |
| ParseXlsx.ExtractXlsx | backend/python/parse_xlsx.py:21-22 | a workbook that fails to open gives "Error reading XLSX: " followed by the message |
| ParseXlsx.RowLinesAreKeptRows | backend/python/parse_xlsx.py:14-17 | the row lines are exactly the rows that have a non-empty cell, each rendered with " \| ", in order |
| ParseXlsx.RowDroppedIff | backend/python/parse_xlsx.py:15-17 | a row is dropped iff every cell is None or renders as "", and a kept row is its cells joined by " \| " |
| ParseXlsx.WorkbookConcat | backend/python/parse_xlsx.py:11-17 | the lines of consecutive sheets follow one another |
| ParseXlsx.SheetBlock | backend/python/parse_xlsx.py:11-17 | sheet i's header comes right after the earlier sheets' lines and is followed by its kept rows, even when it has none |
| ParseXlsx.NoSheets | backend/python/parse_xlsx.py:9-20 | a workbook with no sheets gives the empty text |
| ParseXlsx.ReadRows | backend/python/parse_xlsx.py:14-17 | the inner loop collects exactly the kept rows' lines |
| ParseXlsx.ExtractXlsxText | backend/python/parse_xlsx.py:5-22 | the imperative extractor returns exactly the specified text for every workbook outcome |
| ParseYaml.LinesMatchConcat | backend/python/parse_yaml.py:14-22 | line/leaf agreement is kept when consecutive parts of the output are concatenated |
| ParseYaml.FlattenMatchesLeaves | backend/python/parse_yaml.py:11-25 | `flatten` gives one line per scalar leaf, in traversal order, each ending with that scalar's text after nothing or after `: ` (the key text of each line is stated by EntryLine and ItemLine) |
| ParseYaml.EntryLinesMatch | backend/python/parse_yaml.py:13-19 | the entries of a dict give one line per scalar leaf under them |
| ParseYaml.ItemLinesMatch | backend/python/parse_yaml.py:20-22 | the items of a list give one line per scalar leaf under them |
| ParseYaml.EntryLinesPrefix | backend/python/parse_yaml.py:14-20 | the lines of a dict's earlier entries come first, in order, among the dict's lines |
| ParseYaml.ItemLinesPrefix | backend/python/parse_yaml.py:21-22 | the lines of a list's earlier items come first, in order, among the list's lines |
| ParseYaml.EntryLine | backend/python/parse_yaml.py:14-20 | for every dict, prefix and entry: after the earlier entries' lines, a scalar value gives the one line `full_key: value`, full_key being `prefix.key` under a truthy prefix and the key alone otherwise; a dict or list value is flattened, in place, under full_key |
| ParseYaml.ItemLine | backend/python/parse_yaml.py:21-22 | for every list, prefix and item i: after the earlier items' lines, the item is flattened in place under `prefix[i]` (0-based), and a scalar item gives its text alone, with no key |
| ParseYaml.LineCountIsLeafCount | backend/python/parse_yaml.py:11-25 | the number of lines equals the number of scalar leaves |
| ParseYaml.TopLevelEntry | backend/python/parse_yaml.py:15-19 | a top-level key with a scalar value gives "key: value" |
| ParseYaml.NestedEntry | backend/python/parse_yaml.py:15-17 | nested keys are joined with "." |
| ParseYaml.FalsyKeyDropsPrefix | backend/python/parse_yaml.py:15 | a falsy key (0, False, null) is not used as a prefix, so the nested key stands alone |
| ParseYaml.ListItems | backend/python/parse_yaml.py:20-24 | a list item is addressed by its 0-based index, and a scalar item gives its text without any key |
| ParseYaml.ScalarsAndEmpties | backend/python/parse_yaml.py:12-25 | a scalar document gives its text alone; empty dicts and lists give no lines |
| ParseYaml.ExtractYaml | backend/python/parse_yaml.py:29-30 | a failed load gives "Error reading YAML: " followed by the message |
| ParseYaml.ExtractYamlLines | backend/python/parse_yaml.py:27-28 | a successful load gives the stripped, newline-joined lines of `flatten(data)` from the empty prefix, one per scalar leaf and keyed as EntryLine and ItemLine state |
| ParsePptx.ExtractPptx | backend/python/parse_pptx.py:21-22 | a presentation that fails to open gives "Error reading PPTX: " followed by the message |
| ParsePptx.ParagraphLinesAreKept | backend/python/parse_pptx.py:15-18 | the paragraph lines are the non-blank paragraphs, stripped, in order |
| ParsePptx.ParagraphLinesStripped | backend/python/parse_pptx.py:16-18 | no paragraph line is empty or has whitespace at either end |
| ParsePptx.FramelessShapesIgnored | backend/python/parse_pptx.py:14 | shapes without a text frame contribute nothing |
| ParsePptx.DeckPrefix | backend/python/parse_pptx.py:11-18 | the lines of the earlier slides are a prefix of the whole deck's lines |
| ParsePptx.SlideBlock | backend/python/parse_pptx.py:11-18 | slide i (0-based) is announced as "Slide i+1:" right after the earlier slides' lines, and its text follows |
| ParsePptx.ReadParagraphs | backend/python/parse_pptx.py:15-18 | the innermost loop collects exactly the paragraph lines |
| ParsePptx.ReadShapes | backend/python/parse_pptx.py:13-18 | the shape loop collects exactly the lines of the framed shapes |
| ParsePptx.ExtractPptxText | backend/python/parse_pptx.py:5-22 | the imperative extractor returns exactly the specified text for every presentation outcome |
| Chunker.SpaceRunEnd | backend/python/chunker.py:26 | the greedy `\s*` of the paragraph pattern stops at the end of the whitespace run: every character before is whitespace, the one at the end is not |
| Chunker.ParaBreakEndSpec | backend/python/chunker.py:26 | a match of `\n\s*\n` starting at p is found exactly when one exists, and it is the longest one |
| Chunker.BreakInsideRun | backend/python/chunker.py:26 | a match starting at p ends on a newline inside the whitespace run after p |
| Chunker.LastNewlineOfRun | backend/python/chunker.py:26 | the last newline of that run ends a match, and no match ends later |
| Chunker.NoBreakWithoutEnd | backend/python/chunker.py:26 | when no match end is found at p there is no match starting at p |
| Chunker.BreakInPrefix | backend/python/chunker.py:26 | a match inside a prefix of the text is a match in the text |
| Chunker.NextParaBreak | backend/python/chunker.py:26 | the next match is the leftmost one at or after i, and none means no match in the rest of the text |
| Chunker.SplitParagraphs | backend/python/chunker.py:26 | `re.split` gives at least one piece, no piece contains a paragraph break, and a text without one is its own single piece |
| Chunker.NextSentenceBreak | backend/python/chunker.py:89 | the next sentence break is the leftmost position after `[.!?]` that starts a whitespace run, if any |
| Chunker.SplitSentences | backend/python/chunker.py:89 | `re.split` on the look-behind gives at least one sentence, none containing a sentence break, and a text without one is its own single piece |
| Chunker.Overlap | backend/python/chunker.py:69-83 | the overlap of a short text is the text itself; otherwise it is a suffix of the text no longer than the overlap size |
| Chunker.OverlapOfTail | backend/python/chunker.py:74-83 | the cut of the tail (after the first sentence end, else after the first space, else none) is a suffix of that tail |
| Chunker.OverlapAsWritten | backend/python/chunker.py:69-83 | `_get_overlap` as written, the overlap both packing loops use: the whole text when it is short, and the same as the intended overlap for every positive overlap size |
| Chunker.OverlapZeroKeepsText | backend/python/chunker.py:74 | with overlap 0, `text[-0:]` keeps the whole text, where the intended overlap is empty |
| Chunker.ZeroOverlapRepeatsChunk | backend/python/chunker.py:40-43 | with overlap 0, a paragraph that does not fit after a chunk with no sentence end and no space starts the next chunk with that whole chunk, "\n\n" and the paragraph |
| Chunker.PieceCount | backend/python/chunker.py:102 | `len(range(0, n, step))` is the least count whose windows cover n characters |
| Chunker.MulMonotone | backend/python/chunker.py:102 | window starts grow with the piece number |
| Chunker.HardPieceBounds | backend/python/chunker.py:102-103 | hard-split piece j starts at j * step inside the sentence and is non-empty and at most chunk_size long |
| Chunker.HardPieceCovers | backend/python/chunker.py:102-103 | every character of the sentence appears in its piece: character t is character t % step of piece t / step |
| Chunker.HardSplit | backend/python/chunker.py:102-103 | the hard-split loop produces exactly the windows `sentence[i:i + chunk_size]` |
| Chunker.SentStep | backend/python/chunker.py:95-106 | a sentence step only appends chunks, and it appends none exactly when the sentence fits; its overlap is `_get_overlap` as written |
| Chunker.Finish | backend/python/chunker.py:108-109 | after the loop the accumulator is emitted, stripped, exactly when it is not blank, and nothing else changes |
| Chunker.ParaStep | backend/python/chunker.py:31-56 | a blank paragraph leaves the state unchanged, and a paragraph step only appends chunks; its overlap is `_get_overlap` as written |
| Chunker.ParagraphJoinedIffFits | backend/python/chunker.py:37-54 | a non-blank paragraph is joined to a non-empty chunk with "\n\n" exactly when the joined length fits; otherwise the stripped chunk is emitted |
| Chunker.PackParagraphsAppendOnly | backend/python/chunker.py:28-56 | chunks are only ever appended: the list after some of the paragraphs is a prefix of the final list |
| Chunker.Chunks | backend/python/chunker.py:17-66 | a blank text gives no chunks, a text that fits gives one chunk of the stripped text, and every chunk carries its own index and the total; the packing is the one the code does, overlap 0 included |
| Chunker.Numbered | backend/python/chunker.py:62-66 | chunk i of n gets text i, chunk_index i and total_chunks n |
| Chunker.SentenceIteration | backend/python/chunker.py:95-106 | one pass of the sentence loop makes exactly the sentence step, with the overlap as written |
| Chunker.FinishChunks | backend/python/chunker.py:108-111 | the tail of `_split_long_paragraph` appends exactly the specified last chunk |
| Chunker.PackSentenceLoop | backend/python/chunker.py:91-106 | the sentence loop ends in exactly the specified state |
| Chunker.SplitLongParagraph | backend/python/chunker.py:86-111 | `_split_long_paragraph` returns exactly the specified chunks |
| Chunker.ParagraphIteration | backend/python/chunker.py:32-56 | one pass of the paragraph loop makes exactly the paragraph step, with the overlap as written |
| Chunker.PackParagraphLoop | backend/python/chunker.py:28-56 | the paragraph loop ends in exactly the specified state |
| Chunker.ChunkText | backend/python/chunker.py:12-66 | `chunk_text` returns exactly the specified chunk records, including at overlap 0, where the overlap keeps the whole chunk |
| Bm25Search.AlnumRunEnd | backend/python/bm25_search.py:13 | the scan for one match of `[a-zA-Z0-9]+` stops at the end of the run of alphanumerics |
| Bm25Search.RunEndUnique | backend/python/bm25_search.py:13 | a maximal run that starts at i ends exactly where the scan from i stops |
| Bm25Search.TermSpans | backend/python/bm25_search.py:13-14 | the spans of kept tokens from position i lie inside the text, at or after i |
| Bm25Search.TermSpansSound | backend/python/bm25_search.py:13-14 | every span found is a maximal alphanumeric run that is neither a stopword nor one character long |
| Bm25Search.TermSpansOrdered | backend/python/bm25_search.py:13 | the spans run left to right without touching, as `re.findall` reports them |
| Bm25Search.TermSpansComplete | backend/python/bm25_search.py:13-14 | every maximal run at or after i that is a kept token is among the spans |
| Bm25Search.Words | backend/python/bm25_search.py:13 | one word per span, the text between its ends |
| Bm25Search.TokensAreTerms | backend/python/bm25_search.py:11-14 | every token is kept by the filter and consists of lower-case ASCII letters and digits |
| Bm25Search.TokensInSourceOrder | backend/python/bm25_search.py:11-14 | the tokens are exactly the lower-cased text's maximal alphanumeric runs that pass the filter, all of them, left to right |
| Bm25Search.DocFreq | backend/python/bm25_search.py:45-51 | the intended document frequency is at most N, and is 0 exactly when no document has the term |
| Bm25Search.DocFreqAsWrittenScales | backend/python/bm25_search.py:46-51 | as written, the count is the true document frequency times the number of times the term occurs in the query |
| Bm25Search.MulSucc | backend/python/bm25_search.py:49-51 | one more matching document adds the query multiplicity once more to the count |
| Bm25Search.RepeatedQueryTermExceedsN | backend/python/bm25_search.py:46-51 | the query "cat cat" over a single document "cat" counts the term in 2 documents out of 1, where the intended frequency is 1 |
| Bm25Search.Score | backend/python/bm25_search.py:59-81 | a document without tokens scores 0.0; otherwise the weights are summed over the query tokens, repeats included, each weight computed with the df the loop of lines 46-51 counts |
| Bm25Search.SingleQueryTermAgrees | backend/python/bm25_search.py:46-51 | a term the query names once gets the true document frequency from the df loop |
| Bm25Search.RepeatedTermWeight | backend/python/bm25_search.py:59-81 | the query "cat cat" over the one document "cat" scores two weights, each computed with df 2 for N = 1 |
| Bm25Search.Positive | backend/python/bm25_search.py:84 | the kept pairs are exactly the positive scores with their indices, in index order |
| Bm25Search.Seconds | backend/python/bm25_search.py:85 | the sort key of each pair is its score |
| Bm25Search.SortPositiveEntries | backend/python/bm25_search.py:84-85 | each sorted entry is a kept pair tagged with its own position |
| Bm25Search.SortPositiveOrder | backend/python/bm25_search.py:85 | after the stable reverse sort, scores do not increase, and equal scores keep ascending index order |
| Bm25Search.SortPositiveComplete | backend/python/bm25_search.py:84-85 | every positive score survives the sort |
| Bm25Search.RankPositive | backend/python/bm25_search.py:84-85 | the ranking holds exactly the positive scores with their indices, by non-increasing score, ties by ascending index |
| Bm25Search.SortedItemsOrdered | backend/python/bm25_search.py:85 | the sorted pairs are ordered by non-increasing score, ties by ascending index |
| Bm25Search.SortedItemsComplete | backend/python/bm25_search.py:84-85 | every document with a positive score appears in the sorted pairs |
| Bm25Search.DocTokens | backend/python/bm25_search.py:37 | one token list per document, in document order |
| Bm25Search.Scores | backend/python/bm25_search.py:58-81 | one score per document, in document order, each the document's score with the df as the code counts it |
| Bm25Search.RankedResultsProperties | backend/python/bm25_search.py:58-87 | the results are at most top_n documents with a positive score and at least one token, each carrying its own score, by non-increasing score, ties by ascending index |
| Bm25Search.Bm25ResultsProperties | backend/python/bm25_search.py:17-87 | the same for the whole search, stated on the query string and the document texts |
| Bm25Search.PositiveIncreasing | backend/python/bm25_search.py:84 | the kept indices increase strictly, since the list comprehension runs in index order |
| Bm25Search.NothingToRank | backend/python/bm25_search.py:29-34 | no documents, an empty query or a query without tokens gives no results |
| Bm25Search.CountDocFreq | backend/python/bm25_search.py:46-51 | the df loop over every query token, repeats included, gives each query term one count per occurrence in the query for every document whose token set holds it |
| Bm25Search.ScoreDocument | backend/python/bm25_search.py:59-81 | with the df the loop before it counted, one pass of the scoring loop gives 0.0 for an empty document and otherwise the sum of the term weights over the query tokens it contains |
| Bm25Search.Bm25Search | backend/python/bm25_search.py:17-87 | the imperative search returns exactly the specified results, with the df as the code counts it |
| HybridSearch.IntToStringNoColon | backend/python/hybrid_search.py:88-89 | the rendered chunk index contains no colon |
| HybridSearch.ShorterSuffixDiffers | backend/python/hybrid_search.py:89 | two keys whose colon-free index parts differ in length are different |
| HybridSearch.ResultKeyInjective | backend/python/hybrid_search.py:85-89 | equal result keys come from the same file path and chunk index, with the defaults "" and 0 |
| HybridSearch.RankSum | backend/python/hybrid_search.py:46-55 | a key's accumulated reciprocal-rank score is non-negative, and zero exactly when the key does not occur in the list |
| HybridSearch.Keys | backend/python/hybrid_search.py:47-54 | one key per result, in list order |
| HybridSearch.Bm25Chunks | backend/python/hybrid_search.py:52-53 | the chunks the BM25 results point at, in BM25 rank order |
| HybridSearch.LastWithKey | backend/python/hybrid_search.py:56 | the lookup entry for a key is a BM25 chunk with that key |
| HybridSearch.KeyInFront | backend/python/hybrid_search.py:56 | a key that is not the last chunk's was set by an earlier chunk |
| HybridSearch.VectorPart | backend/python/hybrid_search.py:63-68 | one copy per vector result, in vector order, each carrying its key's RRF score |
| HybridSearch.RrfOf | backend/python/hybrid_search.py:80 | the sort key of each entry is its RRF score, 0 when missing |
| HybridSearch.NoVectorResults | backend/python/hybrid_search.py:27-28 | no vector results give an empty merge |
| HybridSearch.NoChunks | backend/python/hybrid_search.py:31-36 | with no stored chunks every vector result gets score 0.0 and the first top_n come back in order |
| HybridSearch.Bm25PartKeys | backend/python/hybrid_search.py:71-77 | the BM25-only entries are the lookup keys that are not vector keys, in lookup order |
| HybridSearch.Bm25PartEntries | backend/python/hybrid_search.py:73-75 | each BM25-only entry is its key's chunk with distance 2.0 and its key's RRF score |
| HybridSearch.CombinedShape | backend/python/hybrid_search.py:58-77 | before sorting: every vector result in order with its score, then each BM25-only key exactly once in first-occurrence order with distance 2.0, every entry scored by its key |
| HybridSearch.SortByRrfOrder | backend/python/hybrid_search.py:80 | sorting keeps the number of entries, only reorders them, and orders them by non-increasing RRF score |
| HybridSearch.MergedOrder | backend/python/hybrid_search.py:27-82 | the merge returns at most top_n entries of the combined list, by non-increasing RRF score |
| HybridSearch.AddRanks | backend/python/hybrid_search.py:46-55 | each rank loop adds, for every key, the sum of 1/(k + rank + 1) over the ranks where it occurs |
| HybridSearch.BuildLookup | backend/python/hybrid_search.py:51-56 | the lookup holds exactly the BM25 keys, each mapped to the last chunk with that key, in first-insertion order |
| HybridSearch.AddToLookup | backend/python/hybrid_search.py:53-56 | one assignment `bm25_lookup[key] = chunk` keeps the lookup and its key order right for one more chunk |
| HybridSearch.LookupStep | backend/python/hybrid_search.py:56 | reassigning a key keeps its place in dict order, and a new key goes last |
| HybridSearch.VectorEntries | backend/python/hybrid_search.py:63-68 | the vector loop builds exactly the scored copies and sees exactly the vector keys |
| HybridSearch.AddVectorEntry | backend/python/hybrid_search.py:64-68 | one pass of the vector loop appends one scored copy and marks its key as seen |
| HybridSearch.Bm25OnlyEntries | backend/python/hybrid_search.py:71-77 | the BM25 loop appends exactly the BM25-only entries |
| HybridSearch.DistinctNotBefore | backend/python/hybrid_search.py:71 | a dict key does not occur earlier in the key order |
| HybridSearch.AddBm25Entry | backend/python/hybrid_search.py:72-77 | one pass of the BM25 loop appends an entry for an unseen key and marks it as seen |
| HybridSearch.HybridMerge | backend/python/hybrid_search.py:14-82 | the imperative merge returns exactly the specified result |
| QueryExpand.ModelName | backend/python/query_expand.py:43 | a given non-empty model name is used, otherwise "llama3.2:3b" |
| QueryExpand.ExtractJson | backend/python/query_expand.py:110-128 | the stripped text is used when it parses; otherwise only the slice from the first "{" to the last "}" may be; with no brace on one side nothing is found |
| QueryExpand.ExtractJsonNeedsOrderedBraces | backend/python/query_expand.py:120-122 | when the last "}" comes before the first "{", only the whole text is tried |
| QueryExpand.WithQuery | backend/python/query_expand.py:67-69 | after the insert, the query is in the queries |
| QueryExpand.FillHintsInPlace | backend/python/query_expand.py:73-75 | the hint-key loop adds each missing key in order, and stops with the failure where an assignment would raise |
| QueryExpand.FailureStaysFailure | backend/python/query_expand.py:73-75 | once an assignment raises, the loop's outcome is the failure |
| QueryExpand.ExpandQuery | backend/python/query_expand.py:25-88 | the imperative expansion returns exactly the specified dict for every reply of the model server |
| QueryExpand.FallbackShape | backend/python/query_expand.py:35-39 | the fallback holds the query alone, exactly the four empty hint lists, and used_llm False |
| QueryExpand.NotUsedIsFallback | backend/python/query_expand.py:58-88 | used_llm is False exactly when the fallback is returned, and an unreachable server gives the fallback |
| QueryExpand.UsedLlmIff | backend/python/query_expand.py:61-81 | used_llm is True exactly when the reply parses to an object with "queries" and neither the insert nor the hint loop raises |
| QueryExpand.OriginalQueryKept | backend/python/query_expand.py:36-69 | on every path the original query is among the returned queries |
| QueryExpand.QueryInsertedFirst | backend/python/query_expand.py:68-69 | the query goes in front of a list that lacks it, and a list that has it is unchanged |
| QueryExpand.FillHintsHasKeys | backend/python/query_expand.py:73-75 | after the loop every visited key is present, and keys already present keep their values |
| QueryExpand.AddKeyKeeps | backend/python/query_expand.py:74-75 | adding a missing key keeps the keys already present |
| QueryExpand.HintsComplete | backend/python/query_expand.py:37-75 | the returned hints always contain the four hint keys |
| Config.Defaults | backend/python/config.py:23-32 | the defaults name all-MiniLM-L6-v2, engine version 2 and the four feature flags, and no indexed version |
| Config.Load | backend/python/config.py:35-43 | a stored document is returned as it is; a missing or unreadable file gives a copy of the defaults |
| Config.ModelOf | backend/python/config.py:12-67 | a known model maps to its own table and dimensions; an unknown one to documents_v2 and 384 |
| Config.IsFeatureEnabled | backend/python/config.py:75-84 | a feature is on exactly when the flags list it as True |
| Config.NeedsReindex | backend/python/config.py:87-91 | a reindex is needed exactly when the stored indexed version, 0 when missing, is below 2 |
| Config.UnknownModelFallsBack | backend/python/config.py:60-67 | an unnamed or unknown model gets the default model's table name and dimensions |
| Config.FeatureDefaults | backend/python/config.py:26-84 | a flag missing from stored flags is off; without stored flags exactly the four default flags are on |
| Config.NeedsReindexIgnoresEngineVersion | backend/python/config.py:87-91 | the stored engine_version plays no part in the reindex decision |
| Config.DefaultsNeedReindex | backend/python/config.py:37-91 | a fresh install, a missing file or an unreadable file needs a reindex |
| Config.ConfigStore.constructor | backend/python/config.py:9 | the store starts with the given file |
| Config.ConfigStore.Save | backend/python/config.py:46-50 | after saving, the file holds exactly the saved settings |
| Config.ConfigStore.MarkReindexComplete | backend/python/config.py:94-98 | after marking, no reindex is needed and every other key is kept |
| Config.ConfigStore.InitConfig | backend/python/config.py:101-105 | the defaults are written only when there is no file, and the loaded config is returned |
| IndexMetadata.Trunc | backend/python/index_metadata.py:27 | `int()` on a float truncates toward zero |
| IndexMetadata.FileHash | backend/python/index_metadata.py:22-29 | the hash is missing exactly when os.stat fails, and otherwise is the size, "_" and the whole-second mtime |
| IndexMetadata.FileHashExact | backend/python/index_metadata.py:27 | two stats hash alike exactly when their sizes and truncated mtimes agree |
| IndexMetadata.DigitsThenUnderscore | backend/python/index_metadata.py:27 | a digits-only size part followed by "_" can be read back uniquely |
| IndexMetadata.UnderscoreAfterDigits | backend/python/index_metadata.py:27 | a hash with a shorter digit prefix differs from one with a longer digit prefix |
| IndexMetadata.FirstWithPath | backend/python/index_metadata.py:36-87 | the loops stop at the first index for the folder, and none is found exactly when no index has that path |
| IndexMetadata.UpdateFirst | backend/python/index_metadata.py:58-63 | only the first index for the folder gets the new time, files and count; every other index is unchanged |
| IndexMetadata.WithoutId | backend/python/index_metadata.py:74 | the kept indexes are exactly those whose id differs |
| IndexMetadata.WithoutIdKeepsOrder | backend/python/index_metadata.py:74 | deleting distributes over concatenation, so the order is kept, and deleting twice is deleting once |
| IndexMetadata.WithoutIdIdempotent | backend/python/index_metadata.py:71-76 | deleting the same id twice is deleting it once |
| IndexMetadata.ChangeDetectionPartition | backend/python/index_metadata.py:99-111 | the new, modified and unchanged lists together hold each listed file exactly once |
| IndexMetadata.UnchangedIff | backend/python/index_metadata.py:103-117 | a listed file is unchanged exactly when it is stored with a hash equal to its current one, and needs indexing otherwise |
| IndexMetadata.UnchangedFolderIsSkipped | backend/python/index_metadata.py:99-117 | re-checking a folder whose files are all stored with their current hash finds nothing to index |
| IndexMetadata.IndexStore.constructor | backend/python/index_metadata.py:9-14 | a missing metadata file means no indexes |
| IndexMetadata.IndexStore.FindOrCreateIndex | backend/python/index_metadata.py:31-52 | an existing index for the folder is returned unchanged; otherwise a new empty one is appended and returned |
| IndexMetadata.IndexStore.UpdateIndexMetadata | backend/python/index_metadata.py:54-65 | the stored list becomes the specified update of the first index for the folder |
| IndexMetadata.IndexStore.DeleteIndex | backend/python/index_metadata.py:71-76 | every index with the id is dropped, order kept, and the call reports success |
| IndexMetadata.IndexStore.GetFilesNeedingIndex | backend/python/index_metadata.py:78-117 | without an index every file needs indexing; otherwise the new and modified files, the unchanged files, and the stored paths no longer listed |
| SyncEngine.PathJoinInjective | backend/python/sync_engine.py:83 | joining the items folder with two plain names gives the same path only for the same name |
| SyncEngine.MetaKeysListed | backend/python/sync_engine.py:79-102 | every record of the built map belongs to a listed file that got one, so records of files no longer listed are dropped |
| SyncEngine.MetaAtName | backend/python/sync_engine.py:82-102 | each listed file has a record exactly when its own outcome gives one, and it is that record |
| SyncEngine.MetaAtLast | backend/python/sync_engine.py:82-102 | the last listed file's record is not shadowed by an earlier file's |
| SyncEngine.LastNotEarlier | backend/python/sync_engine.py:82-83 | no earlier name of a plain, distinct listing has the last name's path |
| SyncEngine.MetaAtEarlier | backend/python/sync_engine.py:82-102 | an earlier file's record survives the step for a later file |
| SyncEngine.BuildMetaStep | backend/python/sync_engine.py:82-102 | one loop step puts the file's record, if any, into the map, and counts and stores it only when it is indexed or attempted |
| SyncEngine.StoreCallsListed | backend/python/sync_engine.py:86-96 | every path handed to store_document is a listed file that was new or changed and not blank |
| SyncEngine.HashGateKeeps | backend/python/sync_engine.py:86-89 | a file stored with its current hash keeps its old record and is not stored again |
| SyncEngine.NewOrChangedRecord | backend/python/sync_engine.py:91-104 | a new or changed file stored without error gets a record with its current hash, chunk count and time; a blank or failed one gets none |
| SyncEngine.CountIsIndexed | backend/python/sync_engine.py:80-102 | indexed_count is the number of listed files stored anew, and at most the number of store calls |
| SyncEngine.MetadataReplaced | backend/python/sync_engine.py:73-107 | after indexing, the folder's index holds exactly the built map and its size, and the index list grew by one only when the folder had no index |
| SyncEngine.PathsStay | backend/python/sync_engine.py:107 | updating an index's files keeps it the first index for its folder |
| SyncEngine.ListTxt | backend/python/sync_engine.py:78 | the listing holds each .txt entry of the folder exactly once, so its length is the number of .txt entries |
| SyncEngine.IndexFile | backend/python/sync_engine.py:83-104 | one loop body gives exactly the specified outcome for the file |
| SyncEngine.IndexFiles | backend/python/sync_engine.py:79-104 | the loop builds exactly the specified map, count and store calls |
| SyncEngine.Engine.constructor | backend/python/sync_engine.py:23 | the engine starts with no connector syncing |
| SyncEngine.Engine.IndexConnectorItems | backend/python/sync_engine.py:63-107 | a missing items folder changes nothing; otherwise the folder's index is found or created and its files replaced by the hash-gated map over some listing order |
| SyncEngine.Engine.SyncGuarded | backend/python/sync_engine.py:43-57 | the result is what connector.sync returns by its contract ("Not authenticated", the login error, or the run's new items and errors); a sync with no new items leaves the index alone; one with new items reindexes the items folder |
| SyncEngine.Engine.SyncConnector | backend/python/sync_engine.py:29-60 | a connector already syncing is refused with nothing changed, an unknown one is refused as not found; otherwise the sync runs under the guard, which is released afterwards, and for a live connector the result is what connector.sync returns by its contract |
| BaseConnector.StatusValueInjective | backend/python/connectors/base_connector.py:15-20 | the five status values are distinct strings, so a reported value names exactly one member |
| BaseConnector.StatusMembers | backend/python/connectors/base_connector.py:15-20 | every status reports one of "idle", "syncing", "error", "authenticated" and "not_configured" |
| BaseConnector.JoinUnder | backend/python/connectors/base_connector.py:43-54 | joining a directory with a plain name gives an entry inside that directory that ends with the name |
| BaseConnector.PrefixOfConcat | backend/python/connectors/base_connector.py:44 | a joined path starts with its first part and ends with its last |
| BaseConnector.PathsInsideBase | backend/python/connectors/base_connector.py:43-54 | the items folder and the state file are two different entries of the connector's base directory |
| BaseConnector.Disk.constructor | backend/python/connectors/base_connector.py:23 | the file system starts with the given folders and state files |
| BaseConnector.Disk.MakeDirs | backend/python/connectors/base_connector.py:40-41 | `os.makedirs(exist_ok=True)` creates a missing directory, empty, and keeps an existing one untouched |
| BaseConnector.Disk.WriteFile | backend/python/connectors/gmail_connector.py:213-215 | writing a file succeeds exactly when its directory exists, and then sets that one file's content |
| BaseConnector.Disk.RemoveTree | backend/python/connectors/base_connector.py:98-101 | `shutil.rmtree` removes everything under the directory and keeps the rest |
| BaseConnector.Connector.constructor | backend/python/connectors/base_connector.py:29-41 | a new connector is not configured, has empty counters, labels itself by config or type, and its items folder exists afterwards |
| BaseConnector.Connector.LoadState | backend/python/connectors/base_connector.py:56-62 | the saved state is returned, or {} when there is none |
| BaseConnector.Connector.SaveState | backend/python/connectors/base_connector.py:64-67 | after saving, loading gives back exactly what was saved, and no items change |
| BaseConnector.Connector.GetStatus | backend/python/connectors/base_connector.py:83-94 | the report carries the connector's own fields, the status's string value and its items folder |
| BaseConnector.Connector.Cleanup | backend/python/connectors/base_connector.py:96-101 | cleanup removes the items folder and state file, only under this connector's base directory, and other connectors' data stays |
| GmailConnector.KeptChars | backend/python/connectors/gmail_connector.py:89 | after dropping every character outside \w, whitespace and '-', only such characters remain and the text is no longer |
| GmailConnector.CollapseFirst | backend/python/connectors/gmail_connector.py:90 | collapsing whitespace runs gives nothing only for the empty text, and keeps a leading non-space character |
| GmailConnector.CollapsedChars | backend/python/connectors/gmail_connector.py:90 | every character of the collapsed text is the replacement or a non-space character of the input |
| GmailConnector.CollapsedRuns | backend/python/connectors/gmail_connector.py:90 | with a whitespace replacement, no two whitespace characters are left next to each other |
| GmailConnector.SafeFilenameProperties | backend/python/connectors/gmail_connector.py:87-91 | a safe file name holds only word characters and '-' (no separator, dot or whitespace); it is "no_subject" when nothing survives the filter, and otherwise at most max_len long |
| GmailConnector.SafeChars | backend/python/connectors/gmail_connector.py:89-90 | stripping and turning whitespace runs into '_' leaves only file-name characters from filtered text |
| GmailConnector.PrefixChars | backend/python/connectors/gmail_connector.py:91 | cutting to max_len characters keeps only characters of the name |
| GmailConnector.StripChars | backend/python/connectors/gmail_connector.py:90 | strip() only removes characters |
| GmailConnector.FindCI | backend/python/connectors/gmail_connector.py:37-38 | a case-insensitive match position lies at or after the start and leaves room for the pattern |
| GmailConnector.FindCILeftmost | backend/python/connectors/gmail_connector.py:37-38 | the match found is the leftmost case-insensitive occurrence, and no match means there is none at all |
| GmailConnector.NoAngleNoMatch | backend/python/connectors/gmail_connector.py:37-38 | a style or script tag cannot be found in text without '<' |
| GmailConnector.TagAtShift | backend/python/connectors/gmail_connector.py:39 | whether a tag starts at a position depends only on the text from there on |
| GmailConnector.NoCloseNoTag | backend/python/connectors/gmail_connector.py:39 | when the first '<' has no '>' after it, no position starts a tag |
| GmailConnector.NoTagAfter | backend/python/connectors/gmail_connector.py:39 | a prefix with no tag start followed by text without tags has no tag |
| GmailConnector.ReplaceTagsFirst | backend/python/connectors/gmail_connector.py:39 | the tag replacement proceeds from the first '<' and its next '>' |
| GmailConnector.ReplaceTagAtSpace | backend/python/connectors/gmail_connector.py:39 | a tag `<...>` with at least one character inside becomes a single space |
| GmailConnector.ReplaceTagAtEmpty | backend/python/connectors/gmail_connector.py:39 | "<>" is not a tag and is kept as it is |
| GmailConnector.ReplaceTagsNoTag | backend/python/connectors/gmail_connector.py:39 | after the replacement no tag is left, and text without '<' is unchanged |
| GmailConnector.StripNormalizes | backend/python/connectors/gmail_connector.py:44 | stripping text whose whitespace is isolated single spaces leaves no whitespace at either end |
| GmailConnector.StripHtmlNormalized | backend/python/connectors/gmail_connector.py:35-45 | the text _strip_html returns has only single spaces as whitespace, never two in a row and none at either end |
| GmailConnector.ReplaceAllAbsent | backend/python/connectors/gmail_connector.py:40-43 | replacing an entity that cannot occur changes nothing |
| GmailConnector.CollapseNormalized | backend/python/connectors/gmail_connector.py:44 | collapsing whitespace in text that already has only isolated single spaces changes nothing |
| GmailConnector.StripHtmlKeepsPlainText | backend/python/connectors/gmail_connector.py:35-45 | text without markup or entities, with normalised whitespace, passes through _strip_html unchanged |
| GmailConnector.WalkAllSnoc | backend/python/connectors/gmail_connector.py:53 | walking one more part appends that part's walk |
| GmailConnector.TextsEmpty | backend/python/connectors/gmail_connector.py:53-69 | no text of a type is collected exactly when no walked node is a non-attachment part of that type with a payload |
| GmailConnector.TextsConcat | backend/python/connectors/gmail_connector.py:53-69 | the texts of two node lists are the texts of each, in order |
| GmailConnector.ExtractBody | backend/python/connectors/gmail_connector.py:76-84 | a single-part message without payload gives ""; a non-HTML part gives its payload as it is |
| GmailConnector.TextsOfMultipart | backend/python/connectors/gmail_connector.py:53 | the texts collected from a multipart message come from its parts only |
| GmailConnector.WalkMultipartSnoc | backend/python/connectors/gmail_connector.py:53-69 | a part added at the end contributes its texts after the others' |
| GmailConnector.TextsOfLeaf | backend/python/connectors/gmail_connector.py:53-69 | a leaf contributes its payload exactly when it is a non-attachment part of the wanted type with a payload |
| GmailConnector.AttachmentIgnored | backend/python/connectors/gmail_connector.py:55-57 | a part marked as an attachment never changes the body of a multipart message |
| GmailConnector.PlainPreferredOverHtml | backend/python/connectors/gmail_connector.py:70-72 | once a plain-text part exists, an added HTML part does not change the body |
| GmailConnector.HtmlFallback | backend/python/connectors/gmail_connector.py:72-74 | with no plain-text part the body is the joined HTML parts passed through _strip_html, hence normalised |
| GmailConnector.FirstMissing | backend/python/connectors/gmail_connector.py:106-111 | the first key missing from the credentials, all keys before it present; none exactly when every required key is present |
| GmailConnector.Authenticate | backend/python/connectors/gmail_connector.py:104-128 | a missing key fails with "Missing credential: <key>"; with all three keys the result is true iff the login succeeds, which stores the credentials and sets authenticated; an IMAP rejection and any other failure set the error status with their own messages and keep the old credentials |
| GmailConnector.NewUidsProperties | backend/python/connectors/gmail_connector.py:166-178 | at most 200 UIDs are taken, each above the watermark and from the server's list; when fewer than 200 are taken, every UID above the watermark is among them |
| GmailConnector.FetchUidsProperties | backend/python/connectors/gmail_connector.py:182-225 | the fetch loop counts exactly the messages it wrote; the watermark never goes below the old one, covers every fetched UID when the items folder exists, and is some fetched UID when it moved; each failed fetch leaves its UID's error; with no folder to write to nothing is written and the watermark stays |
| GmailConnector.FetchStepProperties | backend/python/connectors/gmail_connector.py:183-225 | one UID writes at most one message, appended to what was written, raises the watermark to at most that UID, keeps earlier errors, and a raising fetch adds its UID's error |
| GmailConnector.WriteAll | backend/python/connectors/gmail_connector.py:213-215 | after the writes every written name and every old name exists in the folder |
| GmailConnector.FolderStepProperties | backend/python/connectors/gmail_connector.py:154-227 | a folder step after an exception changes nothing; otherwise it keeps every watermark at least as high and changes no other folder's watermark, and writes nothing when the items folder is missing |
| GmailConnector.FailureEndsSync | backend/python/connectors/gmail_connector.py:231-239 | once an exception has ended the sync, the remaining folders change nothing |
| GmailConnector.WatermarksNeverDecrease | backend/python/connectors/gmail_connector.py:166-227 | across the whole sync no folder's watermark is lowered or dropped |
| GmailConnector.OnlyVisitedFoldersChange | backend/python/connectors/gmail_connector.py:154-227 | the sync only sets the watermarks of the folders it visits |
| GmailConnector.NothingNewWhenNoFolder | backend/python/connectors/gmail_connector.py:155-170 | when no folder can be selected, nothing is written, counted or reported and the watermarks stay |
| GmailConnector.FetchFolder | backend/python/connectors/gmail_connector.py:182-225 | the per-UID loop returns the watermark, count and errors of the fetch specification, and the items folder gets exactly the files of the messages it saved |
| GmailConnector.FetchOne | backend/python/connectors/gmail_connector.py:183-225 | one iteration of the per-UID loop does what one fetch step specifies and writes only that step's file |
| GmailConnector.FoldersAfterNone | backend/python/connectors/gmail_connector.py:214-215 | saving no message leaves the disk as it was |
| GmailConnector.FoldersAfterOne | backend/python/connectors/gmail_connector.py:214-215 | saving one message writes its file into the items folder and nothing else |
| GmailConnector.Files | backend/python/connectors/gmail_connector.py:211-215 | one file per saved message |
| GmailConnector.FilesConcat | backend/python/connectors/gmail_connector.py:211-215 | the files of two runs of saved messages are the files of each, in order |
| GmailConnector.FoldersAfterConcat | backend/python/connectors/gmail_connector.py:214-215 | saving two runs of messages one after the other is saving them all at once |
| GmailConnector.WriteAllConcat | backend/python/connectors/gmail_connector.py:214-215 | writing two runs of files one after the other is writing them all in order |
| GmailConnector.VisitFolder | backend/python/connectors/gmail_connector.py:154-227 | one iteration of the folder loop does what one folder step specifies and writes only that step's files |
| GmailConnector.SyncAllFolders | backend/python/connectors/gmail_connector.py:154-227 | the folder loop over INBOX and Sent returns the watermarks, count, errors and exception of the sync specification and writes exactly its files |
| GmailConnector.SyncSession | backend/python/connectors/gmail_connector.py:152-256 | after login: the disk holds the specification's files; an exception sets the error status and saves no state; otherwise the status is idle, last_sync is now, items_synced is the number of items on disk and the state file holds the new watermarks |
| GmailConnector.Sync | backend/python/connectors/gmail_connector.py:130-256 | without credentials nothing changes and the result is "Not authenticated"; a failed login sets the error status and changes no file; otherwise as the sync session specifies, starting from the stored watermarks |
| ConnectorRegistry.FirstWithId | backend/python/connectors/connector_registry.py:125-126 | the position of the first config entry with the id, every entry before it having another id; none when no entry has it |
| ConnectorRegistry.WithoutId | backend/python/connectors/connector_registry.py:163 | the filtered list holds only entries of the old list without the id, and every such entry |
| ConnectorRegistry.WithoutIdKeepsOthers | backend/python/connectors/connector_registry.py:163 | removing an id keeps the other entries in their order, and a list without the id is unchanged |
| ConnectorRegistry.FilterAll | backend/python/connectors/connector_registry.py:163 | a list where no entry has the id is unchanged by the removal |
| ConnectorRegistry.Registry.constructor | backend/python/connectors/connector_registry.py:17-20 | at import no class is registered and no instance is live; the config list is the saved one |
| ConnectorRegistry.Registry.Register | backend/python/connectors/connector_registry.py:23-25 | the class is stored under its type name, replacing an earlier one; a new type name is added at the end of the registration order; instances and config are unchanged |
| ConnectorRegistry.Registry.AvailableTypes | backend/python/connectors/connector_registry.py:28-30 | exactly the registered type names, each once |
| ConnectorRegistry.ReauthError | backend/python/connectors/gmail_connector.py:104-128 | the last_error authenticate leaves on a re-authentication: none exactly when all three keys are present and the login succeeds, otherwise the missing-key, IMAP or connection message |
| ConnectorRegistry.Registry.Instantiate | backend/python/connectors/connector_registry.py:48-73 | no instance exactly when the entry's type is not registered; otherwise a new connector that is `MadeFrom` the entry: the entry's id, type and config (empty when absent), the label from the config; with credentials it is re-authenticated, authenticated with the credentials stored on a successful login, error with authenticate's last_error otherwise; without credentials it is not configured and has no last_error; last_sync and items_synced are restored from the state file only when they are set and truthy; the items folder is made and the state files are unchanged |
| ConnectorRegistry.Registry.AddConnector | backend/python/connectors/connector_registry.py:76-115 | an unknown type fails with "Unknown connector type: <type>" and changes nothing; a failed login fails with "Authentication failed — check credentials" and adds no entry and no instance; success appends one entry with the new id, the label (the type when empty), the credentials and config and the time, caches the new authenticated instance and returns its status |
| ConnectorRegistry.Registry.GetConnector | backend/python/connectors/connector_registry.py:118-131 | a live instance is returned as it is; otherwise the first entry with the id is instantiated and cached, and the new instance is `MadeFrom` that entry (id, type, config, re-authenticated status and last_error, restored last_sync and items_synced) with its items folder made; none exactly when no entry has the id or its type is not registered, and then nothing is cached and no file changes |
| ConnectorRegistry.Registry.ListConnectors | backend/python/connectors/connector_registry.py:134-150 | one item per config entry in order: the live instance's `get_status()` report when it is live or can be made, otherwise the "error" placeholder with "Could not instantiate connector" and the label or the type; live instances stay |
| ConnectorRegistry.Registry.ListOne | backend/python/connectors/connector_registry.py:139-149 | one item of the list: the `get_status()` report of the instance now cached under the entry's id, or the placeholder; only a registered entry's instance is added to the cache |
| ConnectorRegistry.Registry.RemoveConnector | backend/python/connectors/connector_registry.py:153-169 | every entry with the id is dropped from the config and the instance is forgotten; when the connector could be had (live, or the first entry has a registered type) the returned folder is `ItemsFolder(type, id)` for its type, and the folders and state files become exactly the old ones minus those under its base directory, so other connectors' data stays; otherwise nothing is returned and no file changes |
| ConnectorRegistry.Registry.Forget | backend/python/connectors/connector_registry.py:161-167 | the config loses every entry with the id and the cache loses the id |
| ConnectorRegistry.Registry.RestoreAll | backend/python/connectors/connector_registry.py:177-184 | live instances are kept as they are; every entry whose type is registered has a live instance afterwards, and each new instance belongs to some entry |
| ConnectorRegistry.Registry.RestoreOne | backend/python/connectors/connector_registry.py:180-184 | an entry already live is left alone; otherwise it is instantiated and cached when its type is registered, and only under its own id |
| ApiServer.Ext | backend/python/api_server.py:87 | the extension os.path.splitext gives is empty or a dot and a suffix of the path without another dot or a separator |
| ApiServer.RFindCharAt | backend/python/api_server.py:87 | the last occurrence of a character is found where it occurs with none after it |
| ApiServer.ExtOfName | backend/python/api_server.py:87 | for dir/base.ext, with a base not starting with a dot, the extension is ".ext" |
| ApiServer.HiddenFileHasNoExtension | backend/python/api_server.py:87 | a base name with only a leading dot, like ".bashrc", has no extension |
| ApiServer.UnsupportedExtension | backend/python/api_server.py:87-90 | an extension not in PARSERS after lower-casing gives success False, no text and "Unsupported file type: <ext>" |
| ApiServer.ParseOutcome | backend/python/api_server.py:71-97 | a registered extension runs its extractor; an exception, or text starting with "Error", is a failure carrying that message; any other text is success with that text |
| ApiServer.ParseSuccessIff | backend/python/api_server.py:86-97 | success is true exactly when the extension is registered and its extractor returned text not starting with "Error", and exactly when there is text and no error |
| ApiServer.ExtensionCaseFolded | backend/python/api_server.py:87-88 | the extension is looked up lower-cased: "report.PDF" is dispatched like "report.pdf" |
| ApiServer.LowerKeepsSeparators | backend/python/api_server.py:87 | lower-casing neither adds nor removes dots and slashes |
| ApiServer.LowerDot | backend/python/api_server.py:87 | lower-casing keeps the leading dot |
| ApiServer.LowerIdempotent | backend/python/api_server.py:87 | lower-casing twice is lower-casing once |
| ApiServer.OptionsOverride | backend/python/api_server.py:129-133 | an explicit option decides the feature; without one the configured flag does |
| ApiServer.Iterate | backend/python/api_server.py:147-159 | `for q in expanded_queries`: a list gives its items, a string its one-character strings, an object its keys; only null, a boolean or a number cannot be iterated |
| ApiServer.Candidates | backend/python/api_server.py:156 | each vector search asks for max(50, limit * 5) candidates |
| ApiServer.Texts | backend/python/api_server.py:164-167 | BM25 reads the text of every chunk of the table, in order |
| ApiServer.SearchEach | backend/python/api_server.py:155-159 | exactly one vector search per query, in query order, each with the same candidate count, the results concatenated in that order |
| ApiServer.Search | backend/python/api_server.py:125-184 | the response is the pipeline's (expansion, per-query vector search, merge, hybrid, dedup, rerank), and the vector searches made are one per value `for q in expanded_queries` yields, with max(50, limit * 5) candidates |
| ApiServer.ExpansionOff | backend/python/api_server.py:135-152 | with expansion off the query is searched alone and meta says used_llm False, expanded_queries [query], hints {} |
| ApiServer.HybridOffKeepsMerged | backend/python/api_server.py:164-169 | with hybrid off or no vector results the merged list goes on unchanged |
| ApiServer.HybridWithoutChunks | backend/python/api_server.py:164-169 | with an empty or unloadable chunk table, hybrid keeps the first limit * 3 vector results, each with RRF score 0.0 |
| ApiServer.RerankFallbackTruncates | backend/python/api_server.py:174-182 | with the reranker off, nothing to rank, or a reranker that raises, the results are the first limit of the deduplicated list |
| ApiServer.ResultsBounded | backend/python/api_server.py:174-184 | when the reranker keeps to its top_n, a non-negative limit bounds the number of results |
| ApiServer.DropFolder | backend/python/api_server.py:272-274 | the kept indexes are exactly the old ones whose path is not the items folder |
| ApiServer.DropFolderKeepsOrder | backend/python/api_server.py:272-274 | dropping a folder's indexes keeps the others in their order and never adds any |
| ApiServer.DeletedPaths | backend/python/api_server.py:259-263 | the documents deleted are the .txt files of the items folder, joined to it, one per .txt file; none when the folder does not exist |
| ApiServer.DropFolderIndexes | backend/python/api_server.py:270-275 | the saved metadata holds exactly the indexes whose path is not the items folder |
| ApiServer.ItemsToDelete | backend/python/api_server.py:255-263 | the lookup half: the folder of the connector that could be had, the paths of its .txt files (none for a folder just made or missing), the cache changed only under the id, and the disk unchanged or with the items folder made |
| ApiServer.RemoveConnectorEndpoint | backend/python/api_server.py:251-277 | the connector is looked up first; `folder` is the items folder of the connector that could be had (live, or instantiated from its first entry), none otherwise; the .txt files the folder held are deleted from the vector store, none when it did not exist; the config entry and live instance are removed; the disk ends as the old folders and state files minus the connector's base directory, or unchanged when it could not be had; the folder's indexes are dropped only when there is a folder |
| Text.LStrip | backend/python/chunker.py:17 | the result is a suffix of the input, everything removed is whitespace, and it does not start with whitespace |
| Text.RStrip | backend/python/chunker.py:17 | the result is a prefix of the input, everything removed is whitespace, and it does not end with whitespace |
| Text.Strip | backend/python/chunker.py:17 | str.strip(): a non-empty result has no whitespace at either end and is no longer than the input |
| Text.StripEmpty | backend/python/parse_html.py:23-26 | the stripped text is empty exactly when the text is all whitespace (the truthiness test of `s.strip()`) |
| Text.StripNonBlank | backend/python/parse_html.py:23-26 | stripping text that is not all whitespace gives a non-empty text without edge whitespace |
| Text.SpaceAfterFirst | backend/python/chunker.py:17 | a leading whitespace character followed by whitespace is a whitespace prefix |
| Text.SpaceBeforeLast | backend/python/chunker.py:17 | whitespace followed by a trailing whitespace character is a whitespace suffix |
| Text.AllSpaceSplit | backend/python/chunker.py:17 | a text is all whitespace exactly when both halves of any split are |
| Text.StripNoEdgeSpace | backend/python/chunker.py:17 | text without edge whitespace is unchanged by strip() |
| Text.StripIdempotent | backend/python/chunker.py:17 | stripping twice is stripping once |
| Text.JoinSnoc | backend/python/parse_html.py:27 | joining one more part appends the separator and the part, or gives the part alone |
| Text.DigitChar | backend/python/parse_yaml.py:22 | a decimal digit is rendered as a character '0'-'9' |
| Text.NatToString | backend/python/parse_yaml.py:22 | str() of a natural number is a non-empty run of digits |
| Text.IntToString | backend/python/parse_yaml.py:22 | str() of an integer is a '-' exactly for a negative number, followed by digits |
| Text.NatToStringInjective | backend/python/parse_yaml.py:22 | different numbers render differently, so list indexes give different keys |
| Text.IntToStringInjective | backend/python/parse_yaml.py:22 | different integers render differently |
| Text.FindChar | backend/python/query_expand.py:120 | str.find: -1 exactly when the character is absent, otherwise its first position |
| Text.RFindChar | backend/python/query_expand.py:121 | str.rfind: -1 exactly when the character is absent, otherwise its last position |
| Text.Lower | backend/python/bm25_search.py:13 | lower() maps each character in place and keeps the length |
| Seqs.Filter | backend/python/connectors/connector_registry.py:163 | a list comprehension with a condition keeps only elements that satisfy it, and all of them |
| Seqs.FilterConcat | backend/python/connectors/connector_registry.py:163 | filtering a concatenation filters each part, in order |
| Seqs.FilterPartition | backend/python/connectors/connector_registry.py:163 | the kept and the dropped elements together are the input, as a multiset |
| Seqs.TakeSnoc | backend/python/hybrid_search.py:52-56 | a prefix one longer adds the next element |
| Seqs.Prefix | backend/python/api_server.py:180-182 | slicing `[:n]` gives the first min(n, len) elements for n >= 0 and drops -n from the end for n < 0 |
| Seqs.Count | backend/python/bm25_search.py:64-76 | Counter(tokens)[term]: the number of occurrences is at most the length and zero exactly when the element is absent |
| Seqs.Dedup | backend/python/hybrid_search.py:51-56 | the key order of a dict filled in sequence: the same elements, each once, at its first occurrence |
| Seqs.Get | backend/python/connectors/gmail_connector.py:166 | dict.get: the stored value when present, the default otherwise |
| Seqs.FlatMapConcat | backend/python/parse_html.py:21-26 | collecting over a concatenation collects over each part, in order |
| Seqs.FlatMapCons | backend/python/parse_html.py:21-26 | the first element's items come first |
| Seqs.FlatMapAll | backend/python/parse_html.py:21-26 | when every element contributes at most k items satisfying a property, the collection has at most k per element, all satisfying it |
| Ranking.Tag | backend/python/bm25_search.py:84 | each item is paired with its score and its original position |
| Ranking.Items | backend/python/bm25_search.py:85-87 | dropping the tags keeps the items in order |
| Ranking.Insert | backend/python/bm25_search.py:85 | inserting into a list sorted by descending score, ties by position, keeps it sorted and adds exactly the element |
| Ranking.ConsSorted | backend/python/bm25_search.py:85 | an element before all of a sorted list starts a sorted list |
| Ranking.SortRanked | backend/python/bm25_search.py:85 | the stable descending sort: sorted by score, ties in original order, and a permutation of the input |
| Ranking.HeadFirst | backend/python/bm25_search.py:85 | the head of a sorted list comes before every other element |
| Ranking.SortedTail | backend/python/bm25_search.py:85 | the tail of a sorted list is sorted |
| Ranking.MultisetTail | backend/python/bm25_search.py:85 | the tail holds all elements but the head |
| Ranking.SameHead | backend/python/bm25_search.py:85 | two sorted arrangements of the same elements start with the same element |
| Ranking.SortedUnique | backend/python/bm25_search.py:85 | with distinct positions there is exactly one sorted arrangement, so the stable sort's result is determined |
| Ranking.SortRankedOrder | backend/python/hybrid_search.py:80 | the sort gives non-increasing scores and keeps the input order among equal scores |
| Ranking.FromTag | backend/python/bm25_search.py:84-87 | every element taken from the tagged list carries its original position, score and item |

## Left out

- Character classes: Python's Unicode `\w`, `[a-zA-Z0-9]` on non-ASCII text and `str.lower()` are modelled on ASCII letters and digits only. `str.isspace` and `\s` use the full whitespace list.
- Header decoding: `_decode_header_value` and MIME payload decoding are not modelled. A fetched message carries its headers already decoded, and a part carries its decoded payload, or None when decoding raises.
- Progress callbacks are not modelled in any module. They only report progress and do not change results.
- Library parsing: lxml, openpyxl, python-pptx and PyYAML are parameters that give their trees, rows, slides or documents, or the message of their exception. A missing `.text` or `.tail` in HTML is the empty string, which the walk skips just as it skips None.
- Bm25Search.Bm25ResultsProperties: the BM25 term weight (`math.log` and float division) is an abstract `Weight` function, because floating-point values do not match Dafny reals. The model states which documents are scored, on which counts, and in what order, but not the numbers themselves.
- Reranker and vector store: the reranker, the vector store (`store_document`, `search_documents`, `delete_document`), `merge_vector_results`, `deduplicate_results` and the LanceDB chunk table are parameters. ApiServer.ResultsBounded assumes that the reranker returns at most top_n results.
- ApiServer.Search: `expand_query` and `hybrid_merge` are modelled as catching their own failures (as their code does), so the `except: pass` branches in `search` are never taken in the model.
- Clocks and identifiers: `datetime.now()`, `uuid4().hex[:12]` and the md5 index id are parameters, and fresh values are supplied by the caller.
- Concurrency and scheduling (`_scheduled_sync`, `start_all_schedules`, `stop_all_schedules`, `add_schedule`, `remove_schedule`, asyncio and the thread pool) and SSE streaming in `trigger_sync` are not modelled. The single-flight guard is modelled as a sequential set.
- Routing: the FastAPI routing of the remaining endpoints (`/health`, `/index`, `/metadata/*`, `POST /connectors`, `GET /connectors`, `/connectors/types`, `/connectors/{id}/sync`, `/connectors/{id}/status`) and the `HTTPException` mapping are not modelled. These handlers only forward to the modelled registry, metadata and sync operations.
- Other functions not modelled: `check_ollama_status`, `get_all_configs` and `get_all_indexes` are plain getters or HTTP probes.
- Persistence: JSON files are in-memory fields. The model keeps no byte-level formatting and no dict insertion order. IndexMetadata.IndexStore.GetFilesNeedingIndex returns the deleted files as a set, because the stored `files` dict order is not modelled.
- Connector package: importing it registers the IMAP class under "gmail". In the model that is a call to ConnectorRegistry.Registry.Register after the constructor.
- Chunker: the members SentStep, PackSentences, LongParagraphChunks, ParaStep, PackParagraphs, ParagraphJoinedIffFits, PackParagraphsAppendOnly, Chunks, SentenceIteration, PackSentenceLoop, SplitLongParagraph, ParagraphIteration, PackParagraphLoop and ChunkText all require overlap < chunk_size. The source only needs this when a sentence is longer than chunk_size, where `range()` raises for a step of 0 and yields nothing for a negative step.
- Chunker.ChunkText: requires overlap < chunk_size, as the line above says.
- Chunker.PackParagraphsAppendOnly: requires overlap < chunk_size, as the line above says, because PackParagraphs does.
- Chunker.SplitLongParagraph: requires overlap < chunk_size, as the line above says.
- Chunker.PackParagraphLoop: requires overlap < chunk_size, as the line above says.
- Chunker.PackSentenceLoop: requires overlap < chunk_size, as the line above says.
- HybridSearch.Rrf: RRF scores are exact rationals, where the source sums floating-point values. Two scores that are equal or near-equal in floating point may therefore be ordered differently.
- ParseYaml.FlattenMatchesLeaves: states only that each line ends with its leaf. The key text is stated per entry and per item by ParseYaml.EntryLine and ParseYaml.ItemLine.
- ApiServer.Iterate: the model's JSON object is a map, so the insertion order of its keys is a parameter (`keyOrder`). The model does not promise that this order lists each key once.
- SyncEngine.Engine.SyncConnector: in the model neither connector.sync nor the indexing can raise, because their file and library calls are total. So the `finally` at sync_engine.py:59-60 has no exception path of its own; on every path the model has, the guard set ends as it began. The result is tied to connector.sync's contract only for a connector that was already live, because a connector the call instantiates has no state before the call.
- HybridSearch.SortByRrfOrder: states membership and non-increasing RRF scores only. The order of ties (merge order, from the stable sort) is stated by Ranking.SortRankedOrder on the tagged list.

## Findings

| source | as written | input that shows it | evidently intended | confidence | as-written member | corrected member |
|---|---|---|---|---|---|---|
| backend/python/chunker.py:74 | `tail = text[-overlap_chars:]` with `overlap_chars == 0` takes the whole text, because `-0 == 0` | `_get_overlap("ab", 0)` gives "ab" | an overlap of 0 carries nothing into the next chunk | not executed | Chunker.OverlapZeroKeepsText | Chunker.Overlap |
| backend/python/bm25_search.py:46-51 | the document-frequency loop runs once per query token, so a repeated query token counts each document more than once | query "cat cat" over the single document "cat" gives df 2 with N = 1, so the ratio (N - df + 0.5) / (df + 0.5) is negative and the IDF log(0.8) is negative, while the intended df of 1 gives a positive IDF | df counts each document once per distinct term (df <= N) | not executed | Bm25Search.RepeatedQueryTermExceedsN | Bm25Search.DocFreq |
