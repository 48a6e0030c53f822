# News agent pipeline, modelled in Dafny

This project models the deterministic core of a news-answering agent. The agent:

- fetches articles about a topic from four news providers;
- deduplicates them by URL and enriches them with full text, embeddings and topics;
- builds a similarity graph and clusters the articles into stories;
- ranks the clusters against the topic and drafts a cited answer from the most relevant ones;
- redrafts the answer once more when the caller gave a follow-up query.

The run is a fixed graph of seven stage nodes over one shared, mutable state.

Modules:

- `Seqs` (`seqs.dfy`): list helpers used by the other modules.
  - Keeping the first element for each key is `FirstByKey`.
  - The order-preserving filter on a key set is `Select`.
  - Building a dictionary from a list, where a later element overwrites an earlier one, is `IndexBy`.
  - Reading a list of keys out of a dictionary is `Lookup`.
  - The module holds their lemmas: distinct keys, first occurrences, identity, idempotence, append laws and permutation.
- `Records` (`records.dfy`): the article record and the cluster value.
  - An article is a class. The pipeline adds fields to the provider's record in place, and the same record is shared by the raw and the deduplicated list.
  - A cluster is a value holding `ArticleData` snapshots of its articles.
- `DataPrep` (`data_prep.dfy`) models `graph/data_prep.py`. Lines 6-41 of `graph/kgraph.py` are the same `get_full_texts` and `scrape_url`, line for line, so each row citing one of the two files holds for the other at the same lines. It covers the URL deduplication loop, the `full_text` annotation of the kept records, the 300-character scrape threshold, and the in-place embedding and topic loops.
- `Summarise` (`summarise.dfy`) models `summary/summarise_answer.py`:
  - the post-rerank ordering, completion and truncation of `retrieve_top_k_clusters`;
  - the cid filter of `llm_filter_clusters`;
  - the citation blocks and the "No relevant articles found." sentinel of `draft_answer`.
- `Workflow` (`workflow.dfy`) models `agent/workflow.py`:
  - the `AgentState` class with one method per node;
  - the edges of `build_graph` as a transition function `Next` and the node sequence `Trace` it yields;
  - `RunOnce`, which runs the nodes on a fresh state.

Every service listed here is a parameter of the operation that calls it, given as the value the service yields for its inputs: the news providers, the newspaper extractor, the embedding service, the topic extractor, the similarity edges, community detection, the two rerankers and the two language-model calls. Two of them can raise where the source catches the exception, and they yield an `Outcome` (`Returned(v)` or `Raised`): the news providers (`Services.fetch`) and the reranker of `rank_clusters` (`Services.rerank`). The newspaper extractor yields an `Extraction` (the text, or a failed download or parse). The others are plain functions.

Behaviour of the code worth knowing:

- A record whose `url` is `None` is not dropped by deduplication. `None` counts as one more URL value, and the first such record is kept (`Deduplicated`). A record without a `url` key would make `article["url"]` raise `KeyError` (graph/data_prep.py:18); no provider writes such a record.
- `rank_clusters` maps reranked summaries back to clusters by summary text, not by cluster id. Clusters sharing a summary are still never dropped: the completion loop appends them. Their order changes, though, and `SharedSummaryRanksLaterClusterFirst` shows how.
- The refine edge is taken whenever the follow-up query is non-empty, even if it equals the topic (`ShouldRefine`).
- `llm_filter_clusters` has no fallback for a malformed model reply. The model takes the already parsed id list.

## Model

| member | source | states |
|---|---|---|
| DataPrep.ScrapeUrl | graph/data_prep.py:29-41 | the text comes back exactly when extraction succeeded and the text has at least 300 characters; otherwise `None` |
| DataPrep.Deduplicated | graph/data_prep.py:8-14 | the kept records have pairwise distinct URLs, every input URL is represented, the output is no longer than the input, and every kept record is an input record |
| DataPrep.DedupByUrl | graph/data_prep.py:8-14 | the seen-set loop returns exactly the first record for each URL, in input order |
| DataPrep.GetFullTexts | graph/data_prep.py:6-27 | returns the deduplicated list; every kept record gets `full_text` set to its scrape result (`None` on failure); dropped duplicates keep their old `full_text`; no other field is written |
| DataPrep.DedupKeepsFirstOccurrences | graph/kgraph.py:10-14 | each kept record is the first input record with its URL, and kept records appear in the order of those first occurrences |
| DataPrep.DedupIdentityOnDistinct | graph/kgraph.py:8-14 | on input with distinct URLs, deduplication returns the input unchanged |
| DataPrep.DedupIdempotent | graph/data_prep.py:8-14 | deduplicating twice equals deduplicating once |
| DataPrep.EmbeddingInput | graph/data_prep.py:49 | the embedded text is `full_text` when it is non-empty, else the empty string |
| DataPrep.GetEmbeddings | graph/data_prep.py:47-60 | every article of the list gets the embedding of its text; only `embedding` is written |
| DataPrep.GetTopics | graph/data_prep.py:62-68 | every article of the list gets the topics extracted from its `full_text`; only `topics` is written |
| Summarise.Reranked | summary/summarise_answer.py:31-36 | the clusters the reranked cids name are all input clusters |
| Summarise.TopKOrder | summary/summarise_answer.py:39-41 | the order before truncation holds only input clusters |
| Summarise.TopK | summary/summarise_answer.py:43 | the result has `min(k, length of the order)` clusters and is a prefix of the order |
| Summarise.RetrieveTopKClusters | summary/summarise_answer.py:11-43 | the loop and completion yield `TopK` of the reranker's cids; at most `k` clusters, each an input cluster; the reranker is asked for `min(k, n)` |
| Summarise.RerankedFollowsReranker | summary/summarise_answer.py:33-36 | the mapped clusters' cids are the reranked cids the clusters know, in reranked order; unknown cids are skipped |
| Summarise.RerankedThenRemainingNoDups | summary/summarise_answer.py:39-41 | with distinct cids and a duplicate-free reranker, the reranked clusters followed by the appended ones contain no cluster twice |
| Summarise.RerankedThenRemainingCovers | summary/summarise_answer.py:39-41 | with distinct cids, every input cluster is among the reranked or the appended clusters |
| Summarise.TopKOrderPermutation | summary/summarise_answer.py:31-43 | under the same conditions the order is the reranked clusters followed by the rest in input order, and it is a permutation of the input |
| Summarise.TopKLength | summary/summarise_answer.py:39-43 | under the same conditions exactly `min(k, n)` clusters come back |
| Summarise.RepeatedCidLosesCluster | summary/summarise_answer.py:33-43 | when the reranker returns as many cids as there are clusters and names one twice, the mapped list is already long enough, so the completion step is skipped: one cluster comes back twice and another is lost |
| Summarise.FilterClusters | summary/summarise_answer.py:76 | the filter keeps only candidates whose cid was selected and is no longer than the candidates |
| Summarise.FilterClustersExact | summary/summarise_answer.py:76 | a candidate is kept if and only if its cid was selected; each selected candidate appears as often as in the candidates and each other one not at all; the result is an ordered subsequence of the candidates |
| Summarise.FilterIgnoresUnknownIds | summary/summarise_answer.py:76 | selecting an id that names no candidate changes nothing |
| Summarise.FilterIgnoresRepeatedIds | summary/summarise_answer.py:76 | selecting an id again does not duplicate its cluster |
| Summarise.Rendered | summary/summarise_answer.py:100 | a `None` title or URL renders as the text `None` |
| Summarise.Snippet | summary/summarise_answer.py:98 | the snippet is the first `min(n, 1200)` characters of the text |
| Summarise.ArticleBlocks | summary/summarise_answer.py:95-101 | one block per article |
| Summarise.ClusterBlocks | summary/summarise_answer.py:89-101 | a cluster without articles gives exactly its summary block, otherwise exactly its article blocks, one per article |
| Summarise.ArticleBlocksNumbered | summary/summarise_answer.py:95-101 | the `j`-th article block is tagged with the cluster's cid and article number `j + 1`; it carries the article's title and URL and its text cut to at most 1200 characters |
| Summarise.CitationCount | summary/summarise_answer.py:86-101 | the number of citation lines is at least the number of clusters |
| Summarise.Blocks | summary/summarise_answer.py:86-101 | the citation lines number exactly `CitationCount` of the clusters, the sum over clusters of `max(1, number of articles)`, so at least one per cluster |
| Summarise.BlocksAppend | summary/summarise_answer.py:86-101 | the blocks of two cluster lists are the blocks of each, in turn |
| Summarise.BlocksCiteTheirClusters | summary/summarise_answer.py:86-101 | every block cites a cluster of the list, and no article content exceeds 1200 characters |
| Summarise.ArticleCitations | summary/summarise_answer.py:95-101 | the `enumerate` loop builds exactly the article blocks, numbered from 1 |
| Summarise.CitationBlocks | summary/summarise_answer.py:86-101 | the nested loops build exactly the citation blocks, cluster by cluster |
| Summarise.AnswerFor | summary/summarise_answer.py:83-120 | the sentinel for no clusters, else the model's answer to their citation blocks |
| Summarise.DraftAnswer | summary/summarise_answer.py:79-120 | the loops and the model call yield `AnswerFor`: the sentinel for no clusters, without calling the model, otherwise the model's answer to the citation blocks |
| Workflow.Collected | agent/workflow.py:51-58 | when every provider raises nothing is collected; every collected article comes from a provider that returned |
| Workflow.CollectedAppend | agent/workflow.py:51-58 | collecting from two provider lists concatenates their articles, in provider order |
| Workflow.FailingProviderSkipped | agent/workflow.py:52-56 | a provider that raises contributes nothing and does not stop the providers after it |
| Workflow.CollectedBound | agent/workflow.py:54 | providers honouring `max_items=10` yield at most ten articles each, so a list of providers yields at most ten per provider in all |
| Workflow.ArticleText | agent/workflow.py:74 | the text is `full_text` if non-empty, else `body` if non-empty, else the empty string |
| Workflow.AlignArticles | agent/workflow.py:72-76 | every article gets that text and its topics (or `[]`) as keywords |
| Workflow.ArticlesAt | agent/workflow.py:110 | a cluster's articles are exactly the articles at its ids, in id order |
| Workflow.ClusterOf | agent/workflow.py:106-113 | the cluster keeps the entry's cid, its summary (`""` when missing), its keywords (`[]` when missing) and its summary embedding; its articles are exactly the articles at the entry's ids (none when missing), one per id |
| Workflow.ClustersOf | agent/workflow.py:104-114 | one cluster per community entry |
| Workflow.ClustersOfPointwise | agent/workflow.py:104-114 | the `i`-th cluster is built from the `i`-th entry |
| Workflow.ClustersKeepCids | agent/workflow.py:105-108 | the clusters carry the entries' cids in order, so distinct entry ids give distinct cluster ids |
| Workflow.RankOrder | agent/workflow.py:128-144 | the ranking holds every cluster and only clusters, none twice |
| Workflow.RerankedOrder | agent/workflow.py:130-142 | the two ranking loops compute `RankOrder`: the named clusters, then all clusters, each kept on its first appearance |
| Workflow.NamedClusters | agent/workflow.py:133-137 | the first loop keeps each cluster the reranked summaries name once, in the order first named |
| Workflow.AppendMissing | agent/workflow.py:139-142 | the second loop appends every cluster not yet ranked, in input order |
| Workflow.RankOrderPermutation | agent/workflow.py:128-144 | with pairwise distinct clusters, the ranking is the named clusters followed by the rest in input order, has no duplicates, and is a permutation of the clusters |
| Workflow.SharedSummaryRanksLaterClusterFirst | agent/workflow.py:131-137 | of two clusters with one summary, the summary dictionary keeps the later one, so the later cluster is ranked first; the earlier one is appended and not lost |
| Workflow.Candidates | agent/workflow.py:153 | the ranked clusters when there are any, otherwise the clusters; empty exactly when both are |
| Workflow.DraftSelection | agent/workflow.py:160-163 | drafting uses at most 8 clusters, each one of the candidates |
| Workflow.AgentState.constructor | agent/workflow.py:220 | a run starts from the topic and follow-up query, with every other field empty |
| Workflow.AgentState.FetchArticles | agent/workflow.py:42-59 | the raw articles are the concatenation, in provider order, of the lists of the providers that returned |
| Workflow.AgentState.EnrichArticles | agent/workflow.py:62-79 | the enriched articles are the deduplicated raw articles; each has its full text, embedding, topics, prompt text and keywords; dropped duplicates are untouched; an empty input gives an empty list |
| Workflow.AgentState.Gather | agent/workflow.py:203-204 | the first two nodes leave the collected articles and their deduplication in the state, and every kept article carries its full text, embedding, topics, prompt text and keywords |
| Workflow.AgentState.BuildSimilarityGraph | agent/workflow.py:82-91 | no graph without articles; otherwise a graph with one node per enriched article (`num_articles=len(arts)`) and the similarity edges of their data |
| Workflow.AgentState.ClusterAndSummarize | agent/workflow.py:94-117 | no clusters without a graph or articles; otherwise one cluster per community entry; the clusters have distinct cids |
| Workflow.AgentState.RankClusters | agent/workflow.py:120-149 | no ranking without clusters; the clusters unchanged when the reranker raises; otherwise `RankOrder` of the reranked summaries |
| Workflow.AgentState.Analyse | agent/workflow.py:205-207 | without enriched articles there is no graph and no cluster; with clusters, the ranking is the clusters when the reranker raises and `RankOrder` of its reply otherwise; the clusters have distinct cids and the ranking is a permutation of them |
| Workflow.AgentState.DraftResponse | agent/workflow.py:152-166 | the sentinel when there are no candidates; otherwise the answer drafted from the filtered top `min(8, n)` candidates |
| Workflow.AgentState.RefineResponse | agent/workflow.py:169-179 | nothing changes without a non-empty follow-up query; otherwise the answer is redrafted for it from all candidates and the query is cleared, so the conditional edge then routes to the end |
| Workflow.Position | agent/workflow.py:195-201 | a node's position is its index in the order the seven nodes are added, so distinct nodes have distinct positions |
| Workflow.NodesInOrder | agent/workflow.py:195-201 | each of the seven nodes is added exactly once; the node added `i`-th has position `i`; equal positions mean equal nodes |
| Workflow.ShouldRefine | agent/workflow.py:185-186 | the refine node if and only if the follow-up query is non-empty, otherwise the end |
| Workflow.Next | agent/workflow.py:203-210 | every edge leads to a later node; a run ends exactly after refining, or after drafting without a follow-up query |
| Workflow.Trace | agent/workflow.py:203-210 | a run from a node starts at that node |
| Workflow.TraceFromEntry | agent/workflow.py:203-210 | from the entry point, the six nodes in order, then the refine node exactly when a follow-up query is set |
| Workflow.TraceAscends | agent/workflow.py:203-210 | nodes are visited in strictly increasing position, so no node runs twice |
| Workflow.TraceLength | agent/workflow.py:203-210 | a run executes at most 7 nodes |
| Workflow.AgentState.Respond | agent/workflow.py:208-210 | the drafting node, then the refine node exactly when the follow-up query is non-empty; the answer is the draft, or the redraft for the follow-up query, and the query ends cleared |
| Workflow.RunToRanking | agent/workflow.py:203-207 | a fresh state after the first five nodes: the collected and deduplicated articles; no cluster and no ranking when nothing was collected; clusters with distinct cids and a ranking that permutes them |
| Workflow.RunOnce | agent/workflow.py:215-221 | the run follows `TraceFromEntry`; it ends with the collected and deduplicated articles, clusters with distinct cids, a ranking that permutes them, no cluster and the sentinel answer when nothing was collected, the draft or redraft as the answer, and a cleared follow-up query |

## Left out

- The provider clients, the newspaper download, the OpenAI embedding and chat calls, the LlamaIndex reranker and node parser, and the topic extractor are not modelled. Each is a function parameter, and no network access, I/O or nondeterminism is modelled.
- `extract_topics` is neither defined nor imported in `graph/data_prep.py`. The model takes it as a parameter, so it does not capture the `NameError` the code raises on any non-empty list.
- The embeddings call (graph/data_prep.py:52), the `LLMRerank` call in `retrieve_top_k_clusters` (summary/summarise_answer.py:29) and both chat completions (summary/summarise_answer.py:66 and :116) sit in no `try`. An exception there aborts the run. The model makes each one a total function and does not capture the abort.
- Workflow.CollectedBound: as written, three of the four providers always raise and are skipped. `fetch_news_data` calls `NewsDataApiClient` (news_api/api_calls.py:42), but line 2 imports `NewsDataAPIClient`, so it raises `NameError`. `fetch_finflight` calls `ApiConfig` (line 65), which is neither defined nor imported, so it also raises `NameError`. `fetch_the_news_api` iterates the raw response bytes (lines 111-113), so it raises `AttributeError` on any non-empty reply. Only Event Registry can return articles. Once its import is fixed, `fetch_finflight` would also ignore `max_items` (lines 70-73), and the lemma's hypothesis would fail for it. The model takes the providers' outcomes as a parameter, so it covers each of these cases without naming it.
- Workflow.AgentState.Analyse: it restates the empty case and the ranking of the three nodes it runs, not the graph and cluster values. `BuildSimilarityGraph` and `ClusterAndSummarize` state those, one node each.
- Workflow.AgentState.Gather: it does not restate that dropped duplicates keep their fields. `EnrichArticles` states that.
- `json.loads` failures in `get_topics` and `llm_filter_clusters` are not modelled. The model takes the parsed list.
- The prompt text is not modelled. Each citation line of the drafting prompt is a `Block` value, and the model's answer is a function of the query and the blocks. The prompt of `llm_filter_clusters` only feeds the model, so it is not modelled at all.
- `sim_matrix` and the similarity computation are not modelled: they work in floating point. The edges are a function parameter, and the graph is its node count and those edges.
- `graph/kgraph.py` defines only `get_full_texts` and `scrape_url`, so `kgraph.compute_similarity`, `kgraph.build_graph` and `kgraph.create_graph` (agent/workflow.py:84-86) do not exist. As written, `build_similarity_graph` raises `AttributeError` on every run, with or without articles. The model gives the intended behaviour: edges from a function parameter, and the graph only when there are articles.
- Community detection is not part of this model. `graph/graph_analysis.py` defines only `run_community` (lines 5-8, a Leiden partition). `analyze_clusters`, called at agent/workflow.py:102, is defined nowhere, so `cluster_and_summarize` as written raises `AttributeError` whenever there is a graph. The model takes the list of cluster entries from a function parameter.
  - `CommunitiesFit` requires that the entries' cids are distinct, since they come from a dictionary.
  - It also requires that their article ids index the articles; an out-of-range id would raise `IndexError`. The ids are non-negative vertex indices (`seq<nat>`). Python would also accept negative ids from `-n` to `-1` at agent/workflow.py:110, indexing from the end, which the model cannot express.
- Workflow.AgentState.ClusterAndSummarize: clusters hold snapshots of their articles' fields rather than references to the article records. No stage writes an article after clustering, so the two agree on every run.
- Workflow.AgentState.RankClusters: `cluster not in ranked` is Python equality on dicts, modelled as equality of cluster values. The same snapshot argument applies.
- Summarise.RetrieveTopKClusters: the reranker is asked for `min(k, n)` nodes, where `n` counts clusters. The source counts parser nodes, and one summary can split into several nodes. The reranked cids are otherwise arbitrary, so they may repeat. `RepeatedCidLosesCluster` shows one case: the reranker returns as many cids as there are clusters and repeats one, the completion step is skipped, and a cluster is lost. With fewer cids the completion step runs, and the `[:k]` cut can still drop a cluster.
- The defaults that no run can reach are not modelled:
  - the `"unknown"` cid and the `"Untitled"` title in `draft_answer`, because every cluster has a cid and every provider writes a title key;
  - the `content` key, which no stage writes, so the snippet always comes from `text`;
  - the `KeyError` of `article["url"]`, because every provider writes a `url` key.
- Python's `or` on the cluster list in `draft_response` and `refine_response` is modelled for lists only. The state always holds lists.
- LangGraph's `StateGraph`, `compile`, the `MemorySaver` checkpointer and `invoke` are modelled only through the edge function and `RunOnce`, which runs the nodes in the order the edges give. The `print` logging is not modelled.
