/**
  Cluster retrieval, filtering and answer drafting
  (summary/summarise_answer.py).

  The three language-model calls are parameters: `retrieve` is the cluster
  ids of the reranked nodes, `select` is the list of cluster ids parsed from
  the filter model's JSON reply, and `complete` is the drafting model's
  answer to a prompt built from the query and the citation blocks.
*/
module Summarise {
  import opened Records
  import opened Seqs

  /** The answer when there is nothing to draft from. */
  const NoRelevantArticles: string := "No relevant articles found."

  /** Article text beyond this many characters is cut from the prompt. */
  const SnippetLimit: nat := 1200

  // ---------------------------------------------------------------------
  // retrieve_top_k_clusters
  // ---------------------------------------------------------------------

  /**
    The clusters the reranked cids name, in reranked order, one per cid the
    clusters know (`cid_to_cluster[cid]` for every known cid).
  */
  function Reranked(clusters: seq<Cluster>, reranked: seq<int>): (r: seq<Cluster>)
    ensures forall i :: 0 <= i < |r| ==> r[i] in clusters
  {
    Lookup(IndexBy(clusters, CidOf), reranked)
  }

  /**
    The full order before truncation: the reranked clusters, then, when they
    are fewer than the clusters, every cluster whose cid they do not cover,
    in input order.
  */
  function TopKOrder(clusters: seq<Cluster>, reranked: seq<int>): (r: seq<Cluster>)
    ensures forall i :: 0 <= i < |r| ==> r[i] in clusters
  {
    var ordered := Reranked(clusters, reranked);
    if |ordered| < |clusters| then ordered + Select(clusters, CidOf, Keys(ordered, CidOf), false)
    else ordered
  }

  /** `ordered[:k]`: at most `k` clusters of the full order. */
  function TopK(clusters: seq<Cluster>, reranked: seq<int>, k: nat): (r: seq<Cluster>)
    ensures |r| == Min(k, |TopKOrder(clusters, reranked)|)
    ensures r == TopKOrder(clusters, reranked)[..|r|]
  {
    var order := TopKOrder(clusters, reranked);
    order[..Min(k, |order|)]
  }

  /**
    `retrieve_top_k_clusters`: asks the reranker for the `min(k, n)` most
    relevant of the `n` clusters, maps its cids back to clusters, completes
    the list with the clusters it left out and keeps the first `k`.
  */
  method RetrieveTopKClusters(query: string, clusters: seq<Cluster>, k: nat,
                              retrieve: (string, seq<Cluster>, nat) -> seq<int>)
    returns (top: seq<Cluster>)
    ensures top == TopK(clusters, retrieve(query, clusters, Min(k, |clusters|)), k)
    ensures |top| <= k
    ensures forall i :: 0 <= i < |top| ==> top[i] in clusters
  {
    var reranked := retrieve(query, clusters, Min(k, |clusters|));
    var cidToCluster := IndexBy(clusters, CidOf);
    var ordered: seq<Cluster> := [];
    for n := 0 to |reranked|
      invariant ordered == Lookup(cidToCluster, reranked[..n])
    {
      var cid := reranked[n];
      assert reranked[..n + 1] == reranked[..n] + [cid];
      LookupSnoc(cidToCluster, reranked[..n], cid);
      if cid in cidToCluster {
        ordered := ordered + [cidToCluster[cid]];
      }
    }
    assert reranked[..|reranked|] == reranked;
    if |ordered| < |clusters| {
      var remaining := Select(clusters, CidOf, Keys(ordered, CidOf), false);
      ordered := ordered + remaining;
    }
    top := ordered[..Min(k, |ordered|)];
  }

  /**
    The reranked part keeps the reranker's order: its cids are the reranked
    cids the clusters know, in reranked order.
  */
  lemma RerankedFollowsReranker(clusters: seq<Cluster>, reranked: seq<int>)
    ensures KeySeq(Reranked(clusters, reranked), CidOf) == Select(reranked, Id, Keys(clusters, CidOf), true)
  {
    LookupKeySeq(IndexBy(clusters, CidOf), reranked, CidOf);
  }

  /** Reranked clusters, then the uncovered ones: no cluster twice. */
  lemma RerankedThenRemainingNoDups(clusters: seq<Cluster>, reranked: seq<int>)
    requires DistinctKeys(clusters, CidOf)
    requires NoDups(reranked)
    ensures NoDups(Reranked(clusters, reranked) +
                   Select(clusters, CidOf, Keys(Reranked(clusters, reranked), CidOf), false))
  {
    var ordered := Reranked(clusters, reranked);
    var keys := Keys(ordered, CidOf);
    var remaining := Select(clusters, CidOf, keys, false);
    var all := ordered + remaining;
    LookupDistinct(IndexBy(clusters, CidOf), reranked, CidOf);
    SelectDistinct(clusters, CidOf, keys, false);
    forall i, j | 0 <= i < j < |all| ensures all[i] != all[j] {
      if j < |ordered| {
        assert CidOf(ordered[i]) != CidOf(ordered[j]);
      } else if i >= |ordered| {
        assert CidOf(remaining[i - |ordered|]) != CidOf(remaining[j - |ordered|]);
      } else {
        assert ordered[i] in ordered;
        assert CidOf(all[i]) in keys;
        assert CidOf(remaining[j - |ordered|]) !in keys;
      }
    }
  }

  /** Reranked clusters, then the uncovered ones: every cluster once more. */
  lemma RerankedThenRemainingCovers(clusters: seq<Cluster>, reranked: seq<int>)
    requires DistinctKeys(clusters, CidOf)
    ensures forall x :: x in clusters ==>
      x in Reranked(clusters, reranked) + Select(clusters, CidOf, Keys(Reranked(clusters, reranked), CidOf), false)
  {
    var ordered := Reranked(clusters, reranked);
    var keys := Keys(ordered, CidOf);
    SelectComplete(clusters, CidOf, keys, false);
    forall x | x in clusters && CidOf(x) in keys ensures x in ordered {
      var y :| y in ordered && CidOf(y) == CidOf(x);
      var i :| 0 <= i < |clusters| && clusters[i] == x;
      var j :| 0 <= j < |clusters| && clusters[j] == y;
      assert i == j;
    }
  }

  /**
    With distinct cluster ids and a reranker that names each node once, the
    full order is the reranked clusters followed by all the others in input
    order, and it is a permutation of the clusters: none lost, none repeated.
  */
  lemma TopKOrderPermutation(clusters: seq<Cluster>, reranked: seq<int>)
    requires DistinctKeys(clusters, CidOf)
    requires NoDups(reranked)
    ensures TopKOrder(clusters, reranked) ==
      Reranked(clusters, reranked) + Select(clusters, CidOf, Keys(Reranked(clusters, reranked), CidOf), false)
    ensures multiset(TopKOrder(clusters, reranked)) == multiset(clusters)
  {
    var ordered := Reranked(clusters, reranked);
    var remaining := Select(clusters, CidOf, Keys(ordered, CidOf), false);
    var all := ordered + remaining;
    RerankedThenRemainingNoDups(clusters, reranked);
    RerankedThenRemainingCovers(clusters, reranked);
    assert forall i :: 0 <= i < |all| ==> all[i] in clusters;
    DistinctKeysNoDups(clusters, CidOf);
    SameElementsPermutation(all, clusters);
    if |ordered| >= |clusters| {
      assert remaining == [];
      assert all == ordered;
    }
  }

  /** Under the same conditions exactly `min(k, n)` clusters come back. */
  lemma TopKLength(clusters: seq<Cluster>, reranked: seq<int>, k: nat)
    requires DistinctKeys(clusters, CidOf)
    requires NoDups(reranked)
    ensures |TopK(clusters, reranked, k)| == Min(k, |clusters|)
  {
    TopKOrderPermutation(clusters, reranked);
    assert |multiset(TopKOrder(clusters, reranked))| == |multiset(clusters)|;
  }

  /**
    When the reranker returns as many cids as there are clusters and names
    one of them twice (a summary split into two nodes), the mapped list is
    already as long as the cluster list, so the completion step is skipped:
    one cluster comes back twice and another is lost.
  */
  lemma RepeatedCidLosesCluster()
    ensures
      var a := Cluster(1, "rates", [], [], None);
      var b := Cluster(2, "oil", [], [], None);
      TopKOrder([a, b], [1, 1]) == [a, a] && b !in TopK([a, b], [1, 1], 2)
  {
    var a := Cluster(1, "rates", [], [], None);
    var b := Cluster(2, "oil", [], [], None);
    var m := IndexBy([a, b], CidOf);
    assert [a, b][..1] == [a];
    assert [a][..0] == [];
    assert IndexBy([a], CidOf) == map[1 := a] by {
      assert [a][..0] == [];
    }
    assert m == map[1 := a, 2 := b];
    assert [1, 1][..1] == [1];
    assert [1][..0] == [];
    assert Lookup(m, [1, 1]) == [a, a];
  }

  // ---------------------------------------------------------------------
  // llm_filter_clusters
  // ---------------------------------------------------------------------

  /** `llm_filter_clusters`: the candidates, in order, whose cid was selected. */
  function FilterClusters(candidates: seq<Cluster>, selected: seq<int>): (r: seq<Cluster>)
    ensures |r| <= |candidates|
    ensures forall i :: 0 <= i < |r| ==> r[i] in candidates && r[i].cid in selected
  {
    Select(candidates, CidOf, set x | x in selected, true)
  }

  /**
    A candidate is kept exactly when its cid was selected, every copy of a
    kept candidate is kept, and the kept candidates keep their relative order.
  */
  lemma FilterClustersExact(candidates: seq<Cluster>, selected: seq<int>)
    ensures forall c :: c in FilterClusters(candidates, selected) <==> c in candidates && c.cid in selected
    ensures forall c ::
              multiset(FilterClusters(candidates, selected))[c] == (if c.cid in selected then multiset(candidates)[c] else 0)
    ensures Subsequence(FilterClusters(candidates, selected), candidates)
  {
    var ids := set x | x in selected;
    SelectComplete(candidates, CidOf, ids, true);
    SelectSubsequence(candidates, CidOf, ids, true);
    forall c ensures multiset(FilterClusters(candidates, selected))[c] ==
      (if c.cid in selected then multiset(candidates)[c] else 0)
    {
      SelectMultiplicity(candidates, CidOf, ids, true, c);
    }
  }

  /** Selected ids that name no candidate make no difference. */
  lemma FilterIgnoresUnknownIds(candidates: seq<Cluster>, selected: seq<int>, unknown: int)
    requires unknown !in Keys(candidates, CidOf)
    ensures FilterClusters(candidates, selected + [unknown]) == FilterClusters(candidates, selected)
  {
    var s1 := set x | x in selected + [unknown];
    var s0 := set x | x in selected;
    SelectRelevantKeys(candidates, CidOf, s1, true);
    SelectRelevantKeys(candidates, CidOf, s0, true);
    assert s1 * Keys(candidates, CidOf) == s0 * Keys(candidates, CidOf);
  }

  /** Selecting an id twice keeps its cluster once: the filter never duplicates a candidate. */
  lemma FilterIgnoresRepeatedIds(candidates: seq<Cluster>, selected: seq<int>, repeated: int)
    requires repeated in selected
    ensures FilterClusters(candidates, selected + [repeated]) == FilterClusters(candidates, selected)
  {
    assert (set x | x in selected + [repeated]) == (set x | x in selected);
  }

  // ---------------------------------------------------------------------
  // draft_answer
  // ---------------------------------------------------------------------

  /**
    One citation block of the drafting prompt: `[CID x] Summary: ...` for a
    cluster without articles, `[CID x/Ay] Title: ... URL: ... Content: ...`
    for the `y`-th article (counted from 1) of cluster `x`.
  */
  datatype Block =
    | SummaryBlock(cid: int, summary: string)
    | ArticleBlock(cid: int, ordinal: nat, title: string, url: string, content: string)

  /** How an f-string renders a value that may be `None`. */
  function Rendered(s: Option<string>): (r: string)
    ensures s.Some? ==> r == s.value
    ensures s.None? ==> r == "None"
  {
    match s
    case Some(v) => v
    case None => "None"
  }

  /** `text[:1200]`: the text, cut to at most `SnippetLimit` characters. */
  function Snippet(text: string): (r: string)
    ensures |r| <= SnippetLimit
    ensures |r| == Min(|text|, SnippetLimit)
    ensures r == text[..|r|]
  {
    if |text| <= SnippetLimit then text else text[..SnippetLimit]
  }

  /** The block for one article; articles carry no "content" key, so the snippet is cut from "text". */
  function ArticleBlockOf(cid: int, ordinal: nat, a: ArticleData): Block {
    ArticleBlock(cid, ordinal, Rendered(a.title), Rendered(a.url), Snippet(a.text.GetOr("")))
  }

  /** The blocks of a cluster's articles, numbered from 1 in article order. */
  function ArticleBlocks(cid: int, arts: seq<ArticleData>): (r: seq<Block>)
    ensures |r| == |arts|
  {
    if arts == [] then []
    else ArticleBlocks(cid, arts[..|arts| - 1]) + [ArticleBlockOf(cid, |arts|, arts[|arts| - 1])]
  }

  /** The blocks of one cluster: its articles', or its summary when it has none. */
  function ClusterBlocks(c: Cluster): (r: seq<Block>)
    ensures |r| == if c.articles == [] then 1 else |c.articles|
    ensures c.articles == [] ==> r == [SummaryBlock(c.cid, c.summary)]
    ensures c.articles != [] ==> r == ArticleBlocks(c.cid, c.articles)
  {
    if c.articles == [] then [SummaryBlock(c.cid, c.summary)] else ArticleBlocks(c.cid, c.articles)
  }

  /** The number of citation blocks: one per article, and one per cluster without articles. */
  function CitationCount(cs: seq<Cluster>): (n: nat)
    ensures n >= |cs|
  {
    if cs == [] then 0
    else CitationCount(cs[..|cs| - 1]) + (if cs[|cs| - 1].articles == [] then 1 else |cs[|cs| - 1].articles|)
  }

  /** The blocks of all clusters, cluster by cluster. */
  function Blocks(cs: seq<Cluster>): (r: seq<Block>)
    ensures |r| == CitationCount(cs)
  {
    if cs == [] then [] else Blocks(cs[..|cs| - 1]) + ClusterBlocks(cs[|cs| - 1])
  }

  /**
    The `j`-th article block (from 0) cites article `j + 1` of the cluster,
    and its content is the article's text cut to `SnippetLimit` characters.
  */
  lemma {:induction false} ArticleBlocksNumbered(cid: int, arts: seq<ArticleData>)
    ensures forall j :: 0 <= j < |arts| ==>
      var b := ArticleBlocks(cid, arts)[j];
      && b.ArticleBlock? && b.cid == cid && b.ordinal == j + 1
      && b.title == Rendered(arts[j].title) && b.url == Rendered(arts[j].url)
      && b.content == Snippet(arts[j].text.GetOr("")) && |b.content| <= SnippetLimit
    decreases |arts|
  {
    if arts != [] {
      var p := arts[..|arts| - 1];
      ArticleBlocksNumbered(cid, p);
      forall j | 0 <= j < |p| ensures ArticleBlocks(cid, arts)[j] == ArticleBlocks(cid, p)[j] {
      }
    }
  }

  /** One more cluster adds its own blocks at the end. */
  lemma BlocksSnoc(cs: seq<Cluster>, c: Cluster)
    ensures Blocks(cs + [c]) == Blocks(cs) + ClusterBlocks(c)
  {
    assert (cs + [c])[..|cs|] == cs;
  }

  /** The blocks of two lists of clusters are the blocks of each, in turn. */
  lemma {:induction false} BlocksAppend(a: seq<Cluster>, b: seq<Cluster>)
    ensures Blocks(a + b) == Blocks(a) + Blocks(b)
    decreases |b|
  {
    if b == [] {
      assert a + b == a;
    } else {
      var q := b[..|b| - 1];
      var c := b[|b| - 1];
      assert q + [c] == b;
      assert (a + q) + [c] == a + b;
      BlocksAppend(a, q);
      BlocksSnoc(a + q, c);
      BlocksSnoc(q, c);
      var first, middle, last := Blocks(a), Blocks(q), ClusterBlocks(c);
      assert Blocks(a + b) == (first + middle) + last;
      assert Blocks(b) == middle + last;
      ConcatAssoc(first, middle, last);
    }
  }

  /**
    Each block cites a cluster of the list, and no article content in the
    prompt is longer than `SnippetLimit` characters.
  */
  lemma {:induction false} BlocksCiteTheirClusters(cs: seq<Cluster>)
    ensures forall i :: 0 <= i < |Blocks(cs)| ==> Blocks(cs)[i].cid in Keys(cs, CidOf)
    ensures forall i :: 0 <= i < |Blocks(cs)| && Blocks(cs)[i].ArticleBlock? ==>
      |Blocks(cs)[i].content| <= SnippetLimit
    decreases |cs|
  {
    if cs != [] {
      var p := cs[..|cs| - 1];
      var c := cs[|cs| - 1];
      BlocksCiteTheirClusters(p);
      assert cs == p + [c];
      KeysAppend(p, [c], CidOf);
      ArticleBlocksNumbered(c.cid, c.articles);
      var r := Blocks(cs);
      forall i | 0 <= i < |r|
        ensures r[i].cid in Keys(cs, CidOf)
        ensures r[i].ArticleBlock? ==> |r[i].content| <= SnippetLimit
      {
        if i < |Blocks(p)| {
          assert r[i] == Blocks(p)[i];
        } else {
          var k := i - |Blocks(p)|;
          assert r[i] == ClusterBlocks(c)[k];
          assert ClusterBlocks(c)[k].cid == c.cid;
          assert c in cs;
          assert CidOf(c) in Keys(cs, CidOf);
        }
      }
    }
  }

  /** The inner loop of `draft_answer`: one block per article, numbered from 1. */
  method ArticleCitations(cid: int, articles: seq<ArticleData>) returns (blocks: seq<Block>)
    ensures blocks == ArticleBlocks(cid, articles)
  {
    blocks := [];
    for idx := 0 to |articles|
      invariant blocks == ArticleBlocks(cid, articles[..idx])
    {
      var art := articles[idx];
      assert articles[..idx + 1] == articles[..idx] + [art];
      blocks := blocks + [ArticleBlock(cid, idx + 1, Rendered(art.title), Rendered(art.url),
                                       Snippet(art.text.GetOr("")))];
    }
    assert articles[..|articles|] == articles;
  }

  /** The outer loop of `draft_answer`: the citation blocks, cluster by cluster. */
  method CitationBlocks(filtered: seq<Cluster>) returns (blocks: seq<Block>)
    ensures blocks == Blocks(filtered)
  {
    blocks := [];
    for i := 0 to |filtered|
      invariant blocks == Blocks(filtered[..i])
    {
      var c := filtered[i];
      assert filtered[..i + 1] == filtered[..i] + [c];
      var citations;
      if c.articles == [] {
        citations := [SummaryBlock(c.cid, c.summary)];
      } else {
        citations := ArticleCitations(c.cid, c.articles);
      }
      BlocksSnoc(filtered[..i], c);
      blocks := blocks + citations;
    }
    assert filtered[..|filtered|] == filtered;
  }

  /**
    What `draft_answer` returns: the fixed sentence when no cluster survived
    the filter, otherwise the model's answer to the prompt built from the
    citation blocks. The model is not called in the first case.
  */
  function AnswerFor(query: string, filtered: seq<Cluster>, complete: (string, seq<Block>) -> string): (r: string)
    ensures filtered == [] ==> r == NoRelevantArticles
    ensures filtered != [] ==> r == complete(query, Blocks(filtered))
  {
    if filtered == [] then NoRelevantArticles else complete(query, Blocks(filtered))
  }

  /** The loops of `draft_answer` build the citation blocks `AnswerFor` drafts from. */
  method DraftAnswer(query: string, filtered: seq<Cluster>, complete: (string, seq<Block>) -> string)
    returns (answer: string)
    ensures answer == AnswerFor(query, filtered, complete)
  {
    if filtered == [] {
      return NoRelevantArticles;
    }
    var blocks := CitationBlocks(filtered);
    answer := complete(query, blocks);
  }
}
