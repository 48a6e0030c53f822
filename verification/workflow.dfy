/**
  The agent workflow (agent/workflow.py): seven nodes that each update the
  shared agent state, wired into a fixed graph with one conditional edge.

  Every collaborator the nodes call (news providers, the text extractor,
  embedding and topic services, the similarity graph and community
  detection, the reranker and the language models) is a parameter: the
  value it produces for its inputs.
*/
module Workflow {
  import opened Records
  import opened Seqs
  import opened DataPrep
  import opened Summarise

  // ---------------------------------------------------------------------
  // Collaborators
  // ---------------------------------------------------------------------

  datatype Provider = EventRegistry | NewsData | Finflight | TheNewsApi

  /** The providers, in the order `fetch_articles` calls them. */
  const Providers: seq<Provider> := [EventRegistry, NewsData, Finflight, TheNewsApi]

  /** The `max_items` every provider is asked for. */
  const MaxItems: nat := 10

  /** `draft_response` reranks at most this many clusters. */
  const MaxDraftClusters: nat := 8

  /** A weighted edge between two article indices, as the similarity step emits it. */
  datatype Edge = Edge(source: nat, target: nat, weight: real)

  /** The similarity graph over the enriched articles: one node per article and the given edges. */
  datatype Graph = Graph(nodeCount: nat, edges: seq<Edge>)

  /**
    One entry of the cluster dictionary the community analysis returns,
    keyed by `cid`; a field is `None` when the entry lacks that key.
  */
  datatype ClusterEntry = ClusterEntry(
    cid: int,
    combinedSummary: Option<string>,
    articleIds: Option<seq<nat>>,
    keywords: Option<seq<string>>,
    summaryEmbedding: Option<Vector>)

  function EntryCid(e: ClusterEntry): int { e.cid }

  datatype Services = Services(
    fetch: (Provider, string, nat) -> Outcome<seq<Article>>,
    extract: Option<string> -> Extraction,
    embed: string -> Vector,
    extractTopics: Option<string> -> seq<string>,
    similarityEdges: seq<ArticleData> -> seq<Edge>,
    communities: (Graph, seq<ArticleData>) -> seq<ClusterEntry>,
    rerank: (seq<string>, string, nat) -> Outcome<seq<string>>,
    retrieve: (string, seq<Cluster>, nat) -> seq<int>,
    select: (string, seq<Cluster>) -> seq<int>,
    complete: (string, seq<Block>) -> string)

  // ---------------------------------------------------------------------
  // fetch_articles
  // ---------------------------------------------------------------------

  /** The articles the providers `ps` return, in provider order; a provider that raises adds none. */
  function Collected(ps: seq<Provider>, fetch: (Provider, string, nat) -> Outcome<seq<Article>>,
                     topic: string): (r: seq<Article>)
    ensures (forall p :: p in ps ==> fetch(p, topic, MaxItems).Raised?) ==> r == []
    ensures forall a :: a in r ==> exists p :: p in ps && fetch(p, topic, MaxItems).Returned? && a in fetch(p, topic, MaxItems).value
  {
    if ps == [] then []
    else
      var rest := Collected(ps[..|ps| - 1], fetch, topic);
      match fetch(ps[|ps| - 1], topic, MaxItems)
      case Returned(arts) => rest + arts
      case Raised => rest
  }

  /** Collecting from two lists of providers collects from each, in turn. */
  lemma {:induction false} CollectedAppend(a: seq<Provider>, b: seq<Provider>,
                                           fetch: (Provider, string, nat) -> Outcome<seq<Article>>, topic: string)
    ensures Collected(a + b, fetch, topic) == Collected(a, fetch, topic) + Collected(b, fetch, topic)
    decreases |b|
  {
    if b == [] {
      assert a + b == a;
    } else {
      var q := b[..|b| - 1];
      assert (a + b)[..|a + b| - 1] == a + q;
      assert (a + b)[|a + b| - 1] == b[|b| - 1];
      CollectedAppend(a, q, fetch, topic);
    }
  }

  /** A provider that raises changes nothing: the others' articles are kept, in order. */
  lemma FailingProviderSkipped(a: seq<Provider>, p: Provider, b: seq<Provider>,
                               fetch: (Provider, string, nat) -> Outcome<seq<Article>>, topic: string)
    requires fetch(p, topic, MaxItems).Raised?
    ensures Collected(a + [p] + b, fetch, topic) == Collected(a + b, fetch, topic)
  {
    CollectedAppend(a + [p], b, fetch, topic);
    CollectedAppend(a, [p], fetch, topic);
    CollectedAppend(a, b, fetch, topic);
    assert [p][..0] == [];
  }

  /** Providers that honour `max_items` yield at most that many articles each. */
  lemma {:induction false} CollectedBound(ps: seq<Provider>, fetch: (Provider, string, nat) -> Outcome<seq<Article>>,
                                          topic: string)
    requires forall p :: fetch(p, topic, MaxItems).Returned? ==> |fetch(p, topic, MaxItems).value| <= MaxItems
    ensures |Collected(ps, fetch, topic)| <= MaxItems * |ps|
    decreases |ps|
  {
    if ps != [] {
      CollectedBound(ps[..|ps| - 1], fetch, topic);
    }
  }

  // ---------------------------------------------------------------------
  // enrich_articles
  // ---------------------------------------------------------------------

  /** `full_text or body or ""`: the first non-empty of the two, else the empty string. */
  function ArticleText(fullText: Option<string>, body: Option<string>): (r: string)
    ensures Truthy(fullText) ==> r == fullText.value
    ensures !Truthy(fullText) && Truthy(body) ==> r == body.value
    ensures !Truthy(fullText) && !Truthy(body) ==> r == ""
  {
    Or(Or(fullText, body), Some("")).GetOr("")
  }

  /**
    The loop at the end of `enrich_articles`: each article gets the prompt
    text (`full_text or body or ""`) and its topics as keywords.
  */
  method AlignArticles(articles: seq<Article>)
    modifies set a | a in articles :: a`text
    modifies set a | a in articles :: a`keywords
    ensures forall a :: a in articles ==>
      a.text == Some(ArticleText(a.fullText, a.body)) && a.keywords == Some(a.topics.GetOr([]))
  {
    for i := 0 to |articles|
      invariant forall j :: 0 <= j < i ==>
        articles[j].text == Some(ArticleText(articles[j].fullText, articles[j].body)) &&
        articles[j].keywords == Some(articles[j].topics.GetOr([]))
    {
      var art := articles[i];
      assert art in articles;
      art.text := Some(ArticleText(art.fullText, art.body));
      art.keywords := Some(art.topics.GetOr([]));
    }
  }

  /** The current fields of every article of a list. */
  function DataList(arts: seq<Article>): (r: seq<ArticleData>)
    reads arts
    ensures |r| == |arts|
    ensures forall i :: 0 <= i < |arts| ==> r[i] == DataOf(arts[i])
  {
    if arts == [] then [] else DataList(arts[..|arts| - 1]) + [DataOf(arts[|arts| - 1])]
  }

  // ---------------------------------------------------------------------
  // cluster_and_summarize
  // ---------------------------------------------------------------------

  /** Every article id is an index into the article list (otherwise `arts[i]` raises). */
  predicate IdsFit(ids: seq<nat>, n: nat) {
    forall j :: 0 <= j < |ids| ==> ids[j] < n
  }

  predicate EntriesFit(es: seq<ClusterEntry>, n: nat) {
    forall i :: 0 <= i < |es| ==> IdsFit(es[i].articleIds.GetOr([]), n)
  }

  /**
    What the community analysis guarantees: its entries come from a
    dictionary keyed by cid, and their article ids index the articles.
  */
  ghost predicate CommunitiesFit(communities: (Graph, seq<ArticleData>) -> seq<ClusterEntry>) {
    forall g, arts :: DistinctKeys(communities(g, arts), EntryCid) && EntriesFit(communities(g, arts), |arts|)
  }

  /** `[arts[i] for i in ids]`. */
  function ArticlesAt(arts: seq<ArticleData>, ids: seq<nat>): (r: seq<ArticleData>)
    requires IdsFit(ids, |arts|)
    ensures |r| == |ids|
    ensures forall j :: 0 <= j < |ids| ==> r[j] == arts[ids[j]]
  {
    if ids == [] then [] else ArticlesAt(arts, ids[..|ids| - 1]) + [arts[ids[|ids| - 1]]]
  }

  /** The cluster built from one entry, with the defaults of the missing keys. */
  function ClusterOf(e: ClusterEntry, arts: seq<ArticleData>): (c: Cluster)
    requires IdsFit(e.articleIds.GetOr([]), |arts|)
    ensures c.cid == e.cid
    ensures c.summary == e.combinedSummary.GetOr("")
    ensures c.articles == ArticlesAt(arts, e.articleIds.GetOr([]))
    ensures |c.articles| == |e.articleIds.GetOr([])|
    ensures c.keywords == e.keywords.GetOr([])
    ensures c.embedding == e.summaryEmbedding
  {
    Cluster(e.cid, e.combinedSummary.GetOr(""), ArticlesAt(arts, e.articleIds.GetOr([])),
            e.keywords.GetOr([]), e.summaryEmbedding)
  }

  /** The clusters built from the entries, in entry order. */
  function ClustersOf(es: seq<ClusterEntry>, arts: seq<ArticleData>): (r: seq<Cluster>)
    requires EntriesFit(es, |arts|)
    ensures |r| == |es|
  {
    if es == [] then []
    else
      assert EntriesFit(es[..|es| - 1], |arts|);
      ClustersOf(es[..|es| - 1], arts) + [ClusterOf(es[|es| - 1], arts)]
  }

  /** The `i`-th cluster is built from the `i`-th entry. */
  lemma {:induction false} ClustersOfPointwise(es: seq<ClusterEntry>, arts: seq<ArticleData>)
    requires EntriesFit(es, |arts|)
    ensures forall i :: 0 <= i < |es| ==> ClustersOf(es, arts)[i] == ClusterOf(es[i], arts)
    decreases |es|
  {
    if es != [] {
      var p := es[..|es| - 1];
      assert EntriesFit(p, |arts|);
      ClustersOfPointwise(p, arts);
      forall i | 0 <= i < |p| ensures ClustersOf(es, arts)[i] == ClusterOf(es[i], arts) {
        assert ClustersOf(es, arts)[i] == ClustersOf(p, arts)[i];
        assert es[i] == p[i];
      }
    }
  }

  /** The clusters carry the entries' cids, in order; so distinct entries give distinct cluster ids. */
  lemma ClustersKeepCids(es: seq<ClusterEntry>, arts: seq<ArticleData>)
    requires EntriesFit(es, |arts|)
    ensures forall i :: 0 <= i < |es| ==> ClustersOf(es, arts)[i].cid == es[i].cid
    ensures DistinctKeys(es, EntryCid) ==> DistinctKeys(ClustersOf(es, arts), CidOf)
  {
    ClustersOfPointwise(es, arts);
  }

  // ---------------------------------------------------------------------
  // rank_clusters
  // ---------------------------------------------------------------------

  /**
    The order `rank_clusters` produces from the reranked summaries: the
    cluster each reranked summary names (the last cluster with that
    summary), then every cluster, each kept only on its first appearance.
  */
  function RankOrder(clusters: seq<Cluster>, ordered: seq<string>): (r: seq<Cluster>)
    ensures NoDups(r)
    ensures forall x :: x in r <==> x in clusters
  {
    var named := Lookup(IndexBy(clusters, SummaryOf), ordered);
    FirstByKeyDistinct(named + clusters, Id);
    FirstByKeyKeys(named + clusters, Id);
    DistinctKeysNoDups(FirstByKey(named + clusters, Id), Id);
    RankOrderElements(named, clusters);
    FirstByKey(named + clusters, Id)
  }

  /** The named clusters are clusters, so the ranking holds exactly the clusters. */
  lemma RankOrderElements(named: seq<Cluster>, clusters: seq<Cluster>)
    requires forall i :: 0 <= i < |named| ==> named[i] in clusters
    requires Keys(FirstByKey(named + clusters, Id), Id) == Keys(named + clusters, Id)
    ensures forall x :: x in FirstByKey(named + clusters, Id) <==> x in clusters
  {
    var r := FirstByKey(named + clusters, Id);
    forall x | x in clusters ensures x in r {
      assert x in named + clusters;
      KeysIdMembership(named + clusters, x);
      KeysIdMembership(r, x);
    }
    forall x | x in r ensures x in clusters {
      assert x in named + clusters;
      if x in named {
        var i :| 0 <= i < |named| && named[i] == x;
      }
    }
  }

  /** The two loops of `rank_clusters`. */
  method RerankedOrder(clusters: seq<Cluster>, ordered: seq<string>) returns (ranked: seq<Cluster>)
    ensures ranked == RankOrder(clusters, ordered)
  {
    var summaryToCluster := IndexBy(clusters, SummaryOf);
    ranked := NamedClusters(summaryToCluster, ordered);
    ranked := AppendMissing(ranked, Lookup(summaryToCluster, ordered), clusters);
  }

  /** The first loop of `rank_clusters`: the clusters the reranked summaries name, each once. */
  method NamedClusters<K, T(==)>(summaryToCluster: map<K, T>, ordered: seq<K>) returns (ranked: seq<T>)
    ensures ranked == FirstByKey(Lookup(summaryToCluster, ordered), Id)
  {
    ranked := [];
    for i := 0 to |ordered|
      invariant ranked == FirstByKey(Lookup(summaryToCluster, ordered[..i]), Id)
    {
      var summary := ordered[i];
      var before := Lookup(summaryToCluster, ordered[..i]);
      assert ordered[..i + 1] == ordered[..i] + [summary];
      LookupSnoc(summaryToCluster, ordered[..i], summary);
      if summary in summaryToCluster {
        var cluster := summaryToCluster[summary];
        assert Lookup(summaryToCluster, ordered[..i + 1]) == before + [cluster];
        FirstByKeySnoc(before, cluster, Id);
        KeysIdMembership(ranked, cluster);
        if cluster !in ranked {
          ranked := ranked + [cluster];
        }
      } else {
        assert Lookup(summaryToCluster, ordered[..i + 1]) == before;
      }
    }
    assert ordered[..|ordered|] == ordered;
  }

  /** The second loop of `rank_clusters`: every cluster not yet ranked is appended, in order. */
  method AppendMissing<T(==)>(ranked0: seq<T>, named: seq<T>, clusters: seq<T>) returns (ranked: seq<T>)
    requires ranked0 == FirstByKey(named, Id)
    ensures ranked == FirstByKey(named + clusters, Id)
  {
    ranked := ranked0;
    assert named + clusters[..0] == named;
    for j := 0 to |clusters|
      invariant ranked == FirstByKey(named + clusters[..j], Id)
    {
      var c := clusters[j];
      assert named + clusters[..j + 1] == (named + clusters[..j]) + [c];
      FirstByKeySnoc(named + clusters[..j], c, Id);
      KeysIdMembership(ranked, c);
      if c !in ranked {
        ranked := ranked + [c];
      }
    }
    assert clusters[..|clusters|] == clusters;
  }

  /** A list contains `x` exactly when `x` is one of its identity keys. */
  lemma KeysIdMembership<T>(s: seq<T>, x: T)
    ensures x in s <==> Id(x) in Keys(s, Id)
  {
    if Id(x) in Keys(s, Id) {
      var y :| y in s && Id(y) == Id(x);
    }
  }

  /**
    With no cluster listed twice, the ranked list is a permutation of the
    clusters: the named clusters first, in the order the reranker first
    names them, then the others in their original order.
  */
  lemma RankOrderPermutation(clusters: seq<Cluster>, ordered: seq<string>)
    requires NoDups(clusters)
    ensures RankOrder(clusters, ordered) ==
      FirstByKey(Lookup(IndexBy(clusters, SummaryOf), ordered), Id) +
      Select(clusters, Id, Keys(Lookup(IndexBy(clusters, SummaryOf), ordered), Id), false)
    ensures NoDups(RankOrder(clusters, ordered))
    ensures multiset(RankOrder(clusters, ordered)) == multiset(clusters)
  {
    var named := Lookup(IndexBy(clusters, SummaryOf), ordered);
    var r := RankOrder(clusters, ordered);
    assert DistinctKeys(clusters, Id);
    FirstByKeyAppend(named, clusters, Id);
    SameElementsPermutation(r, clusters);
  }

  /**
    Two clusters with the same summary: the dictionary keeps the later one,
    so a reranker naming that summary puts the later cluster first.
  */
  lemma SharedSummaryRanksLaterClusterFirst()
    ensures
      var a := Cluster(1, "markets", [], [], None);
      var b := Cluster(2, "markets", [], [], None);
      RankOrder([a, b], ["markets"]) == [b, a]
  {
    var a := Cluster(1, "markets", [], [], None);
    var b := Cluster(2, "markets", [], [], None);
    var m := IndexBy([a, b], SummaryOf);
    SharedSummaryIndex(a, b);
    assert ["markets"] == [] + ["markets"];
    LookupSnoc(m, [], "markets");
    assert Lookup(m, ["markets"]) + [a, b] == [b, a, b];
    FirstSeenOrder(b, a);
  }

  /** The summary dictionary of two clusters with one summary maps it to the second. */
  lemma SharedSummaryIndex(a: Cluster, b: Cluster)
    requires a.summary == b.summary
    ensures IndexBy([a, b], SummaryOf) == map[b.summary := b]
  {
    assert [a, b][..1] == [a];
    assert [a][..0] == [];
  }

  /** Keeping first occurrences of `[x, y, x]` gives `[x, y]`. */
  lemma FirstSeenOrder<T>(x: T, y: T)
    requires x != y
    ensures FirstByKey([x, y, x], Id) == [x, y]
  {
    FirstByKeySnocNew([], x, Id);
    assert [] + [x] == [x];
    assert Keys([x], Id) == {x};
    FirstByKeySnocNew([x], y, Id);
    assert [x] + [y] == [x, y];
    assert x in [x, y];
    FirstByKeySnocSeen([x, y], x, Id);
    assert [x, y] + [x] == [x, y, x];
  }

  // ---------------------------------------------------------------------
  // draft_response, refine_response
  // ---------------------------------------------------------------------

  /** `ranked_clusters or clusters or []`. */
  function Candidates(ranked: seq<Cluster>, clusters: seq<Cluster>): (r: seq<Cluster>)
    ensures r == [] <==> ranked == [] && clusters == []
    ensures ranked != [] ==> r == ranked
    ensures ranked == [] ==> r == clusters
  {
    if ranked != [] then ranked else clusters
  }

  /** The clusters `draft_response` drafts from: the top `min(8, n)` candidates, filtered. */
  function DraftSelection(topic: string, cs: seq<Cluster>, retrieve: (string, seq<Cluster>, nat) -> seq<int>,
                          select: (string, seq<Cluster>) -> seq<int>): (r: seq<Cluster>)
    ensures |r| <= MaxDraftClusters
    ensures forall i :: 0 <= i < |r| ==> r[i] in cs
  {
    var k := Min(MaxDraftClusters, |cs|);
    var top := TopK(cs, retrieve(topic, cs, Min(k, |cs|)), k);
    var r := FilterClusters(top, select(topic, top));
    assert forall i :: 0 <= i < |r| ==> r[i] in top;
    r
  }

  // ---------------------------------------------------------------------
  // The state and its nodes
  // ---------------------------------------------------------------------

  class AgentState {
    const topic: string
    var refineQuery: Option<string>
    var rawArticles: seq<Article>
    var enrichedArticles: seq<Article>
    var igraph: Option<Graph>
    var clusters: seq<Cluster>
    var rankedClusters: seq<Cluster>
    var answer: Option<string>

    /** The state `run_once` starts from: a topic and an optional follow-up query. */
    constructor (topic: string, refineQuery: Option<string>)
      ensures this.topic == topic && this.refineQuery == refineQuery
      ensures rawArticles == [] && enrichedArticles == [] && igraph == None
      ensures clusters == [] && rankedClusters == [] && answer == None
    {
      this.topic := topic;
      this.refineQuery := refineQuery;
      rawArticles := [];
      enrichedArticles := [];
      igraph := None;
      clusters := [];
      rankedClusters := [];
      answer := None;
    }

    /** `fetch_articles`: every provider's articles, in provider order; failing providers are skipped. */
    method FetchArticles(fetch: (Provider, string, nat) -> Outcome<seq<Article>>)
      modifies this`rawArticles
      ensures rawArticles == Collected(Providers, fetch, topic)
    {
      var collected: seq<Article> := [];
      for i := 0 to |Providers|
        invariant collected == Collected(Providers[..i], fetch, topic)
      {
        assert Providers[..i + 1][..i] == Providers[..i];
        match fetch(Providers[i], topic, MaxItems) {
          case Returned(arts) => collected := collected + arts;
          case Raised =>
        }
      }
      assert Providers[..|Providers|] == Providers;
      rawArticles := collected;
    }

    /**
      `enrich_articles`: deduplicates the raw articles by URL and gives each
      kept article its full text, embedding, topics, prompt text and
      keywords. Articles dropped as duplicates are left as they were.
    */
    method EnrichArticles(extract: Option<string> -> Extraction, embed: string -> Vector,
                          extractTopics: Option<string> -> seq<string>)
      modifies this`enrichedArticles
      modifies set a | a in rawArticles :: a`fullText
      modifies set a | a in rawArticles :: a`embedding
      modifies set a | a in rawArticles :: a`topics
      modifies set a | a in rawArticles :: a`text
      modifies set a | a in rawArticles :: a`keywords
      ensures enrichedArticles == Deduplicated(rawArticles)
      ensures forall a :: a in enrichedArticles ==>
        && a.fullText == ScrapeUrl(extract(a.url))
        && a.embedding == Some(embed(EmbeddingInput(a.fullText)))
        && a.topics == Some(extractTopics(a.fullText))
        && a.text == Some(ArticleText(a.fullText, a.body))
        && a.keywords == a.topics
      ensures forall a :: a in rawArticles && a !in enrichedArticles ==>
        && a.fullText == old(a.fullText) && a.embedding == old(a.embedding) && a.topics == old(a.topics)
        && a.text == old(a.text) && a.keywords == old(a.keywords)
    {
      var articles := rawArticles;
      if articles == [] {
        enrichedArticles := [];
        return;
      }
      var enriched := GetFullTexts(articles, extract);
      assert forall i :: 0 <= i < |enriched| ==> enriched[i] in articles;
      GetEmbeddings(enriched, embed);
      GetTopics(enriched, extractTopics);
      AlignArticles(enriched);
      enrichedArticles := enriched;
    }

    /**
      The first two nodes of a run: the fetched articles, deduplicated and
      enriched.
    */
    method Gather(s: Services)
      modifies this`rawArticles, this`enrichedArticles
      modifies set a | a in Collected(Providers, s.fetch, topic)
      ensures rawArticles == Collected(Providers, s.fetch, topic)
      ensures enrichedArticles == Deduplicated(rawArticles)
      ensures forall a :: a in enrichedArticles ==>
        && a.fullText == ScrapeUrl(s.extract(a.url))
        && a.embedding == Some(s.embed(EmbeddingInput(a.fullText)))
        && a.topics == Some(s.extractTopics(a.fullText))
        && a.text == Some(ArticleText(a.fullText, a.body))
        && a.keywords == a.topics
    {
      FetchArticles(s.fetch);
      EnrichArticles(s.extract, s.embed, s.extractTopics);
    }

    /**
      `build_similarity_graph`: a graph with one node per enriched article
      and the similarity edges between them, or no graph when there are no
      articles.
    */
    method BuildSimilarityGraph(similarityEdges: seq<ArticleData> -> seq<Edge>)
      modifies this`igraph
      ensures enrichedArticles == [] ==> igraph == None
      ensures enrichedArticles != [] ==>
        igraph == Some(Graph(|enrichedArticles|, similarityEdges(DataList(enrichedArticles))))
    {
      var arts := enrichedArticles;
      igraph := if arts != [] then Some(Graph(|arts|, similarityEdges(DataList(arts)))) else None;
    }

    /**
      `cluster_and_summarize`: no clusters without a graph or articles;
      otherwise one cluster per community entry, in entry order.
    */
    method ClusterAndSummarize(communities: (Graph, seq<ArticleData>) -> seq<ClusterEntry>)
      requires CommunitiesFit(communities)
      modifies this`clusters
      ensures igraph.None? || enrichedArticles == [] ==> clusters == []
      ensures igraph.Some? && enrichedArticles != [] ==>
        clusters == ClustersOf(communities(igraph.value, DataList(enrichedArticles)), DataList(enrichedArticles))
      ensures DistinctKeys(clusters, CidOf)
    {
      var g := igraph;
      var arts := DataList(enrichedArticles);
      if g.None? || arts == [] {
        clusters := [];
        return;
      }
      var entries := communities(g.value, arts);
      var built: seq<Cluster> := [];
      for i := 0 to |entries|
        invariant EntriesFit(entries[..i], |arts|)
        invariant built == ClustersOf(entries[..i], arts)
      {
        var e := entries[i];
        assert entries[..i + 1] == entries[..i] + [e];
        assert entries[..i + 1][..i] == entries[..i];
        built := built + [Cluster(e.cid, e.combinedSummary.GetOr(""), ArticlesAt(arts, e.articleIds.GetOr([])),
                                  e.keywords.GetOr([]), e.summaryEmbedding)];
      }
      assert entries[..|entries|] == entries;
      ClustersKeepCids(entries, arts);
      clusters := built;
    }

    /**
      `rank_clusters`: no ranking without clusters; the original order when
      the reranker raises; otherwise the reranked order completed with the
      clusters it did not name.
    */
    method RankClusters(rerank: (seq<string>, string, nat) -> Outcome<seq<string>>)
      modifies this`rankedClusters
      ensures clusters == [] ==> rankedClusters == []
      ensures clusters != [] ==>
        rankedClusters == match rerank(KeySeq(clusters, SummaryOf), topic, |clusters|)
                          case Raised => clusters
                          case Returned(ordered) => RankOrder(clusters, ordered)
      ensures NoDups(clusters) ==> multiset(rankedClusters) == multiset(clusters)
    {
      var cs := clusters;
      if cs == [] {
        rankedClusters := [];
        return;
      }
      var chunks := KeySeq(cs, SummaryOf);
      match rerank(chunks, topic, |chunks|) {
        case Raised =>
          rankedClusters := cs;
        case Returned(ordered) =>
          var ranked := RerankedOrder(cs, ordered);
          if NoDups(cs) {
            RankOrderPermutation(cs, ordered);
          }
          rankedClusters := ranked;
      }
    }

    /**
      The three nodes between enriching and drafting: the graph, its
      clusters and their ranking. Without articles there is no graph and no
      cluster; the clusters have distinct ids and the ranking reorders them
      without loss or repetition.
    */
    method Analyse(s: Services)
      requires CommunitiesFit(s.communities)
      modifies this`igraph, this`clusters, this`rankedClusters
      ensures enrichedArticles == [] ==> igraph == None && clusters == []
      ensures clusters != [] ==>
        rankedClusters == match s.rerank(KeySeq(clusters, SummaryOf), topic, |clusters|)
                          case Raised => clusters
                          case Returned(ordered) => RankOrder(clusters, ordered)
      ensures DistinctKeys(clusters, CidOf)
      ensures multiset(rankedClusters) == multiset(clusters)
      ensures clusters == [] ==> rankedClusters == []
    {
      BuildSimilarityGraph(s.similarityEdges);
      ClusterAndSummarize(s.communities);
      DistinctKeysNoDups(clusters, CidOf);
      RankClusters(s.rerank);
    }

    /**
      `draft_response`: the fixed sentence when there are no clusters;
      otherwise the answer drafted from the top candidates that survive the
      relevance filter.
    */
    method DraftResponse(retrieve: (string, seq<Cluster>, nat) -> seq<int>,
                         select: (string, seq<Cluster>) -> seq<int>,
                         complete: (string, seq<Block>) -> string)
      modifies this`answer
      ensures Candidates(rankedClusters, clusters) == [] ==> answer == Some(NoRelevantArticles)
      ensures Candidates(rankedClusters, clusters) != [] ==>
        answer == Some(AnswerFor(topic, DraftSelection(topic, Candidates(rankedClusters, clusters), retrieve, select),
                                 complete))
    {
      var cs := Candidates(rankedClusters, clusters);
      if cs == [] {
        answer := Some(NoRelevantArticles);
        return;
      }
      var top := RetrieveTopKClusters(topic, cs, Min(MaxDraftClusters, |cs|), retrieve);
      var filtered := FilterClusters(top, select(topic, top));
      var drafted := DraftAnswer(topic, filtered, complete);
      answer := Some(drafted);
    }

    /**
      `refine_response`: without a follow-up query nothing changes;
      otherwise the answer is redrafted for it from all candidate clusters
      and the follow-up query is cleared.
    */
    method RefineResponse(select: (string, seq<Cluster>) -> seq<int>, complete: (string, seq<Block>) -> string)
      modifies this`answer, this`refineQuery
      ensures !Truthy(old(refineQuery)) ==> answer == old(answer) && refineQuery == old(refineQuery)
      ensures Truthy(old(refineQuery)) ==>
        var q := old(refineQuery).value;
        var cs := Candidates(rankedClusters, clusters);
        && answer == Some(AnswerFor(q, FilterClusters(cs, select(q, cs)), complete))
        && refineQuery == None
      ensures ShouldRefine(refineQuery) == End
    {
      var q := refineQuery;
      if !Truthy(q) {
        return;
      }
      var cs := Candidates(rankedClusters, clusters);
      var filtered := FilterClusters(cs, select(q.value, cs));
      var drafted := DraftAnswer(q.value, filtered, complete);
      answer := Some(drafted);
      refineQuery := None;
    }

    /**
      The last two nodes of a run: the drafted answer, then, when the
      follow-up query is set, the answer redrafted for it. `refined` tells
      whether the refine node ran.
    */
    method Respond(s: Services) returns (refined: bool)
      modifies this`answer, this`refineQuery
      ensures refined == Truthy(old(refineQuery))
      ensures answer.Some? && !Truthy(refineQuery)
      ensures !refined ==>
        var cs := Candidates(rankedClusters, clusters);
        answer == Some(if cs == [] then NoRelevantArticles
                       else AnswerFor(topic, DraftSelection(topic, cs, s.retrieve, s.select), s.complete))
      ensures refined ==>
        var q := old(refineQuery).value;
        var cs := Candidates(rankedClusters, clusters);
        answer == Some(AnswerFor(q, FilterClusters(cs, s.select(q, cs)), s.complete))
    {
      DraftResponse(s.retrieve, s.select, s.complete);
      refined := Truthy(refineQuery);
      match ShouldRefine(refineQuery) {
        case Goto(_) =>
          RefineResponse(s.select, s.complete);
        case End =>
      }
    }
  }

  // ---------------------------------------------------------------------
  // The wiring of `build_graph`
  // ---------------------------------------------------------------------

  datatype Node = FetchNode | EnrichNode | GraphNode | ClusterNode | RankNode | DraftNode | RefineNode

  /** Where the graph goes after a node: another node, or the end. */
  datatype Step = Goto(node: Node) | End

  /** The nodes in the order `build_graph` adds them. */
  const Nodes: seq<Node> := [FetchNode, EnrichNode, GraphNode, ClusterNode, RankNode, DraftNode, RefineNode]

  /** A node's place in the order the nodes are added; distinct nodes have distinct places. */
  function Position(n: Node): (r: nat)
    ensures r < |Nodes| && Nodes[r] == n
  {
    match n
    case FetchNode => 0
    case EnrichNode => 1
    case GraphNode => 2
    case ClusterNode => 3
    case RankNode => 4
    case DraftNode => 5
    case RefineNode => 6
  }

  /** Every node is added exactly once, and its position is its place in the order of addition. */
  lemma NodesInOrder()
    ensures NoDups(Nodes)
    ensures forall n: Node :: n in Nodes
    ensures forall i :: 0 <= i < |Nodes| ==> Position(Nodes[i]) == i
    ensures forall m: Node, n: Node :: Position(m) == Position(n) <==> m == n
  {
    forall n: Node ensures n in Nodes {
      assert Nodes[Position(n)] == n;
    }
    forall i | 0 <= i < |Nodes| ensures Position(Nodes[i]) == i {
      assert Nodes[i] == Nodes[Position(Nodes[i])];
    }
    forall i, j | 0 <= i < j < |Nodes| ensures Nodes[i] != Nodes[j] {
      assert Position(Nodes[i]) == i && Position(Nodes[j]) == j;
    }
  }

  /** `_should_refine`: refine exactly when the follow-up query is set and non-empty. */
  function ShouldRefine(refineQuery: Option<string>): (r: Step)
    ensures r == Goto(RefineNode) <==> Truthy(refineQuery)
    ensures r == End <==> !Truthy(refineQuery)
  {
    if Truthy(refineQuery) then Goto(RefineNode) else End
  }

  /**
    The edges of the graph: a fixed chain from fetching to drafting, the
    conditional edge after drafting and a plain edge from refining to the
    end. Every edge leads to a later node, so the graph has no cycle.
  */
  function Next(n: Node, refineQuery: Option<string>): (r: Step)
    ensures r.Goto? ==> Position(n) < Position(r.node)
    ensures r == End <==> n == RefineNode || (n == DraftNode && !Truthy(refineQuery))
  {
    match n
    case FetchNode => Goto(EnrichNode)
    case EnrichNode => Goto(GraphNode)
    case GraphNode => Goto(ClusterNode)
    case ClusterNode => Goto(RankNode)
    case RankNode => Goto(DraftNode)
    case DraftNode => ShouldRefine(refineQuery)
    case RefineNode => End
  }

  /** The nodes a run visits from `n` on, following the edges until the end. */
  function Trace(n: Node, refineQuery: Option<string>): (r: seq<Node>)
    ensures |r| >= 1 && r[0] == n
    decreases 6 - Position(n)
  {
    match Next(n, refineQuery)
    case End => [n]
    case Goto(m) => [n] + Trace(m, refineQuery)
  }

  /** From the entry point a run visits the six nodes in order, then refines exactly when asked to. */
  lemma TraceFromEntry(refineQuery: Option<string>)
    ensures Trace(FetchNode, refineQuery) ==
      [FetchNode, EnrichNode, GraphNode, ClusterNode, RankNode, DraftNode] +
      (if Truthy(refineQuery) then [RefineNode] else [])
  {
    var tail := if Truthy(refineQuery) then [RefineNode] else [];
    assert Trace(RefineNode, refineQuery) == [RefineNode];
    assert Trace(DraftNode, refineQuery) == [DraftNode] + tail;
    assert Trace(RankNode, refineQuery) == [RankNode, DraftNode] + tail;
    assert Trace(ClusterNode, refineQuery) == [ClusterNode, RankNode, DraftNode] + tail;
    assert Trace(GraphNode, refineQuery) == [GraphNode, ClusterNode, RankNode, DraftNode] + tail;
    assert Trace(EnrichNode, refineQuery) == [EnrichNode, GraphNode, ClusterNode, RankNode, DraftNode] + tail;
  }

  /** A run visits nodes in strictly increasing position, so no node (the refine node included) runs twice. */
  lemma {:induction false} TraceAscends(n: Node, refineQuery: Option<string>)
    ensures forall i, j :: 0 <= i < j < |Trace(n, refineQuery)| ==>
      Position(Trace(n, refineQuery)[i]) < Position(Trace(n, refineQuery)[j])
    ensures NoDups(Trace(n, refineQuery))
    decreases 6 - Position(n)
  {
    var r := Trace(n, refineQuery);
    match Next(n, refineQuery)
    case End =>
    case Goto(m) =>
      TraceAscends(m, refineQuery);
      var t := Trace(m, refineQuery);
      assert r == [n] + t;
      forall i, j | 0 <= i < j < |r| ensures Position(r[i]) < Position(r[j]) {
        if i == 0 {
          assert r[j] == t[j - 1];
          if j > 1 {
            assert Position(t[0]) < Position(t[j - 1]);
          }
        } else {
          assert r[i] == t[i - 1] && r[j] == t[j - 1];
        }
      }
  }

  /** A run from `n` visits at most the nodes from `n`'s position on. */
  lemma {:induction false} TraceLength(n: Node, refineQuery: Option<string>)
    ensures |Trace(n, refineQuery)| <= 7 - Position(n)
    decreases 6 - Position(n)
  {
    match Next(n, refineQuery)
    case End =>
    case Goto(m) =>
      TraceLength(m, refineQuery);
  }

  /**
    The first five nodes of a run: a fresh state with the topic and
    follow-up query, its articles fetched and enriched, and its clusters
    built and ranked.
  */
  method RunToRanking(topic: string, refineQuery: Option<string>, s: Services) returns (state: AgentState)
    requires CommunitiesFit(s.communities)
    modifies set a | a in Collected(Providers, s.fetch, topic)
    ensures fresh(state) && state.topic == topic && state.refineQuery == refineQuery
    ensures state.rawArticles == Collected(Providers, s.fetch, topic)
    ensures state.enrichedArticles == Deduplicated(state.rawArticles)
    ensures DistinctKeys(state.clusters, CidOf)
    ensures multiset(state.rankedClusters) == multiset(state.clusters)
    ensures state.rawArticles == [] ==> state.clusters == [] && state.rankedClusters == []
  {
    state := new AgentState(topic, refineQuery);
    state.Gather(s);
    assert state.rawArticles == [] ==> state.enrichedArticles == [];
    state.Analyse(s);
  }

  /**
    `run_once`: a fresh state with the topic and follow-up query, run
    through the graph from its entry point. The articles the providers
    return are the only existing objects it changes.
  */
  method RunOnce(topic: string, refineQuery: Option<string>, s: Services) returns (state: AgentState, trace: seq<Node>)
    requires CommunitiesFit(s.communities)
    modifies set a | a in Collected(Providers, s.fetch, topic)
    ensures fresh(state) && state.topic == topic
    ensures trace == Trace(FetchNode, refineQuery)
    ensures state.rawArticles == Collected(Providers, s.fetch, topic)
    ensures state.enrichedArticles == Deduplicated(state.rawArticles)
    ensures DistinctKeys(state.clusters, CidOf)
    ensures multiset(state.rankedClusters) == multiset(state.clusters)
    ensures state.rawArticles == [] ==> state.clusters == [] && state.rankedClusters == []
    ensures state.clusters == [] ==> state.answer == Some(NoRelevantArticles)
    ensures state.answer.Some? && !Truthy(state.refineQuery)
    ensures !Truthy(refineQuery) ==>
      var cs := Candidates(state.rankedClusters, state.clusters);
      state.answer == Some(if cs == [] then NoRelevantArticles
                           else AnswerFor(topic, DraftSelection(topic, cs, s.retrieve, s.select), s.complete))
    ensures Truthy(refineQuery) ==>
      var cs := Candidates(state.rankedClusters, state.clusters);
      state.answer == Some(AnswerFor(refineQuery.value, FilterClusters(cs, s.select(refineQuery.value, cs)), s.complete))
  {
    state := RunToRanking(topic, refineQuery, s);
    var refined := state.Respond(s);
    trace := [FetchNode, EnrichNode, GraphNode, ClusterNode, RankNode, DraftNode] + (if refined then [RefineNode] else []);
    TraceFromEntry(refineQuery);
  }
}
