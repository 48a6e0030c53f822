/**
  Article preparation (graph/data_prep.py; graph/kgraph.py holds an
  identical copy of `get_full_texts` and `scrape_url`): deduplication by
  URL, full-text annotation, and the per-article embedding and topic loops.

  The text extractor, the embedding service and the topic extractor are
  parameters: each is the value the collaborator produces for its input.
*/
module DataPrep {
  import opened Records
  import opened Seqs

  /** Extracted texts shorter than this are discarded. */
  const MinTextLength: nat := 300

  /** What downloading and parsing a URL produced. */
  datatype Extraction = Extracted(text: string) | ExtractionFailed

  /**
    `scrape_url`: the extracted text when extraction succeeded and the text
    has at least `MinTextLength` characters, otherwise `None`.
  */
  function ScrapeUrl(e: Extraction): (r: Option<string>)
    ensures r.Some? <==> e.Extracted? && |e.text| >= MinTextLength
    ensures r.Some? ==> r.value == e.text && |r.value| >= MinTextLength
  {
    match e
    case ExtractionFailed => None
    case Extracted(t) => if |t| < MinTextLength then None else Some(t)
  }

  /**
    The articles `get_full_texts` keeps: the first article for each URL
    value (a missing URL, `None`, counts as one value), in input order.
  */
  function Deduplicated(articles: seq<Article>): (r: seq<Article>)
    ensures DistinctKeys(r, UrlOf)
    ensures Keys(r, UrlOf) == Keys(articles, UrlOf)
    ensures |r| <= |articles|
    ensures forall i :: 0 <= i < |r| ==> r[i] in articles
  {
    FirstByKeyDistinct(articles, UrlOf);
    FirstByKeyKeys(articles, UrlOf);
    FirstByKey(articles, UrlOf)
  }

  /** The first loop of `get_full_texts`: a seen-set and an output list. */
  method DedupByUrl(articles: seq<Article>) returns (kept: seq<Article>)
    ensures kept == Deduplicated(articles)
  {
    var unique: set<Option<string>> := {};
    kept := [];
    for i := 0 to |articles|
      invariant kept == FirstByKey(articles[..i], UrlOf)
      invariant unique == Keys(kept, UrlOf)
    {
      var article := articles[i];
      var url := article.url;
      assert articles[..i + 1] == articles[..i] + [article];
      FirstByKeySnoc(articles[..i], article, UrlOf);
      assert UrlOf(article) == url;
      if url !in unique {
        KeysAppend(kept, [article], UrlOf);
        assert Keys([article], UrlOf) == {url};
        unique := unique + {url};
        kept := kept + [article];
      }
    }
    assert articles[..|articles|] == articles;
  }

  /**
    `get_full_texts`: deduplicates, then sets `full_text` on every kept
    article to its scrape result. Articles dropped as duplicates keep their
    old `full_text`, unless the very same record object was also kept.
  */
  method GetFullTexts(articles: seq<Article>, extract: Option<string> -> Extraction)
    returns (kept: seq<Article>)
    modifies set a | a in articles :: a`fullText
    ensures kept == Deduplicated(articles)
    ensures forall a :: a in articles ==>
      a.fullText == if a in kept then ScrapeUrl(extract(a.url)) else old(a.fullText)
  {
    kept := DedupByUrl(articles);
    for j := 0 to |kept|
      invariant forall a :: a in articles ==>
        a.fullText == if a in kept[..j] then ScrapeUrl(extract(a.url)) else old(a.fullText)
    {
      var article := kept[j];
      assert kept[..j + 1] == kept[..j] + [article];
      article.fullText := ScrapeUrl(extract(article.url));
    }
    assert kept[..|kept|] == kept;
  }

  /** The text `get_embeddings` sends to the embedding service. */
  function EmbeddingInput(fullText: Option<string>): (r: string)
    ensures Truthy(fullText) ==> r == fullText.value
    ensures !Truthy(fullText) ==> r == ""
  {
    Or(fullText, Some("")).GetOr("")
  }

  /** `get_embeddings`: every article of the list gets the embedding of its text. */
  method GetEmbeddings(articles: seq<Article>, embed: string -> Vector)
    modifies set a | a in articles :: a`embedding
    ensures forall a :: a in articles ==> a.embedding == Some(embed(EmbeddingInput(a.fullText)))
  {
    for i := 0 to |articles|
      invariant forall j :: 0 <= j < i ==>
        articles[j].embedding == Some(embed(EmbeddingInput(articles[j].fullText)))
    {
      var article := articles[i];
      assert article in articles;
      article.embedding := Some(embed(EmbeddingInput(article.fullText)));
    }
  }

  /** `get_topics`: every article of the list gets the topics of its full text. */
  method GetTopics(articles: seq<Article>, extractTopics: Option<string> -> seq<string>)
    modifies set a | a in articles :: a`topics
    ensures forall a :: a in articles ==> a.topics == Some(extractTopics(a.fullText))
  {
    for i := 0 to |articles|
      invariant forall j :: 0 <= j < i ==> articles[j].topics == Some(extractTopics(articles[j].fullText))
    {
      var article := articles[i];
      assert article in articles;
      article.topics := Some(extractTopics(article.fullText));
    }
  }

  /**
    Each kept article is the first article of the input with its URL, and
    the kept articles keep the order of those first occurrences.
  */
  lemma DedupKeepsFirstOccurrences(articles: seq<Article>)
    ensures forall n :: 0 <= n < |Deduplicated(articles)| ==>
      UrlOf(Deduplicated(articles)[n]) in Keys(articles, UrlOf) &&
      Deduplicated(articles)[n] == articles[FirstIndex(articles, UrlOf, Deduplicated(articles)[n].url)]
    ensures forall m, n :: 0 <= m < n < |Deduplicated(articles)| ==>
      UrlOf(Deduplicated(articles)[m]) in Keys(articles, UrlOf) &&
      UrlOf(Deduplicated(articles)[n]) in Keys(articles, UrlOf) &&
      FirstIndex(articles, UrlOf, Deduplicated(articles)[m].url) <
        FirstIndex(articles, UrlOf, Deduplicated(articles)[n].url)
  {
    FirstByKeyFirst(articles, UrlOf);
  }

  /** On articles whose URLs are already distinct, deduplication is the identity. */
  lemma DedupIdentityOnDistinct(articles: seq<Article>)
    requires DistinctKeys(articles, UrlOf)
    ensures Deduplicated(articles) == articles
  {
    FirstByKeyIdentity(articles, UrlOf);
  }

  /** Deduplication is idempotent. */
  lemma DedupIdempotent(articles: seq<Article>)
    ensures Deduplicated(Deduplicated(articles)) == Deduplicated(articles)
  {
    FirstByKeyIdempotent(articles, UrlOf);
  }
}
