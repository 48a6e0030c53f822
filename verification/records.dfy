/**
  The records that flow through the news pipeline.

  An article is a mutable record: the pipeline stages add fields to the
  provider's record in place, and the same record object is shared by the
  raw list, the deduplicated list and the clusters. The fields a provider
  writes are constants whose value may be Python's `None`; the fields the
  pipeline adds are variables that are `None` until a stage writes them.
  A cluster is never changed after it is built, so it is a value, and so
  are the articles it holds: no stage writes an article once clusters
  exist, so a cluster holds the article's fields as they were then.
*/
module Records {

  datatype Option<+T> = None | Some(value: T) {
    function GetOr(default: T): T {
      match this
      case Some(v) => v
      case None => default
    }
  }

  /** The result of a call into a collaborator: a value, or an exception. */
  datatype Outcome<+T> = Returned(value: T) | Raised

  /** Python truthiness of a string that may be `None`. */
  predicate Truthy(s: Option<string>) {
    s.Some? && s.value != ""
  }

  /** Python's `a or b` on strings that may be `None`. */
  function Or(a: Option<string>, b: Option<string>): Option<string> {
    if Truthy(a) then a else b
  }

  /** An embedding vector, as the embedding service returns it. */
  type Vector = seq<real>

  class Article {
    // written by the provider (every provider writes all five keys)
    const title: Option<string>
    const url: Option<string>
    const source: Option<string>
    const publishedAt: Option<string>
    const body: Option<string>
    // added by the enrichment stage
    var fullText: Option<string>
    var embedding: Option<Vector>
    var topics: Option<seq<string>>
    var text: Option<string>
    var keywords: Option<seq<string>>

    constructor (title: Option<string>, url: Option<string>, source: Option<string>,
                 publishedAt: Option<string>, body: Option<string>)
      ensures this.title == title && this.url == url && this.source == source
      ensures this.publishedAt == publishedAt && this.body == body
      ensures fullText == None && embedding == None && topics == None
      ensures text == None && keywords == None
    {
      this.title := title;
      this.url := url;
      this.source := source;
      this.publishedAt := publishedAt;
      this.body := body;
      fullText := None;
      embedding := None;
      topics := None;
      text := None;
      keywords := None;
    }
  }

  /** The fields of an article at one moment; two articles compare equal when these do. */
  datatype ArticleData = ArticleData(
    title: Option<string>,
    url: Option<string>,
    source: Option<string>,
    publishedAt: Option<string>,
    body: Option<string>,
    fullText: Option<string>,
    embedding: Option<Vector>,
    topics: Option<seq<string>>,
    text: Option<string>,
    keywords: Option<seq<string>>)

  /** The current fields of an article. */
  function DataOf(a: Article): (d: ArticleData)
    reads a
    ensures d.url == a.url && d.title == a.title && d.text == a.text
  {
    ArticleData(a.title, a.url, a.source, a.publishedAt, a.body,
                a.fullText, a.embedding, a.topics, a.text, a.keywords)
  }

  /** The deduplication key of an article: `article.get("url")`. */
  function UrlOf(a: Article): Option<string> { a.url }

  /** A topic cluster as the clustering stage builds it. */
  datatype Cluster = Cluster(
    cid: int,
    summary: string,
    articles: seq<ArticleData>,
    keywords: seq<string>,
    embedding: Option<Vector>)

  function CidOf(c: Cluster): int { c.cid }

  function SummaryOf(c: Cluster): string { c.summary }
}
