/** The Zendesk article cleaner: each exported article is projected onto the
    fields the Chatwoot help center needs, with `body` becoming `content` and
    `section_id` becoming `category_id`. */
module ZendeskClean {
  import opened JsonValue

  datatype CleanedArticle = CleanedArticle(
    id: Json,
    title: Json,
    content: Json,
    authorId: Json,
    createdAt: Json,
    updatedAt: Json,
    locale: Json,
    categoryId: Json)

  /** The metadata saved beside the articles; the `cleaned_at` stamp reads
      the clock and is not part of this model. */
  datatype Metadata = Metadata(count: nat, source: string)

  /** What the loop reads: `articles` absent or a list of objects. */
  predicate ExportOk(data: Dict)
  {
    ArrOrAbsent(data, "articles") && AllObjects(Items(data, "articles"))
  }

  function CleanArticle(a: Dict): CleanedArticle
  {
    CleanedArticle(
      Get(a, "id"), Get(a, "title"), Get(a, "body"), Get(a, "author_id"),
      Get(a, "created_at"), Get(a, "updated_at"), Get(a, "locale"), Get(a, "section_id"))
  }

  function CleanedOf(articles: seq<Json>): seq<CleanedArticle>
    requires AllObjects(articles)
  {
    seq(|articles|, k requires 0 <= k < |articles| => CleanArticle(articles[k].fields))
  }

  /** One cleaned article per article, in order: its content is the body,
      its category the section, and the other fields are the article's own,
      `None` where the article lacks them. */
  lemma CleanedKeepsOrder(articles: seq<Json>, k: int)
    requires AllObjects(articles) && 0 <= k < |articles|
    ensures var out := CleanedOf(articles); var a := articles[k].fields;
      && |out| == |articles|
      && out[k].content == Get(a, "body") && out[k].categoryId == Get(a, "section_id")
      && out[k].id == Get(a, "id") && out[k].title == Get(a, "title")
      && out[k].authorId == Get(a, "author_id") && out[k].locale == Get(a, "locale")
      && out[k].createdAt == Get(a, "created_at") && out[k].updatedAt == Get(a, "updated_at")
      && ("body" !in a ==> out[k].content == JNull)
  {
  }

  lemma CleanedSnoc(articles: seq<Json>, i: int)
    requires AllObjects(articles) && 0 <= i < |articles|
    ensures CleanedOf(articles[..i + 1]) == CleanedOf(articles[..i]) + [CleanArticle(articles[i].fields)]
  {
    var a, b := CleanedOf(articles[..i + 1]), CleanedOf(articles[..i]);
    assert forall k | 0 <= k < i :: a[k] == b[k];
  }

  /** `zendesk_clean_articles` without its file input and output. */
  method CleanArticles(data: Dict) returns (cleaned: seq<CleanedArticle>, metadata: Metadata)
    requires ExportOk(data)
    ensures cleaned == CleanedOf(Items(data, "articles"))
    ensures metadata == Metadata(|Items(data, "articles")|, "zendesk_articles")
  {
    var articles := Items(data, "articles");
    cleaned := [];
    for i := 0 to |articles|
      invariant cleaned == CleanedOf(articles[..i])
    {
      CleanedSnoc(articles, i);
      var article := articles[i].fields;
      cleaned := cleaned + [CleanedArticle(
        Get(article, "id"), Get(article, "title"), Get(article, "body"), Get(article, "author_id"),
        Get(article, "created_at"), Get(article, "updated_at"), Get(article, "locale"), Get(article, "section_id"))];
    }
    assert articles[..|articles|] == articles;
    metadata := Metadata(|cleaned|, "zendesk_articles");
  }
}
