/** The Intercom article cleaner: each exported article is projected onto the
    fields the Chatwoot help center needs, with `body` becoming `content` and
    the `{tags: {tags: [{name}]}}` envelope flattened to a list of names. */
module IntercomClean {
  import opened JsonValue

  datatype CleanedArticle = CleanedArticle(
    id: Json,
    title: Json,
    description: Json,
    content: Json,
    authorId: Json,
    state: Json,
    parentId: Json,
    parentType: Json,
    createdAt: Json,
    updatedAt: Json,
    tags: seq<Json>,
    url: Json)

  /** The metadata saved beside the articles; the `cleaned_at` stamp reads
      the clock and is not part of this model. */
  datatype Metadata = Metadata(count: nat, source: string)

  /** The tag envelope holds a list of tags: `article.get('tags', {})` is an
      object with a `tags` key. Any other value gives no tags. */
  predicate HasTagList(a: Dict)
  {
    var t := GetOr(a, "tags", JObj(map[]));
    t.JObj? && "tags" in t.fields
  }

  /** What the loop reads: when the envelope has a `tags` key, it is a list of
      objects (iterating anything else, or `.get` on a non-object, raises). */
  predicate ArticleOk(a: Json)
  {
    a.JObj? &&
    (HasTagList(a.fields) ==>
      var list := GetOr(a.fields, "tags", JObj(map[])).fields["tags"];
      list.JArr? && AllObjects(list.items))
  }

  predicate ExportOk(data: Dict)
  {
    ArrOrAbsent(data, "articles") && forall k | 0 <= k < |Items(data, "articles")| :: ArticleOk(Items(data, "articles")[k])
  }

  /** The listed tags of an article that has a tag list. */
  function TagList(a: Json): seq<Json>
    requires ArticleOk(a) && HasTagList(a.fields)
  {
    GetOr(a.fields, "tags", JObj(map[])).fields["tags"].items
  }

  /** The flattened tags: each tag's `name`, '' when it has none. */
  function TagNames(a: Json): (names: seq<Json>)
    requires ArticleOk(a)
    ensures !HasTagList(a.fields) ==> names == []
    ensures HasTagList(a.fields) ==> |names| == |TagList(a)|
  {
    if HasTagList(a.fields) then
      var list := TagList(a);
      seq(|list|, k requires 0 <= k < |list| => GetOr(list[k].fields, "name", JStr("")))
    else []
  }

  function CleanArticle(a: Json): CleanedArticle
    requires ArticleOk(a)
  {
    var f := a.fields;
    CleanedArticle(
      Get(f, "id"), Get(f, "title"), Get(f, "description"), Get(f, "body"), Get(f, "author_id"),
      Get(f, "state"), Get(f, "parent_id"), Get(f, "parent_type"), Get(f, "created_at"),
      Get(f, "updated_at"), TagNames(a), Get(f, "url"))
  }

  function CleanedOf(articles: seq<Json>): seq<CleanedArticle>
    requires forall k | 0 <= k < |articles| :: ArticleOk(articles[k])
  {
    seq(|articles|, k requires 0 <= k < |articles| => CleanArticle(articles[k]))
  }

  /** One cleaned article per article, in order: its content is the body,
      its tags the names of its listed tags in order ('' for a tag without a
      name, none without a tag list), and the other fields are the article's
      own, `None` where the article lacks them. */
  lemma CleanedKeepsOrder(articles: seq<Json>, k: int, j: int)
    requires forall i | 0 <= i < |articles| :: ArticleOk(articles[i])
    requires 0 <= k < |articles|
    ensures var out := CleanedOf(articles); var a := articles[k].fields;
      && |out| == |articles|
      && out[k].content == Get(a, "body") && out[k].id == Get(a, "id")
      && out[k].title == Get(a, "title") && out[k].description == Get(a, "description")
      && out[k].authorId == Get(a, "author_id") && out[k].state == Get(a, "state")
      && out[k].parentId == Get(a, "parent_id") && out[k].parentType == Get(a, "parent_type")
      && out[k].createdAt == Get(a, "created_at") && out[k].updatedAt == Get(a, "updated_at")
      && out[k].url == Get(a, "url")
      && (!HasTagList(a) ==> out[k].tags == [])
      && (HasTagList(a) && 0 <= j < |TagList(articles[k])| ==>
            |out[k].tags| == |TagList(articles[k])|
            && out[k].tags[j] == GetOr(TagList(articles[k])[j].fields, "name", JStr(""))
            && ("name" !in TagList(articles[k])[j].fields ==> out[k].tags[j] == JStr("")))
  {
  }

  lemma CleanedSnoc(articles: seq<Json>, i: int)
    requires forall k | 0 <= k < |articles| :: ArticleOk(articles[k])
    requires 0 <= i < |articles|
    ensures CleanedOf(articles[..i + 1]) == CleanedOf(articles[..i]) + [CleanArticle(articles[i])]
  {
    var a, b := CleanedOf(articles[..i + 1]), CleanedOf(articles[..i]);
    assert forall k | 0 <= k < i :: a[k] == b[k];
  }

  /** `intercom_clean_articles` without its file input and output. */
  method CleanArticles(data: Dict) returns (cleaned: seq<CleanedArticle>, metadata: Metadata)
    requires ExportOk(data)
    ensures cleaned == CleanedOf(Items(data, "articles"))
    ensures metadata == Metadata(|Items(data, "articles")|, "intercom_articles")
  {
    var articles := Items(data, "articles");
    cleaned := [];
    for i := 0 to |articles|
      invariant cleaned == CleanedOf(articles[..i])
    {
      CleanedSnoc(articles, i);
      var article := articles[i];
      var tagsData := GetOr(article.fields, "tags", JObj(map[]));
      var tags: seq<Json> := [];
      if tagsData.JObj? && "tags" in tagsData.fields {
        var list := tagsData.fields["tags"].items;
        tags := seq(|list|, k requires 0 <= k < |list| => GetOr(list[k].fields, "name", JStr("")));
      }
      var f := article.fields;
      cleaned := cleaned + [CleanedArticle(
        Get(f, "id"), Get(f, "title"), Get(f, "description"), Get(f, "body"), Get(f, "author_id"),
        Get(f, "state"), Get(f, "parent_id"), Get(f, "parent_type"), Get(f, "created_at"),
        Get(f, "updated_at"), tags, Get(f, "url"))];
    }
    assert articles[..|articles|] == articles;
    metadata := Metadata(|cleaned|, "intercom_articles");
  }
}
