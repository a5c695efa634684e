/** The Zendesk ticket transform: every comment's body is rendered to
    Markdown and prefixed with a date header, every ticket's description
    likewise, and the ticket's other fields are carried over. */
module ZendeskTransform {
  import opened JsonValue
  import opened Text
  import opened Render

  datatype TransformedComment = TransformedComment(
    id: Json,
    authorId: Json,
    content: string,
    public: Json,
    createdAt: Json,
    attachments: Json)

  datatype TransformedTicket = TransformedTicket(
    id: Json,
    subject: Json,
    description: string,
    status: Json,
    priority: Json,
    ticketType: Json,
    requesterId: Json,
    assigneeId: Json,
    groupId: Json,
    organizationId: Json,
    createdAt: Json,
    updatedAt: Json,
    tags: Json,
    comments: seq<TransformedComment>)

  /** A comment the loop can read: a truthy `html_body` is a string, and when
      it is not truthy, `body` (default "") is a string for `.replace`. */
  predicate CommentOk(c: Json)
  {
    && c.JObj?
    && StrOrFalsy(GetOr(c.fields, "html_body", JStr("")))
    && (!Truthy(GetOr(c.fields, "html_body", JStr(""))) ==> GetOr(c.fields, "body", JStr("")).JStr?)
  }

  predicate AllCommentsOk(cs: seq<Json>)
  {
    forall i | 0 <= i < |cs| :: CommentOk(cs[i])
  }

  /** A ticket the loop can read: its comments as above, and a truthy
      description is a string. */
  predicate TicketOk(t: Dict)
  {
    && ArrOrAbsent(t, "comments") && AllCommentsOk(Items(t, "comments"))
    && StrOrFalsy(GetOr(t, "description", JStr("")))
  }

  predicate AllTicketsOk(ts: seq<Dict>)
  {
    forall i | 0 <= i < |ts| :: TicketOk(ts[i])
  }

  /** The Markdown of a comment: its HTML body rendered when truthy, and
      otherwise its plain body with newlines as `<br>`, cleaned when that is
      not empty. */
  function CommentMarkdown(c: Json, r: Renderers): (md: string)
    requires CommentOk(c)
    ensures Truthy(GetOr(c.fields, "html_body", JStr(""))) ==>
      md == r.htmlToMarkdown(GetOr(c.fields, "html_body", JStr("")).s)
    ensures !Truthy(GetOr(c.fields, "html_body", JStr(""))) && GetOr(c.fields, "body", JStr("")) == JStr("") ==> md == ""
  {
    var html := GetOr(c.fields, "html_body", JStr(""));
    if Truthy(html) then r.htmlToMarkdown(html.s)
    else
      var md := NewlinesToBr(GetOr(c.fields, "body", JStr("")).s);
      if md != [] then r.cleanMarkdown(md) else md
  }

  /** The plain body handed to `clean_markdown_formatting` has no newline
      left, and it is handed over exactly when the body is not empty. */
  lemma PlainBodyCleaned(c: Json, r: Renderers)
    requires CommentOk(c) && !Truthy(GetOr(c.fields, "html_body", JStr("")))
    ensures var body := GetOr(c.fields, "body", JStr("")).s;
      && (body != [] ==> CommentMarkdown(c, r) == r.cleanMarkdown(NewlinesToBr(body)))
      && !Contains(NewlinesToBr(body), "\n")
  {
  }

  /** One comment: its content starts with the date header and is exactly
      the header when the comment renders to nothing. */
  function TransformComment(c: Json, r: Renderers): (o: TransformedComment)
    requires CommentOk(c)
    ensures StartsWith(o.content, r.formatDateHeader(GetOr(c.fields, "created_at", JStr(""))))
    ensures o.content == r.formatDateHeader(GetOr(c.fields, "created_at", JStr(""))) <==> CommentMarkdown(c, r) == []
  {
    var header := r.formatDateHeader(GetOr(c.fields, "created_at", JStr("")));
    assert (header + Separator + CommentMarkdown(c, r))[..|header|] == header;
    TransformedComment(
      Get(c.fields, "id"),
      Get(c.fields, "author_id"),
      WithHeader(r.formatDateHeader(GetOr(c.fields, "created_at", JStr(""))), CommentMarkdown(c, r)),
      Get(c.fields, "public"),
      Get(c.fields, "created_at"),
      GetOr(c.fields, "attachments", JArr([])))
  }

  /** A comment's content is its date header, followed by the separator and
      the Markdown when that is not empty; the Markdown reads back from it. */
  lemma CommentContent(c: Json, r: Renderers)
    requires CommentOk(c)
    ensures var header := r.formatDateHeader(GetOr(c.fields, "created_at", JStr("")));
      var md := CommentMarkdown(c, r);
      var content := TransformComment(c, r).content;
      && (md != [] ==> BodyAfter(content, header) == Some(md))
      && (md == [] ==> content == header)
  {
    WithHeaderRoundTrip(r.formatDateHeader(GetOr(c.fields, "created_at", JStr(""))), CommentMarkdown(c, r));
  }

  /** A ticket's description: empty when the source description is falsy,
      and otherwise its date header, the separator and the cleaned
      description with newlines as `<br>`, even when cleaning yields "". */
  function TicketDescription(t: Dict, r: Renderers): (d: string)
    requires TicketOk(t)
    ensures d == [] <==> !Truthy(GetOr(t, "description", JStr("")))
    ensures Truthy(GetOr(t, "description", JStr(""))) ==>
      BodyAfter(d, r.formatDateHeader(GetOr(t, "created_at", JStr(""))))
        == Some(r.cleanMarkdown(NewlinesToBr(GetOr(t, "description", JStr("")).s)))
  {
    var description := GetOr(t, "description", JStr(""));
    if Truthy(description) then
      var header := r.formatDateHeader(GetOr(t, "created_at", JStr("")));
      var body := r.cleanMarkdown(NewlinesToBr(description.s));
      var h := header + Separator;
      assert (h + body)[..|h|] == h && (h + body)[|h|..] == body;
      h + body
    else ""
  }

  /** A transformed comment keeps the comment's id, author, visibility and
      date, and its attachments, `[]` when the key is absent. */
  lemma CommentFields(c: Json, r: Renderers)
    requires CommentOk(c)
    ensures var t := TransformComment(c, r);
      && t.id == Get(c.fields, "id") && t.authorId == Get(c.fields, "author_id")
      && t.public == Get(c.fields, "public") && t.createdAt == Get(c.fields, "created_at")
      && ("attachments" in c.fields ==> t.attachments == c.fields["attachments"])
      && ("attachments" !in c.fields ==> t.attachments == JArr([]))
  {
  }

  function TransformCommentsOf(cs: seq<Json>, r: Renderers): seq<TransformedComment>
    requires AllCommentsOk(cs)
  {
    seq(|cs|, k requires 0 <= k < |cs| => TransformComment(cs[k], r))
  }

  /** One ticket: one transformed comment per comment, in order, and a
      description that is empty exactly when the source's is falsy. */
  function TransformTicket(t: Dict, r: Renderers): (o: TransformedTicket)
    requires TicketOk(t)
    ensures |o.comments| == |Items(t, "comments")|
    ensures forall k | 0 <= k < |o.comments| :: o.comments[k].id == Get(Items(t, "comments")[k].fields, "id")
    ensures o.description == [] <==> !Truthy(GetOr(t, "description", JStr("")))
  {
    TransformedTicket(
      Get(t, "id"), Get(t, "subject"), TicketDescription(t, r), Get(t, "status"),
      Get(t, "priority"), Get(t, "type"), Get(t, "requester_id"), Get(t, "assignee_id"),
      Get(t, "group_id"), Get(t, "organization_id"), Get(t, "created_at"), Get(t, "updated_at"),
      GetOr(t, "tags", JArr([])),
      TransformCommentsOf(Items(t, "comments"), r))
  }

  /** A transformed ticket keeps the ticket's scalar fields, with missing
      keys as `None` and `tags` as `[]` when the key is absent. */
  lemma TicketFields(t: Dict, r: Renderers)
    requires TicketOk(t)
    ensures var o := TransformTicket(t, r);
      && o.id == Get(t, "id") && o.subject == Get(t, "subject") && o.status == Get(t, "status")
      && o.priority == Get(t, "priority") && o.ticketType == Get(t, "type")
      && o.requesterId == Get(t, "requester_id") && o.assigneeId == Get(t, "assignee_id")
      && o.groupId == Get(t, "group_id") && o.organizationId == Get(t, "organization_id")
      && o.createdAt == Get(t, "created_at") && o.updatedAt == Get(t, "updated_at")
      && ("tags" in t ==> o.tags == t["tags"]) && ("tags" !in t ==> o.tags == JArr([]))
      && o.description == TicketDescription(t, r)
  {
  }

  function TransformTicketsOf(ts: seq<Dict>, r: Renderers): seq<TransformedTicket>
    requires AllTicketsOk(ts)
  {
    seq(|ts|, k requires 0 <= k < |ts| => TransformTicket(ts[k], r))
  }

  /** One transformed comment per comment, in order, and one transformed
      ticket per ticket, in order, each keeping its ticket's identity. */
  lemma TransformKeepsOrder(ts: seq<Dict>, r: Renderers, i: int, k: int)
    requires AllTicketsOk(ts) && 0 <= i < |ts| && 0 <= k < |Items(ts[i], "comments")|
    ensures var out := TransformTicketsOf(ts, r);
      && |out| == |ts|
      && out[i].id == Get(ts[i], "id") && out[i].requesterId == Get(ts[i], "requester_id")
      && |out[i].comments| == |Items(ts[i], "comments")|
      && out[i].comments[k] == TransformComment(Items(ts[i], "comments")[k], r)
      && out[i].comments[k].id == Get(Items(ts[i], "comments")[k].fields, "id")
  {
  }

  lemma CommentsSnoc(cs: seq<Json>, r: Renderers, i: int)
    requires AllCommentsOk(cs) && 0 <= i < |cs|
    ensures TransformCommentsOf(cs[..i + 1], r) == TransformCommentsOf(cs[..i], r) + [TransformComment(cs[i], r)]
  {
    var a, b := TransformCommentsOf(cs[..i + 1], r), TransformCommentsOf(cs[..i], r);
    assert forall k | 0 <= k < i :: a[k] == b[k];
  }

  lemma TicketsSnoc(ts: seq<Dict>, r: Renderers, i: int)
    requires AllTicketsOk(ts) && 0 <= i < |ts|
    ensures TransformTicketsOf(ts[..i + 1], r) == TransformTicketsOf(ts[..i], r) + [TransformTicket(ts[i], r)]
  {
    var a, b := TransformTicketsOf(ts[..i + 1], r), TransformTicketsOf(ts[..i], r);
    assert forall k | 0 <= k < i :: a[k] == b[k];
  }

  /** The inner loop of `zendesk_transform_tickets`, over one ticket's
      comments. */
  method TransformComments(comments: seq<Json>, r: Renderers) returns (transformed: seq<TransformedComment>)
    requires AllCommentsOk(comments)
    ensures transformed == TransformCommentsOf(comments, r)
  {
    transformed := [];
    for i := 0 to |comments|
      invariant transformed == TransformCommentsOf(comments[..i], r)
    {
      CommentsSnoc(comments, r, i);
      var comment := comments[i];
      var htmlBody := GetOr(comment.fields, "html_body", JStr(""));
      var markdownContent: string;
      if Truthy(htmlBody) {
        markdownContent := r.htmlToMarkdown(htmlBody.s);
      } else {
        var body := GetOr(comment.fields, "body", JStr(""));
        markdownContent := NewlinesToBr(body.s);
        if markdownContent != [] {
          markdownContent := r.cleanMarkdown(markdownContent);
        }
      }
      var dateHeader := r.formatDateHeader(GetOr(comment.fields, "created_at", JStr("")));
      var finalContent := if markdownContent != [] then dateHeader + Separator + markdownContent else dateHeader;
      transformed := transformed + [TransformedComment(
        Get(comment.fields, "id"),
        Get(comment.fields, "author_id"),
        finalContent,
        Get(comment.fields, "public"),
        Get(comment.fields, "created_at"),
        GetOr(comment.fields, "attachments", JArr([])))];
    }
    assert comments[..|comments|] == comments;
  }

  /** `zendesk_transform_tickets` without its file input and output: the
      transformed tickets, and the `count` its metadata records. */
  method TransformTickets(tickets: seq<Dict>, r: Renderers) returns (transformed: seq<TransformedTicket>, count: nat)
    requires AllTicketsOk(tickets)
    ensures transformed == TransformTicketsOf(tickets, r)
    ensures count == |tickets|
  {
    transformed := [];
    for i := 0 to |tickets|
      invariant transformed == TransformTicketsOf(tickets[..i], r)
    {
      TicketsSnoc(tickets, r, i);
      var ticket := tickets[i];
      var comments := TransformComments(Items(ticket, "comments"), r);
      var description := GetOr(ticket, "description", JStr(""));
      var transformedDescription: string;
      if Truthy(description) {
        var descriptionWithBr := NewlinesToBr(description.s);
        var cleanedDescription := r.cleanMarkdown(descriptionWithBr);
        var descriptionHeader := r.formatDateHeader(GetOr(ticket, "created_at", JStr("")));
        transformedDescription := descriptionHeader + Separator + cleanedDescription;
      } else {
        transformedDescription := "";
      }
      transformed := transformed + [TransformedTicket(
        Get(ticket, "id"), Get(ticket, "subject"), transformedDescription, Get(ticket, "status"),
        Get(ticket, "priority"), Get(ticket, "type"), Get(ticket, "requester_id"), Get(ticket, "assignee_id"),
        Get(ticket, "group_id"), Get(ticket, "organization_id"), Get(ticket, "created_at"), Get(ticket, "updated_at"),
        GetOr(ticket, "tags", JArr([])),
        comments)];
    }
    assert tickets[..|tickets|] == tickets;
    count := |transformed|;
  }
}
