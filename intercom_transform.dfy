/** The Intercom conversation transform: every message body is rendered to
    Markdown and prefixed with a date header built from its Unix timestamp,
    the source message becomes the conversation's description, its subject
    the title, and the other fields are carried over. */
module IntercomTransform {
  import opened JsonValue
  import opened Text
  import opened Render

  datatype TransformedMessage = TransformedMessage(
    id: Json,
    authorId: Json,
    authorType: Json,
    messageType: Json,
    authorName: Json,
    authorEmail: Json,
    content: string,
    createdAt: Json,
    attachments: Json)

  datatype TransformedSource = TransformedSource(authorName: Json, authorEmail: Json, description: string)

  datatype TransformedConversation = TransformedConversation(
    id: Json,
    title: Json,
    state: Json,
    open: Json,
    priority: Json,
    contactId: Json,
    adminAssigneeId: Json,
    teamAssigneeId: Json,
    createdAt: Json,
    updatedAt: Json,
    waitingSince: Json,
    tags: Json,
    source: TransformedSource,
    messages: seq<TransformedMessage>,
    messageCount: Json)

  const UnknownDate: string := "Date originale: inconnue"
  const RawDatePrefix: string := "Date originale: "

  /** The date header for a Unix timestamp: "unknown" when it is falsy, the
      rendered ISO date when the conversion succeeds, and the raw value
      after a fixed prefix when it raises. It never fails. */
  function DateHeader(createdAt: Json, r: Renderers): (h: string)
    requires IsScalar(createdAt)
    ensures !Truthy(createdAt) ==> h == UnknownDate
    ensures Truthy(createdAt) && r.isoFormat(createdAt).Some? ==>
      h == r.formatDateHeader(JStr(r.isoFormat(createdAt).value))
    ensures Truthy(createdAt) && r.isoFormat(createdAt).None? ==>
      StartsWith(h, RawDatePrefix) && h[|RawDatePrefix|..] == PyStr(createdAt)
  {
    if Truthy(createdAt) then
      match r.isoFormat(createdAt)
      case Some(iso) => r.formatDateHeader(JStr(iso))
      case None =>
        assert (RawDatePrefix + PyStr(createdAt))[..|RawDatePrefix|] == RawDatePrefix;
        RawDatePrefix + PyStr(createdAt)
    else UnknownDate
  }

  /** A message the loop can read: a truthy body is a string, and the
      timestamp is a scalar that `str()` can render. */
  predicate MessageOk(m: Json)
  {
    m.JObj? && StrOrFalsy(GetOr(m.fields, "body", JStr(""))) && IsScalar(GetOr(m.fields, "created_at", JStr("")))
  }

  predicate AllMessagesOk(ms: seq<Json>)
  {
    forall i | 0 <= i < |ms| :: MessageOk(ms[i])
  }

  /** A conversation the loop can read: its messages as above, `source`
      absent or an object whose truthy body and subject are strings, and a
      scalar timestamp. */
  predicate ConversationOk(c: Dict)
  {
    && ArrOrAbsent(c, "messages") && AllMessagesOk(Items(c, "messages"))
    && ObjOrAbsent(c, "source")
    && StrOrFalsy(GetOr(SubDict(c, "source"), "body", JStr("")))
    && StrOrFalsy(GetOr(SubDict(c, "source"), "subject", JStr("")))
    && IsScalar(GetOr(c, "created_at", JStr("")))
  }

  predicate AllConversationsOk(cs: seq<Dict>)
  {
    forall i | 0 <= i < |cs| :: ConversationOk(cs[i])
  }

  /** A message body rendered to Markdown; an empty or missing body gives "". */
  function MessageMarkdown(m: Json, r: Renderers): (md: string)
    requires MessageOk(m)
    ensures !Truthy(GetOr(m.fields, "body", JStr(""))) ==> md == ""
    ensures var body := GetOr(m.fields, "body", JStr(""));
      Truthy(body) ==> body.JStr? && md == r.htmlToMarkdown(body.s)
  {
    var body := GetOr(m.fields, "body", JStr(""));
    if Truthy(body) then r.htmlToMarkdown(body.s) else ""
  }

  /** One message: its identifying fields and timestamp are kept, its
      attachments default to an empty list, and its content starts with the
      date header. */
  function TransformMessage(m: Json, r: Renderers): (o: TransformedMessage)
    requires MessageOk(m)
    ensures && o.id == Get(m.fields, "id") && o.authorId == Get(m.fields, "author_id")
            && o.authorType == Get(m.fields, "author_type") && o.messageType == Get(m.fields, "message_type")
            && o.authorName == Get(m.fields, "author_name") && o.authorEmail == Get(m.fields, "author_email")
            && o.createdAt == Get(m.fields, "created_at")
    ensures "attachments" in m.fields ==> o.attachments == m.fields["attachments"]
    ensures "attachments" !in m.fields ==> o.attachments == JArr([])
    ensures StartsWith(o.content, DateHeader(GetOr(m.fields, "created_at", JStr("")), r))
  {
    var header := DateHeader(GetOr(m.fields, "created_at", JStr("")), r);
    var md := MessageMarkdown(m, r);
    assert (header + Separator + md)[..|header|] == header;
    TransformedMessage(
      Get(m.fields, "id"), Get(m.fields, "author_id"), Get(m.fields, "author_type"),
      Get(m.fields, "message_type"), Get(m.fields, "author_name"), Get(m.fields, "author_email"),
      WithHeader(DateHeader(GetOr(m.fields, "created_at", JStr("")), r), MessageMarkdown(m, r)),
      Get(m.fields, "created_at"),
      GetOr(m.fields, "attachments", JArr([])))
  }

  /** A message's content is its date header, followed by the separator and
      the Markdown when that is not empty; the Markdown reads back from it. */
  lemma MessageContent(m: Json, r: Renderers)
    requires MessageOk(m)
    ensures var header := DateHeader(GetOr(m.fields, "created_at", JStr("")), r);
      var md := MessageMarkdown(m, r);
      var content := TransformMessage(m, r).content;
      && (md != [] ==> BodyAfter(content, header) == Some(md))
      && (md == [] ==> content == header)
  {
    WithHeaderRoundTrip(DateHeader(GetOr(m.fields, "created_at", JStr("")), r), MessageMarkdown(m, r));
  }

  /** The description: empty when the source body is falsy, and otherwise the
      date header, the separator and the rendered body, the separator being
      there even when the rendering is empty. */
  function Description(c: Dict, r: Renderers): (d: string)
    requires ConversationOk(c)
    ensures d == [] <==> !Truthy(GetOr(SubDict(c, "source"), "body", JStr("")))
    ensures Truthy(GetOr(SubDict(c, "source"), "body", JStr(""))) ==>
      BodyAfter(d, DateHeader(GetOr(c, "created_at", JStr("")), r))
        == Some(r.htmlToMarkdown(GetOr(SubDict(c, "source"), "body", JStr("")).s))
  {
    var sourceBody := GetOr(SubDict(c, "source"), "body", JStr(""));
    if Truthy(sourceBody) then
      var h := DateHeader(GetOr(c, "created_at", JStr("")), r) + Separator;
      var body := r.htmlToMarkdown(sourceBody.s);
      assert (h + body)[..|h|] == h && (h + body)[|h|..] == body;
      h + body
    else ""
  }

  /** The title: the rendered subject with `<br>` as spaces, stripped, when
      the subject is truthy, and the conversation's own title (default "")
      otherwise. */
  function Title(c: Dict, r: Renderers): (t: Json)
    requires ConversationOk(c)
    ensures var subject := GetOr(SubDict(c, "source"), "subject", JStr(""));
      Truthy(subject) ==> subject.JStr? && t == JStr(Strip(Replace(r.htmlToMarkdown(subject.s), "<br>", " ")))
    ensures !Truthy(GetOr(SubDict(c, "source"), "subject", JStr(""))) ==> t == GetOr(c, "title", JStr(""))
  {
    var subject := GetOr(SubDict(c, "source"), "subject", JStr(""));
    if Truthy(subject) then JStr(Strip(Replace(r.htmlToMarkdown(subject.s), "<br>", " ")))
    else GetOr(c, "title", JStr(""))
  }

  /** A title built from a subject is the rendered subject, with `<br>` made
      a space, less only the whitespace around it: it has no `<br>` and no
      surrounding whitespace. */
  lemma TitleClean(c: Dict, r: Renderers)
    requires ConversationOk(c)
    requires Truthy(GetOr(SubDict(c, "source"), "subject", JStr("")))
    ensures Title(c, r).JStr?
    ensures exists i :: StripsTo(Replace(r.htmlToMarkdown(GetOr(SubDict(c, "source"), "subject", JStr("")).s), "<br>", " "), Title(c, r).s, i)
    ensures !Contains(Title(c, r).s, "<br>")
    ensures Title(c, r).s == [] || (!IsSpace(Title(c, r).s[0]) && !IsSpace(Title(c, r).s[|Title(c, r).s| - 1]))
  {
    var rendered := r.htmlToMarkdown(GetOr(SubDict(c, "source"), "subject", JStr("")).s);
    var s := Replace(rendered, "<br>", " ");
    assert Title(c, r) == JStr(Strip(s));
    ReplaceLeavesNoOccurrence(rendered, "<br>", " ");
    StripKeepsAbsence(s, "<br>");
  }

  function TransformMessagesOf(ms: seq<Json>, r: Renderers): seq<TransformedMessage>
    requires AllMessagesOk(ms)
  {
    seq(|ms|, k requires 0 <= k < |ms| => TransformMessage(ms[k], r))
  }

  function TransformConversation(c: Dict, r: Renderers): TransformedConversation
    requires ConversationOk(c)
  {
    var messages := TransformMessagesOf(Items(c, "messages"), r);
    var source := SubDict(c, "source");
    TransformedConversation(
      Get(c, "id"), Title(c, r), Get(c, "state"), Get(c, "open"), Get(c, "priority"),
      Get(c, "contact_id"), Get(c, "admin_assignee_id"), Get(c, "team_assignee_id"),
      Get(c, "created_at"), Get(c, "updated_at"), Get(c, "waiting_since"),
      GetOr(c, "tags", JArr([])),
      TransformedSource(Get(source, "author_name"), Get(source, "author_email"), Description(c, r)),
      messages,
      GetOr(c, "message_count", JInt(|messages|)))
  }

  /** A transformed conversation keeps the conversation's scalar fields and
      the source's author; its title falls back to the conversation's own
      `title` when the subject is falsy. */
  lemma ConversationFields(c: Dict, r: Renderers)
    requires ConversationOk(c)
    ensures var o := TransformConversation(c, r);
      && o.id == Get(c, "id") && o.state == Get(c, "state") && o.open == Get(c, "open")
      && o.priority == Get(c, "priority") && o.contactId == Get(c, "contact_id")
      && o.adminAssigneeId == Get(c, "admin_assignee_id") && o.teamAssigneeId == Get(c, "team_assignee_id")
      && o.createdAt == Get(c, "created_at") && o.updatedAt == Get(c, "updated_at")
      && o.waitingSince == Get(c, "waiting_since")
      && ("tags" in c ==> o.tags == c["tags"]) && ("tags" !in c ==> o.tags == JArr([]))
      && o.source.authorName == Get(SubDict(c, "source"), "author_name")
      && o.source.authorEmail == Get(SubDict(c, "source"), "author_email")
      && o.source.description == Description(c, r)
      && (!Truthy(GetOr(SubDict(c, "source"), "subject", JStr(""))) ==> o.title == GetOr(c, "title", JStr("")))
  {
  }

  function TransformConversationsOf(cs: seq<Dict>, r: Renderers): seq<TransformedConversation>
    requires AllConversationsOk(cs)
  {
    seq(|cs|, k requires 0 <= k < |cs| => TransformConversation(cs[k], r))
  }

  /** One transformed conversation per conversation and one transformed
      message per message, in order; `message_count` is the input's own when
      the key is there, and otherwise the number of messages. */
  lemma TransformKeepsOrder(cs: seq<Dict>, r: Renderers, i: int, k: int)
    requires AllConversationsOk(cs) && 0 <= i < |cs| && 0 <= k < |Items(cs[i], "messages")|
    ensures var out := TransformConversationsOf(cs, r);
      && |out| == |cs|
      && out[i].id == Get(cs[i], "id")
      && |out[i].messages| == |Items(cs[i], "messages")|
      && out[i].messages[k] == TransformMessage(Items(cs[i], "messages")[k], r)
      && out[i].messageCount == (if "message_count" in cs[i] then cs[i]["message_count"]
                                 else JInt(|Items(cs[i], "messages")|))
  {
  }

  lemma MessagesSnoc(ms: seq<Json>, r: Renderers, i: int)
    requires AllMessagesOk(ms) && 0 <= i < |ms|
    ensures TransformMessagesOf(ms[..i + 1], r) == TransformMessagesOf(ms[..i], r) + [TransformMessage(ms[i], r)]
  {
    var a, b := TransformMessagesOf(ms[..i + 1], r), TransformMessagesOf(ms[..i], r);
    var expected := b + [TransformMessage(ms[i], r)];
    forall k | 0 <= k < |a| ensures a[k] == expected[k] {
      if k < i {
        assert ms[..i + 1][k] == ms[..i][k];
      }
    }
    assert a == expected;
  }

  lemma ConversationsSnoc(cs: seq<Dict>, r: Renderers, i: int)
    requires AllConversationsOk(cs) && 0 <= i < |cs|
    ensures TransformConversationsOf(cs[..i + 1], r) == TransformConversationsOf(cs[..i], r) + [TransformConversation(cs[i], r)]
  {
    var a, b := TransformConversationsOf(cs[..i + 1], r), TransformConversationsOf(cs[..i], r);
    var expected := b + [TransformConversation(cs[i], r)];
    forall k | 0 <= k < |a| ensures a[k] == expected[k] {
      if k < i {
        assert cs[..i + 1][k] == cs[..i][k];
      }
    }
    assert a == expected;
  }

  /** The date header step of both loops: the `try` around the conversion
      and `format_date_header`, with its fallbacks. */
  method DateHeaderOf(createdAt: Json, r: Renderers) returns (header: string)
    requires IsScalar(createdAt)
    ensures header == DateHeader(createdAt, r)
  {
    if Truthy(createdAt) {
      var iso := r.isoFormat(createdAt);
      if iso.Some? {
        header := r.formatDateHeader(JStr(iso.value));
      } else {
        header := RawDatePrefix + PyStr(createdAt);
      }
    } else {
      header := UnknownDate;
    }
  }

  /** The inner loop of `intercom_transform_conversations`, over one
      conversation's messages. */
  method TransformMessages(messages: seq<Json>, r: Renderers) returns (transformed: seq<TransformedMessage>)
    requires AllMessagesOk(messages)
    ensures transformed == TransformMessagesOf(messages, r)
  {
    transformed := [];
    for i := 0 to |messages|
      invariant transformed == TransformMessagesOf(messages[..i], r)
    {
      MessagesSnoc(messages, r, i);
      var message := messages[i];
      var body := GetOr(message.fields, "body", JStr(""));
      var markdownContent := if Truthy(body) then r.htmlToMarkdown(body.s) else "";
      var dateHeader := DateHeaderOf(GetOr(message.fields, "created_at", JStr("")), r);
      var finalContent := if markdownContent != [] then dateHeader + Separator + markdownContent else dateHeader;
      transformed := transformed + [TransformedMessage(
        Get(message.fields, "id"), Get(message.fields, "author_id"), Get(message.fields, "author_type"),
        Get(message.fields, "message_type"), Get(message.fields, "author_name"), Get(message.fields, "author_email"),
        finalContent,
        Get(message.fields, "created_at"),
        GetOr(message.fields, "attachments", JArr([])))];
    }
    assert messages[..|messages|] == messages;
  }

  /** `intercom_transform_conversations` without its file input and output:
      the transformed conversations, and the `count` its metadata records. */
  method TransformConversations(conversations: seq<Dict>, r: Renderers)
    returns (transformed: seq<TransformedConversation>, count: nat)
    requires AllConversationsOk(conversations)
    ensures transformed == TransformConversationsOf(conversations, r)
    ensures count == |conversations|
  {
    transformed := [];
    for i := 0 to |conversations|
      invariant transformed == TransformConversationsOf(conversations[..i], r)
    {
      ConversationsSnoc(conversations, r, i);
      var conversation := conversations[i];
      var messages := TransformMessages(Items(conversation, "messages"), r);
      var source := SubDict(conversation, "source");
      var sourceBody := GetOr(source, "body", JStr(""));
      var createdAt := GetOr(conversation, "created_at", JStr(""));
      var transformedDescription: string;
      if Truthy(sourceBody) {
        var markdownDescription := r.htmlToMarkdown(sourceBody.s);
        var descriptionHeader := DateHeaderOf(createdAt, r);
        transformedDescription := descriptionHeader + Separator + markdownDescription;
      } else {
        transformedDescription := "";
      }
      var sourceSubject := GetOr(source, "subject", JStr(""));
      var cleanSubject: Json;
      if Truthy(sourceSubject) {
        cleanSubject := JStr(Strip(Replace(r.htmlToMarkdown(sourceSubject.s), "<br>", " ")));
      } else {
        cleanSubject := GetOr(conversation, "title", JStr(""));
      }
      transformed := transformed + [TransformedConversation(
        Get(conversation, "id"), cleanSubject, Get(conversation, "state"), Get(conversation, "open"),
        Get(conversation, "priority"), Get(conversation, "contact_id"), Get(conversation, "admin_assignee_id"),
        Get(conversation, "team_assignee_id"), Get(conversation, "created_at"), Get(conversation, "updated_at"),
        Get(conversation, "waiting_since"),
        GetOr(conversation, "tags", JArr([])),
        TransformedSource(Get(source, "author_name"), Get(source, "author_email"), transformedDescription),
        messages,
        GetOr(conversation, "message_count", JInt(|messages|)))];
    }
    assert conversations[..|conversations|] == conversations;
    count := |transformed|;
  }
}
