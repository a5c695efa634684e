/** Conversation preparation for the Chatwoot import: the prepared contacts
    are indexed by their Zendesk and Intercom ids, every Zendesk ticket and
    Intercom conversation is resolved to a contact e-mail through those
    indexes, and each resolved one is reshaped into one conversation with its
    messages; the ones that resolve to no e-mail are counted as orphans. */
module PrepareConversations {
  import opened JsonValue
  import opened Text
  import C = PrepareContacts

  // ---------------------------------------------------------------------
  // The contact indexes
  // ---------------------------------------------------------------------

  /** A contact the index loop can read: when its id in `field` is truthy,
      the id must be usable as a dictionary key (no list or object) and the
      contact must have an `email` key. */
  predicate Indexable(c: Dict, field: string)
  {
    Truthy(Get(c, field)) ==> IsScalar(Get(c, field)) && "email" in c
  }

  predicate AllIndexable(cs: seq<Dict>, field: string)
  {
    forall i | 0 <= i < |cs| :: Indexable(cs[i], field)
  }

  /** An id-to-e-mail index. */
  type Index = map<Json, Json>

  /** The index the loop has built after the contacts `cs`: each contact with
      a truthy id sets that id to its e-mail. */
  function BuildIndex(cs: seq<Dict>, field: string): Index
    requires AllIndexable(cs, field)
  {
    if cs == [] then map[]
    else
      var m := BuildIndex(cs[..|cs| - 1], field);
      var c := cs[|cs| - 1];
      if Truthy(Get(c, field)) then m[Get(c, field) := c["email"]] else m
  }

  /** Some contact among `cs` carries the truthy id `id` in `field`. */
  predicate Carries(cs: seq<Dict>, field: string, id: Json)
  {
    exists i | 0 <= i < |cs| :: Truthy(Get(cs[i], field)) && Get(cs[i], field) == id
  }

  /** The index holds exactly the truthy ids some contact carries. */
  lemma {:induction false} BuildIndexDomain(cs: seq<Dict>, field: string, id: Json)
    requires AllIndexable(cs, field)
    ensures id in BuildIndex(cs, field) <==> Carries(cs, field, id)
    decreases |cs|
  {
    if cs != [] {
      var p := cs[..|cs| - 1];
      BuildIndexDomain(p, field, id);
      if Carries(p, field, id) {
        var i :| 0 <= i < |p| && Truthy(Get(p[i], field)) && Get(p[i], field) == id;
        assert cs[i] == p[i];
      }
      if Carries(cs, field, id) {
        var i :| 0 <= i < |cs| && Truthy(Get(cs[i], field)) && Get(cs[i], field) == id;
        if i < |p| {
          assert p[i] == cs[i];
        }
      }
    }
  }

  /** A repeated id maps to the e-mail of the last contact that carries it. */
  lemma {:induction false} BuildIndexLastWins(cs: seq<Dict>, field: string, t: int)
    requires AllIndexable(cs, field)
    requires 0 <= t < |cs| && Truthy(Get(cs[t], field))
    requires forall u | t < u < |cs| :: Get(cs[u], field) != Get(cs[t], field)
    ensures Get(cs[t], field) in BuildIndex(cs, field)
    ensures BuildIndex(cs, field)[Get(cs[t], field)] == cs[t]["email"]
    decreases |cs|
  {
    if t < |cs| - 1 {
      var p := cs[..|cs| - 1];
      assert p[t] == cs[t];
      BuildIndexLastWins(p, field, t);
    }
  }

  /** `load_contact_index`'s loop: both indexes are filled in one pass over
      the contacts. */
  method LoadContactIndex(contacts: seq<Dict>) returns (zendeskIndex: Index, intercomIndex: Index)
    requires AllIndexable(contacts, "zendesk_id") && AllIndexable(contacts, "intercom_id")
    ensures zendeskIndex == BuildIndex(contacts, "zendesk_id")
    ensures intercomIndex == BuildIndex(contacts, "intercom_id")
  {
    zendeskIndex, intercomIndex := map[], map[];
    for i := 0 to |contacts|
      invariant zendeskIndex == BuildIndex(contacts[..i], "zendesk_id")
      invariant intercomIndex == BuildIndex(contacts[..i], "intercom_id")
    {
      var contact := contacts[i];
      assert contacts[..i + 1][..i] == contacts[..i];
      if Truthy(Get(contact, "zendesk_id")) {
        zendeskIndex := zendeskIndex[contact["zendesk_id"] := contact["email"]];
      }
      if Truthy(Get(contact, "intercom_id")) {
        intercomIndex := intercomIndex[contact["intercom_id"] := contact["email"]];
      }
    }
    assert contacts[..|contacts|] == contacts;
  }

  // ---------------------------------------------------------------------
  // Statuses and directions
  // ---------------------------------------------------------------------

  /** A Zendesk status: 'solved' and 'closed' become 'resolved', any other
      value is kept. */
  function ZendeskStatus(status: Json): (r: Json)
    ensures r == JStr("resolved") <==> status in {JStr("solved"), JStr("closed"), JStr("resolved")}
    ensures r != JStr("solved") && r != JStr("closed")
    ensures r != JStr("resolved") ==> r == status
  {
    if status == JStr("solved") || status == JStr("closed") then JStr("resolved") else status
  }

  /** An Intercom state: 'closed' becomes 'resolved', anything else 'open'. */
  function IntercomStatus(state: Json): (r: Json)
    ensures r == JStr("resolved") <==> state == JStr("closed")
    ensures r == JStr("resolved") || r == JStr("open")
  {
    if state == JStr("closed") then JStr("resolved") else JStr("open")
  }

  datatype Direction = Incoming | Outgoing

  /** An Intercom author type: only 'user' is the customer; 'admin' and any
      other value are the agent side. */
  function IntercomDirection(authorType: Json): (d: Direction)
    ensures d == Incoming <==> authorType == JStr("user")
  {
    if authorType == JStr("admin") then Outgoing
    else if authorType == JStr("user") then Incoming
    else Outgoing
  }

  // ---------------------------------------------------------------------
  // Messages
  // ---------------------------------------------------------------------

  /** A prepared message. `contentTypeMsg` and `attachments` are `None` when
      the key is not written: only Intercom messages carry
      `content_type_msg`, and the Intercom opening message carries neither. */
  datatype Message = Message(
    content: string,
    contentTypeMsg: Option<Json>,
    messageType: Direction,
    authorName: Json,
    createdAt: Json,
    attachments: Option<Json>)

  /** HTML line breaks become newlines. */
  function Unbreak(s: string): (r: string)
    ensures !Contains(r, "<br>")
    ensures !Contains(s, "<br>") ==> r == s
  {
    ReplaceLeavesNoOccurrence(s, "<br>", "\n");
    if !Contains(s, "<br>") then ReplaceAbsent(s, "<br>", "\n"); Replace(s, "<br>", "\n")
    else Replace(s, "<br>", "\n")
  }

  /** A message whose `content` is a string, as `.replace` needs. */
  predicate HasContent(j: Json)
  {
    j.JObj? && "content" in j.fields && j.fields["content"].JStr?
  }

  predicate AllHaveContent(xs: seq<Json>)
  {
    forall i | 0 <= i < |xs| :: HasContent(xs[i])
  }

  /** One Zendesk comment: it is the customer's exactly when its author is the
      ticket's requester. */
  function ZendeskMessage(comment: Json, requester: Json): (m: Message)
    requires HasContent(comment)
    ensures m.messageType == Incoming <==> Get(comment.fields, "author_id") == requester
    ensures m.authorName == JStr("Client") <==> m.messageType == Incoming
    ensures m.authorName == JStr("Agent") <==> m.messageType == Outgoing
    ensures !Contains(m.content, "<br>")
    ensures m.contentTypeMsg.None? && m.attachments.Some?
  {
    var client := Get(comment.fields, "author_id") == requester;
    Message(
      Unbreak(comment.fields["content"].s),
      None,
      if client then Incoming else Outgoing,
      JStr(if client then "Client" else "Agent"),
      Get(comment.fields, "created_at"),
      Some(GetOr(comment.fields, "attachments", JArr([]))))
  }

  /** One Intercom message, its direction taken from its author type. */
  function IntercomMessage(msg: Json): (m: Message)
    requires HasContent(msg)
    ensures m.messageType == Incoming <==> Get(msg.fields, "author_type") == JStr("user")
    ensures !Contains(m.content, "<br>")
    ensures m.contentTypeMsg == Some(Get(msg.fields, "message_type"))
    ensures m.authorName == GetOr(msg.fields, "author_name", JStr("Unknown"))
    ensures m.attachments.Some?
  {
    Message(
      Unbreak(msg.fields["content"].s),
      Some(Get(msg.fields, "message_type")),
      IntercomDirection(Get(msg.fields, "author_type")),
      GetOr(msg.fields, "author_name", JStr("Unknown")),
      Get(msg.fields, "created_at"),
      Some(GetOr(msg.fields, "attachments", JArr([]))))
  }

  /** The Intercom conversation's `source`: what `data.get('source', {})`
      reads, an object when present. */
  predicate SourceOk(d: Dict)
  {
    ObjOrAbsent(d, "source") && StrOrFalsy(Get(SubDict(d, "source"), "description"))
  }

  /** The customer's opening message, when the conversation's source has a
      truthy description; its author defaults to 'Client' only when the key
      is absent. */
  function OpeningMessage(d: Dict): (o: Option<Message>)
    requires SourceOk(d)
    ensures o.Some? <==> Truthy(Get(SubDict(d, "source"), "description"))
    ensures o.Some? ==> o.value.messageType == Incoming && !Contains(o.value.content, "<br>")
    ensures o.Some? ==> o.value.attachments.None? && o.value.contentTypeMsg.None?
    ensures o.Some? ==> o.value.authorName == GetOr(SubDict(d, "source"), "author_name", JStr("Client"))
  {
    var src := SubDict(d, "source");
    var desc := Get(src, "description");
    if Truthy(desc) then
      Some(Message(Unbreak(desc.s), None, Incoming, GetOr(src, "author_name", JStr("Client")), Get(d, "created_at"), None))
    else None
  }

  // ---------------------------------------------------------------------
  // Conversations
  // ---------------------------------------------------------------------

  /** A prepared conversation. */
  datatype Conversation = Conversation(
    contactEmail: Json,
    title: Json,
    status: Json,
    zendeskTicketId: Json,
    intercomConversationId: Json,
    createdAt: Json,
    tags: Json,
    additionalAttributes: Dict,
    messages: seq<Message>)

  /** What `format_conversation` needs of a record: the message list is a
      list of objects with string contents, and for Intercom the source is an
      object whose description is a string when truthy. */
  predicate Formattable(d: Dict, src: C.Source)
  {
    match src
    case Zendesk => ArrOrAbsent(d, "comments") && AllHaveContent(Items(d, "comments"))
    case Intercom => SourceOk(d) && ArrOrAbsent(d, "messages") && AllHaveContent(Items(d, "messages"))
  }

  function ZendeskMessages(comments: seq<Json>, requester: Json): (ms: seq<Message>)
    requires AllHaveContent(comments)
  {
    seq(|comments|, k requires 0 <= k < |comments| => ZendeskMessage(comments[k], requester))
  }

  function IntercomMessages(msgs: seq<Json>): (ms: seq<Message>)
    requires AllHaveContent(msgs)
  {
    seq(|msgs|, k requires 0 <= k < |msgs| => IntercomMessage(msgs[k]))
  }

  function Opening(o: Option<Message>): seq<Message>
  {
    if o.Some? then [o.value] else []
  }

  /** A ticket as a conversation of its contact. */
  function ZendeskConversation(d: Dict, email: Json): Conversation
    requires Formattable(d, C.Zendesk)
  {
    Conversation(
      email,
      GetOr(d, "subject", JStr("Sans titre")),
      ZendeskStatus(Get(d, "status")),
      Get(d, "id"),
      JNull,
      Get(d, "created_at"),
      GetOr(d, "tags", JArr([])),
      map["priority" := Get(d, "priority"), "type" := Get(d, "type"),
          "assignee_id" := Get(d, "assignee_id"), "group_id" := Get(d, "group_id")],
      ZendeskMessages(Items(d, "comments"), Get(d, "requester_id")))
  }

  /** An Intercom conversation, its opening message first. */
  function IntercomConversation(d: Dict, email: Json): Conversation
    requires Formattable(d, C.Intercom)
  {
    Conversation(
      email,
      GetOr(d, "title", JStr("Sans titre")),
      IntercomStatus(Get(d, "state")),
      JNull,
      Get(d, "id"),
      Get(d, "created_at"),
      GetOr(d, "tags", JArr([])),
      map["priority" := Get(d, "priority"), "admin_assignee_id" := Get(d, "admin_assignee_id"),
          "team_assignee_id" := Get(d, "team_assignee_id")],
      Opening(OpeningMessage(d)) + IntercomMessages(Items(d, "messages")))
  }

  function FormatOf(d: Dict, src: C.Source, email: Json): Conversation
    requires Formattable(d, src)
  {
    match src
    case Zendesk => ZendeskConversation(d, email)
    case Intercom => IntercomConversation(d, email)
  }

  /** A ticket keeps its comments one for one and in order; each is the
      customer's exactly when written by the requester, and no message keeps
      an HTML line break. */
  lemma ZendeskConversationMessages(d: Dict, email: Json, k: int)
    requires Formattable(d, C.Zendesk)
    requires 0 <= k < |Items(d, "comments")|
    ensures var c := ZendeskConversation(d, email);
      && |c.messages| == |Items(d, "comments")|
      && c.messages[k] == ZendeskMessage(Items(d, "comments")[k], Get(d, "requester_id"))
      && (c.messages[k].messageType == Incoming <==>
          Get(Items(d, "comments")[k].fields, "author_id") == Get(d, "requester_id"))
      && !Contains(c.messages[k].content, "<br>")
  {
  }

  /** An Intercom conversation has one message per input message, in order,
      after one extra incoming opening message exactly when the source
      description is truthy. */
  lemma IntercomConversationMessages(d: Dict, email: Json, k: int)
    requires Formattable(d, C.Intercom)
    requires 0 <= k < |Items(d, "messages")|
    ensures var c := IntercomConversation(d, email);
      var extra := if Truthy(Get(SubDict(d, "source"), "description")) then 1 else 0;
      && |c.messages| == |Items(d, "messages")| + extra
      && c.messages[extra + k] == IntercomMessage(Items(d, "messages")[k])
      && (extra == 1 ==> c.messages[0].messageType == Incoming)
  {
  }

  lemma ZendeskMessagesSnoc(comments: seq<Json>, i: int, requester: Json)
    requires AllHaveContent(comments) && 0 <= i < |comments|
    ensures ZendeskMessages(comments[..i + 1], requester)
      == ZendeskMessages(comments[..i], requester) + [ZendeskMessage(comments[i], requester)]
  {
    var a, b := ZendeskMessages(comments[..i + 1], requester), ZendeskMessages(comments[..i], requester);
    assert a[i] == ZendeskMessage(comments[i], requester);
    assert forall k | 0 <= k < i :: a[k] == b[k];
  }

  lemma IntercomMessagesSnoc(msgs: seq<Json>, i: int)
    requires AllHaveContent(msgs) && 0 <= i < |msgs|
    ensures IntercomMessages(msgs[..i + 1]) == IntercomMessages(msgs[..i]) + [IntercomMessage(msgs[i])]
  {
    var a, b := IntercomMessages(msgs[..i + 1]), IntercomMessages(msgs[..i]);
    assert a[i] == IntercomMessage(msgs[i]);
    assert forall k | 0 <= k < i :: a[k] == b[k];
  }

  /** The Zendesk loop of `format_conversation`: one message per comment. */
  method ZendeskMessagesLoop(comments: seq<Json>, requester: Json) returns (messages: seq<Message>)
    requires AllHaveContent(comments)
    ensures messages == ZendeskMessages(comments, requester)
  {
    messages := [];
    for i := 0 to |comments|
      invariant messages == ZendeskMessages(comments[..i], requester)
    {
      ZendeskMessagesSnoc(comments, i, requester);
      var comment := comments[i];
      var isClientMessage := Get(comment.fields, "author_id") == requester;
      messages := messages + [Message(
        Unbreak(comment.fields["content"].s),
        None,
        if isClientMessage then Incoming else Outgoing,
        JStr(if isClientMessage then "Client" else "Agent"),
        Get(comment.fields, "created_at"),
        Some(GetOr(comment.fields, "attachments", JArr([]))))];
    }
    assert comments[..|comments|] == comments;
  }

  /** The Intercom loop of `format_conversation`: one message per input
      message. */
  method IntercomMessagesLoop(msgs: seq<Json>) returns (messages: seq<Message>)
    requires AllHaveContent(msgs)
    ensures messages == IntercomMessages(msgs)
  {
    messages := [];
    for i := 0 to |msgs|
      invariant messages == IntercomMessages(msgs[..i])
    {
      IntercomMessagesSnoc(msgs, i);
      var msg := msgs[i];
      var messageType: Direction;
      if Get(msg.fields, "author_type") == JStr("admin") {
        messageType := Outgoing;
      } else if Get(msg.fields, "author_type") == JStr("user") {
        messageType := Incoming;
      } else {
        messageType := Outgoing;
      }
      assert messageType == IntercomDirection(Get(msg.fields, "author_type"));
      messages := messages + [Message(
        Unbreak(msg.fields["content"].s),
        Some(Get(msg.fields, "message_type")),
        messageType,
        GetOr(msg.fields, "author_name", JStr("Unknown")),
        Get(msg.fields, "created_at"),
        Some(GetOr(msg.fields, "attachments", JArr([]))))];
    }
    assert msgs[..|msgs|] == msgs;
  }

  /** The Intercom part of `format_conversation`: the opening message, then
      one message per input message. */
  method IntercomMessagesWithOpening(d: Dict) returns (messages: seq<Message>)
    requires Formattable(d, C.Intercom)
    ensures messages == Opening(OpeningMessage(d)) + IntercomMessages(Items(d, "messages"))
  {
    messages := [];
    var source := SubDict(d, "source");
    var sourceDesc := Get(source, "description");
    if Truthy(sourceDesc) {
      var authorName := GetOr(source, "author_name", JStr("Client"));
      messages := messages + [Message(Unbreak(sourceDesc.s), None, Incoming, authorName, Get(d, "created_at"), None)];
    }
    var rest := IntercomMessagesLoop(Items(d, "messages"));
    messages := messages + rest;
  }

  /** `format_conversation`. */
  method FormatConversation(d: Dict, src: C.Source, email: Json) returns (conv: Conversation)
    requires Formattable(d, src)
    ensures conv == FormatOf(d, src, email)
  {
    if src == C.Zendesk {
      var messages := ZendeskMessagesLoop(Items(d, "comments"), Get(d, "requester_id"));
      var status := if Get(d, "status") in [JStr("solved"), JStr("closed")] then JStr("resolved") else Get(d, "status");
      assert status == ZendeskStatus(Get(d, "status"));
      conv := Conversation(
        email,
        GetOr(d, "subject", JStr("Sans titre")),
        status,
        Get(d, "id"),
        JNull,
        Get(d, "created_at"),
        GetOr(d, "tags", JArr([])),
        map["priority" := Get(d, "priority"), "type" := Get(d, "type"),
            "assignee_id" := Get(d, "assignee_id"), "group_id" := Get(d, "group_id")],
        messages);
    } else {
      var messages := IntercomMessagesWithOpening(d);
      conv := Conversation(
        email,
        GetOr(d, "title", JStr("Sans titre")),
        if Get(d, "state") == JStr("closed") then JStr("resolved") else JStr("open"),
        JNull,
        Get(d, "id"),
        Get(d, "created_at"),
        GetOr(d, "tags", JArr([])),
        map["priority" := Get(d, "priority"), "admin_assignee_id" := Get(d, "admin_assignee_id"),
            "team_assignee_id" := Get(d, "team_assignee_id")],
        messages);
    }
  }

  // ---------------------------------------------------------------------
  // Association
  // ---------------------------------------------------------------------

  /** The field that names a record's contact. */
  function ContactField(src: C.Source): string
  {
    match src
    case Zendesk => "requester_id"
    case Intercom => "contact_id"
  }

  /** `index.get(id)` when it is truthy. */
  function Resolve(index: Index, id: Json): (r: Option<Json>)
    ensures r.Some? <==> id in index && Truthy(index[id])
    ensures r.Some? ==> r.value == index[id]
  {
    var email := if id in index then index[id] else JNull;
    if Truthy(email) then Some(email) else None
  }

  /** A record the association loop can handle: its contact id can be looked
      up, and if it resolves, `format_conversation` can read it. */
  predicate Associable(d: Dict, src: C.Source, index: Index)
  {
    IsScalar(Get(d, ContactField(src)))
    && (Resolve(index, Get(d, ContactField(src))).Some? ==> Formattable(d, src))
  }

  predicate AllAssociable(ds: seq<Dict>, src: C.Source, index: Index)
  {
    forall i | 0 <= i < |ds| :: Associable(ds[i], src, index)
  }

  /** The pair one record contributes: itself with its e-mail, when it
      resolves. */
  function Pick(d: Dict, src: C.Source, index: Index): seq<(Dict, Json)>
  {
    match Resolve(index, Get(d, ContactField(src)))
    case Some(email) => [(d, email)]
    case None => []
  }

  /** The records of one source that resolve to an e-mail, each with that
      e-mail, in input order. */
  function Resolved(ds: seq<Dict>, src: C.Source, index: Index): seq<(Dict, Json)>
  {
    if ds == [] then [] else Resolved(ds[..|ds| - 1], src, index) + Pick(ds[|ds| - 1], src, index)
  }

  /** The records of one source that resolve to no e-mail. */
  function Orphans(ds: seq<Dict>, src: C.Source, index: Index): nat
  {
    if ds == [] then 0
    else Orphans(ds[..|ds| - 1], src, index) + if Pick(ds[|ds| - 1], src, index) == [] then 1 else 0
  }

  /** Resolution keeps the input order: it distributes over concatenation. */
  lemma {:induction false} ResolvedAppend(a: seq<Dict>, b: seq<Dict>, src: C.Source, index: Index)
    ensures Resolved(a + b, src, index) == Resolved(a, src, index) + Resolved(b, src, index)
    decreases |b|
  {
    if b == [] {
      assert a + b == a;
    } else {
      var b', x := b[..|b| - 1], b[|b| - 1];
      ResolvedAppend(a, b', src, index);
      assert (a + b)[..|a + b| - 1] == a + b' && (a + b)[|a + b| - 1] == x;
      calc {
        Resolved(a + b, src, index);
        Resolved(a + b', src, index) + Pick(x, src, index);
        Resolved(a, src, index) + Resolved(b', src, index) + Pick(x, src, index);
        Resolved(a, src, index) + (Resolved(b', src, index) + Pick(x, src, index));
      }
    }
  }

  /** The orphan count distributes over concatenation too. */
  lemma {:induction false} OrphansAppend(a: seq<Dict>, b: seq<Dict>, src: C.Source, index: Index)
    ensures Orphans(a + b, src, index) == Orphans(a, src, index) + Orphans(b, src, index)
    decreases |b|
  {
    if b == [] {
      assert a + b == a;
    } else {
      var b', x := b[..|b| - 1], b[|b| - 1];
      OrphansAppend(a, b', src, index);
      assert (a + b)[..|a + b| - 1] == a + b' && (a + b)[|a + b| - 1] == x;
      var o := if Pick(x, src, index) == [] then 1 else 0;
      assert Orphans(a + b, src, index) == Orphans(a + b', src, index) + o;
      assert Orphans(b, src, index) == Orphans(b', src, index) + o;
    }
  }

  /** Every record is either resolved once or counted as an orphan. */
  lemma {:induction false} ResolvedConserves(ds: seq<Dict>, src: C.Source, index: Index)
    ensures |Resolved(ds, src, index)| + Orphans(ds, src, index) == |ds|
    decreases |ds|
  {
    if ds != [] {
      ResolvedConserves(ds[..|ds| - 1], src, index);
    }
  }

  /** Each resolved pair is a record of the input with the truthy e-mail the
      index gives for its contact id, and it can be formatted. */
  lemma {:induction false} ResolvedPairs(ds: seq<Dict>, src: C.Source, index: Index, k: int)
    requires AllAssociable(ds, src, index)
    requires 0 <= k < |Resolved(ds, src, index)|
    ensures var (d, email) := Resolved(ds, src, index)[k];
      && d in ds
      && Resolve(index, Get(d, ContactField(src))) == Some(email)
      && Truthy(email)
      && Formattable(d, src)
    decreases |ds|
  {
    var p := ds[..|ds| - 1];
    if k < |Resolved(p, src, index)| {
      ResolvedPairs(p, src, index, k);
      assert forall x | x in p :: x in ds;
    }
  }

  /** Formats resolved pairs one by one. */
  function FormatAll(ps: seq<(Dict, Json)>, src: C.Source): (cs: seq<Conversation>)
    requires forall k | 0 <= k < |ps| :: Formattable(ps[k].0, src)
    ensures |cs| == |ps|
  {
    if ps == [] then []
    else FormatAll(ps[..|ps| - 1], src) + [FormatOf(ps[|ps| - 1].0, src, ps[|ps| - 1].1)]
  }

  /** The conversations of one source: the resolved records, formatted. */
  function Associate(ds: seq<Dict>, src: C.Source, index: Index): (cs: seq<Conversation>)
    requires AllAssociable(ds, src, index)
    ensures |cs| == |Resolved(ds, src, index)|
  {
    var ps := Resolved(ds, src, index);
    assert forall k | 0 <= k < |ps| :: Formattable(ps[k].0, src) by {
      forall k | 0 <= k < |ps| ensures Formattable(ps[k].0, src) {
        ResolvedPairs(ds, src, index, k);
      }
    }
    FormatAll(ps, src)
  }

  /** One more record adds its formatted conversation when it resolves, and
      one orphan otherwise. */
  lemma AssociateSnoc(ds: seq<Dict>, i: int, src: C.Source, index: Index)
    requires AllAssociable(ds, src, index) && 0 <= i < |ds|
    ensures Associate(ds[..i + 1], src, index) == Associate(ds[..i], src, index) +
      (match Resolve(index, Get(ds[i], ContactField(src)))
       case Some(email) => [FormatOf(ds[i], src, email)]
       case None => [])
    ensures Orphans(ds[..i + 1], src, index) == Orphans(ds[..i], src, index) +
      if Resolve(index, Get(ds[i], ContactField(src))).None? then 1 else 0
  {
    assert ds[..i + 1][..i] == ds[..i];
    var ps := Resolved(ds[..i], src, index);
    var ps' := Resolved(ds[..i + 1], src, index);
    if ps' != ps {
      assert ps'[..|ps|] == ps;
    }
  }

  /** The association counters. */
  datatype AssociationStats = AssociationStats(zendesk: nat, intercom: nat, orphans: nat)

  /** One of the two association loops of
      `prepare_conversations_for_chatwoot`: each record whose contact id
      resolves to a truthy e-mail is formatted and appended, and every other
      one is an orphan. */
  method AssociateSource(ds: seq<Dict>, src: C.Source, index: Index)
    returns (conversations: seq<Conversation>, matched: nat, orphans: nat)
    requires AllAssociable(ds, src, index)
    ensures conversations == Associate(ds, src, index)
    ensures matched == |conversations| && orphans == Orphans(ds, src, index)
    ensures matched + orphans == |ds|
  {
    conversations, matched, orphans := [], 0, 0;
    for i := 0 to |ds|
      invariant conversations == Associate(ds[..i], src, index)
      invariant matched == |conversations| && orphans == Orphans(ds[..i], src, index)
    {
      AssociateSnoc(ds, i, src, index);
      var d := ds[i];
      var id := Get(d, ContactField(src));
      var email := if id in index then index[id] else JNull;
      if Truthy(email) {
        var conv := FormatConversation(d, src, email);
        conversations := conversations + [conv];
        matched := matched + 1;
      } else {
        orphans := orphans + 1;
      }
    }
    assert ds[..|ds|] == ds;
    ResolvedConserves(ds, src, index);
  }

  /** `prepare_conversations_for_chatwoot` without its file input and output:
      the tickets' conversations first, then the Intercom ones, and the three
      counters. */
  method PrepareConversations(tickets: seq<Dict>, convs: seq<Dict>, zendeskIndex: Index, intercomIndex: Index)
    returns (conversations: seq<Conversation>, stats: AssociationStats)
    requires AllAssociable(tickets, C.Zendesk, zendeskIndex)
    requires AllAssociable(convs, C.Intercom, intercomIndex)
    ensures conversations == Associate(tickets, C.Zendesk, zendeskIndex) + Associate(convs, C.Intercom, intercomIndex)
    ensures stats.zendesk == |Resolved(tickets, C.Zendesk, zendeskIndex)|
    ensures stats.intercom == |Resolved(convs, C.Intercom, intercomIndex)|
    ensures stats.orphans == Orphans(tickets, C.Zendesk, zendeskIndex) + Orphans(convs, C.Intercom, intercomIndex)
    ensures stats.zendesk + stats.intercom + stats.orphans == |tickets| + |convs|
    ensures |conversations| == stats.zendesk + stats.intercom
  {
    var fromZendesk, zendesk, zendeskOrphans := AssociateSource(tickets, C.Zendesk, zendeskIndex);
    var fromIntercom, intercom, intercomOrphans := AssociateSource(convs, C.Intercom, intercomIndex);
    conversations := fromZendesk + fromIntercom;
    stats := AssociationStats(zendesk, intercom, zendeskOrphans + intercomOrphans);
  }
}
