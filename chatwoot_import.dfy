/** The Chatwoot side of the import: the contact payload sent for a prepared
    contact, and the message requests sent for a prepared conversation. The
    HTTP calls themselves are not part of this model; what is modelled is
    what gets sent, decided from the prepared records. */
module ChatwootImport {
  import opened JsonValue
  import opened Text
  import C = PrepareContacts

  // ---------------------------------------------------------------------
  // Contact payload
  // ---------------------------------------------------------------------

  /** A prepared contact as it is saved to and read back from the prepared
      contacts file: every field `format_contact` writes is present. */
  function ContactRecord(c: C.Contact): (d: Dict)
    ensures "zendesk_id" in d && "intercom_id" in d && "email" in d
  {
    map[
      "email" := JStr(c.email),
      "name" := c.name,
      "phone_number" := c.phoneNumber,
      "zendesk_id" := c.zendeskId,
      "intercom_id" := c.intercomId,
      "imported_from_zd_at" := c.importedFromZdAt,
      "imported_from_intercom_at" := c.importedFromIntercomAt,
      "avatar_url" := c.avatarUrl,
      "additional_attributes" := JObj(c.additionalAttributes)]
  }

  /** A phone number is sent only when it starts with '+' and is longer than
      five characters. */
  predicate PhoneValid(phone: Json)
  {
    phone.JStr? && StartsWith(phone.s, "+") && |phone.s| > 5
  }

  /** What `import_contact_to_chatwoot` needs of a record to build its
      payload without raising: a truthy phone is a string, truthy additional
      attributes are an object, a truthy e-mail is rendered by `str()`, and
      without an e-mail the name (default "unknown") is a string. */
  predicate PayloadOk(c: Dict)
  {
    && StrOrFalsy(Get(c, "phone_number"))
    && (!Truthy(GetOr(c, "additional_attributes", JObj(map[]))) || GetOr(c, "additional_attributes", JObj(map[])).JObj?)
    && IsScalar(GetOr(c, "email", JStr("")))
    && (!Truthy(GetOr(c, "email", JStr(""))) ==> GetOr(c, "name", JStr("unknown")).JStr?)
  }

  /** `contact.get("additional_attributes", {}) or {}`. */
  function Attributes(c: Dict): Dict
    requires PayloadOk(c)
  {
    var a := GetOr(c, "additional_attributes", JObj(map[]));
    if Truthy(a) then a.fields else map[]
  }

  /** The part of the identifier before `_<date>`: the e-mail when there is
      one, and otherwise the name lowercased with its spaces made '_'. */
  function IdentifierStem(c: Dict): (stem: string)
    requires PayloadOk(c)
    ensures var email := GetOr(c, "email", JStr(""));
      Truthy(email) ==> stem == PyStr(email)
    ensures !Truthy(GetOr(c, "email", JStr(""))) ==>
      var name := GetOr(c, "name", JStr("unknown")).s;
        && |stem| == |name|
        && forall k | 0 <= k < |name| :: stem[k] == if name[k] == ' ' then '_' else LowerChar(name[k])
  {
    var email := GetOr(c, "email", JStr(""));
    if Truthy(email) then PyStr(email)
    else
      var lowered := Lower(GetOr(c, "name", JStr("unknown")).s);
      ReplaceChar(lowered, ' ', '_');
      Replace(lowered, " ", "_")
  }

  /** The identifier's stem reads back from it; a string e-mail is the stem
      itself, and a name-based stem has no space left, and is the name itself
      when that is already lowercase without spaces. */
  lemma IdentifierStemShape(c: Dict, today: string)
    requires PayloadOk(c)
    ensures WithoutSuffix(IdentifierStem(c) + "_" + today, "_" + today) == Some(IdentifierStem(c))
    ensures var email := GetOr(c, "email", JStr(""));
      Truthy(email) && email.JStr? ==> IdentifierStem(c) == email.s
    ensures !Truthy(GetOr(c, "email", JStr(""))) ==> !Contains(IdentifierStem(c), " ")
    ensures var name := GetOr(c, "name", JStr("unknown"));
      !Truthy(GetOr(c, "email", JStr(""))) && !Contains(name.s, " ") && Lower(name.s) == name.s ==>
        IdentifierStem(c) == name.s
    ensures !Truthy(GetOr(c, "email", JStr(""))) && "name" !in c ==> IdentifierStem(c) == "unknown"
  {
    assert IdentifierStem(c) + "_" + today == IdentifierStem(c) + ("_" + today);
    WithoutSuffixAppend(IdentifierStem(c), "_" + today);
    if !Truthy(GetOr(c, "email", JStr(""))) {
      var lowered := Lower(GetOr(c, "name", JStr("unknown")).s);
      ReplaceLeavesNoOccurrence(lowered, " ", "_");
      if !Contains(lowered, " ") {
        ReplaceAbsent(lowered, " ", "_");
      }
      if "name" !in c {
        var stem, unknown := IdentifierStem(c), "unknown";
        assert |stem| == |unknown|;
        forall k | 0 <= k < |unknown| ensures stem[k] == unknown[k] {
          assert 'a' <= unknown[k] <= 'z';
        }
      }
    }
  }

  /** `contact.get('zendesk_id', contact.get('intercom_id'))`, as written:
      the Intercom id is used only when the `zendesk_id` key is absent. */
  function OriginalIdAsWritten(c: Dict): (id: Json)
    ensures "zendesk_id" in c ==> id == c["zendesk_id"]
    ensures "zendesk_id" !in c ==> id == Get(c, "intercom_id")
  {
    GetOr(c, "zendesk_id", Get(c, "intercom_id"))
  }

  /** Every prepared record carries a `zendesk_id` key, `None` for a contact
      known only to Intercom, so such a contact loses its original id. */
  lemma OriginalIdLostForIntercom(d: Dict, email: string, now: string)
    requires C.ContactRecordOk(d, C.Intercom)
    ensures var record := ContactRecord(C.FormatContact(d, C.Intercom, email, now));
      && Get(record, "intercom_id") == Get(d, "id")
      && OriginalIdAsWritten(record) == JNull
  {
  }

  /** A concrete record: an Intercom contact with id 7 is sent with
      `original_id` `None`. */
  lemma OriginalIdAsWrittenExample()
    ensures var record := ContactRecord(C.FormatContact(map["id" := JInt(7)], C.Intercom, "ann@ex.org", "20240101_120000"));
      Get(record, "intercom_id") == JInt(7) && OriginalIdAsWritten(record) == JNull
  {
    OriginalIdLostForIntercom(map["id" := JInt(7)], "ann@ex.org", "20240101_120000");
  }

  /** `original_id` as evidently intended: the Zendesk id when the contact
      has one, which is also when `migration_source` says "zendesk", and the
      Intercom id otherwise. */
  function OriginalId(c: Dict): (id: Json)
    ensures Truthy(Get(c, "zendesk_id")) ==> id == c["zendesk_id"]
    ensures !Truthy(Get(c, "zendesk_id")) ==> id == Get(c, "intercom_id")
    ensures Truthy(Get(c, "zendesk_id")) || "zendesk_id" !in c ==> id == OriginalIdAsWritten(c)
  {
    if Truthy(Get(c, "zendesk_id")) then Get(c, "zendesk_id") else Get(c, "intercom_id")
  }

  /** Every prepared contact keeps the id of the record it came from: a
      Zendesk user's id (when it is truthy), and an Intercom contact's id. */
  lemma OriginalIdKept(d: Dict, src: C.Source, email: string, now: string)
    requires C.ContactRecordOk(d, src)
    requires src == C.Zendesk ==> Truthy(Get(d, "id"))
    ensures OriginalId(ContactRecord(C.FormatContact(d, src, email, now))) == Get(d, "id")
  {
  }

  /** A merged contact (Intercom data with the Zendesk id copied over) keeps
      the Zendesk id. */
  lemma OriginalIdOfMerged(c: C.Contact)
    requires Truthy(c.zendeskId)
    ensures OriginalId(ContactRecord(c)) == c.zendeskId
  {
  }

  const MigrationKeys: set<string> := {"imported_from_zd_at", "imported_from_intercom_at", "migration_source", "original_id"}

  /** The contact's additional attributes overlaid with the four migration
      keys, which win over attributes of the same name. `original_id` is
      selected as written (`OriginalIdAsWritten`), so a contact known only to
      Intercom is sent with `None` there. */
  function CustomAttributes(c: Dict): (custom: Dict)
    requires PayloadOk(c)
    ensures custom.Keys == Attributes(c).Keys + MigrationKeys
    ensures forall k | k in Attributes(c) && k !in MigrationKeys :: custom[k] == Attributes(c)[k]
    ensures custom["imported_from_zd_at"] == Get(c, "imported_from_zd_at")
    ensures custom["imported_from_intercom_at"] == Get(c, "imported_from_intercom_at")
    ensures custom["migration_source"] == JStr("zendesk") <==> Truthy(Get(c, "zendesk_id"))
    ensures custom["migration_source"] == JStr("intercom") <==> !Truthy(Get(c, "zendesk_id"))
    ensures custom["original_id"] == OriginalIdAsWritten(c)
  {
    Attributes(c) + map[
      "imported_from_zd_at" := Get(c, "imported_from_zd_at"),
      "imported_from_intercom_at" := Get(c, "imported_from_intercom_at"),
      "migration_source" := if Truthy(Get(c, "zendesk_id")) then JStr("zendesk") else JStr("intercom"),
      "original_id" := OriginalIdAsWritten(c)]
  }

  /** The payload `create_contact` receives. The four native fields are
      inserted only when their value is truthy: `None` here is a key left
      out of the payload. */
  datatype ContactData = ContactData(
    inboxId: int,
    name: Json,
    email: Json,
    identifier: string,
    customAttributes: Dict,
    city: Option<Json>,
    country: Option<Json>,
    phoneNumber: Option<Json>,
    avatarUrl: Option<Json>)

  /** The payload `import_contact_to_chatwoot` hands to `create_contact`,
      built key by key. `today` is `get_timestamp()`. */
  method ContactPayload(c: Dict, inboxId: int, today: string) returns (payload: ContactData)
    requires PayloadOk(c)
    ensures payload.inboxId == inboxId && payload.name == Get(c, "name") && payload.email == Get(c, "email")
    ensures payload.identifier == IdentifierStem(c) + "_" + today
    ensures payload.customAttributes == CustomAttributes(c)
    ensures payload.phoneNumber.Some? <==> PhoneValid(Get(c, "phone_number"))
    ensures payload.phoneNumber.Some? ==> payload.phoneNumber.value == Get(c, "phone_number")
    ensures payload.city.Some? <==> Truthy(Get(Attributes(c), "location_city"))
    ensures payload.city.Some? ==> payload.city.value == Attributes(c)["location_city"]
    ensures payload.country.Some? <==> Truthy(Get(Attributes(c), "location_country"))
    ensures payload.country.Some? ==> payload.country.value == Attributes(c)["location_country"]
    ensures payload.avatarUrl.Some? <==> Truthy(Get(c, "avatar_url"))
    ensures payload.avatarUrl.Some? ==> payload.avatarUrl.value == c["avatar_url"]
  {
    var phone := Get(c, "phone_number");
    if Truthy(phone) && !(StartsWith(phone.s, "+") && |phone.s| > 5) {
      phone := JNull;
    }
    var attrs := Attributes(c);
    var email := GetOr(c, "email", JStr(""));
    var identifier: string;
    if Truthy(email) {
      identifier := PyStr(email) + "_" + today;
    } else {
      var name := Replace(Lower(GetOr(c, "name", JStr("unknown")).s), " ", "_");
      identifier := name + "_" + today;
    }
    payload := ContactData(inboxId, Get(c, "name"), Get(c, "email"), identifier, CustomAttributes(c), None, None, None, None);
    payload := AddNativeFields(payload, attrs, phone, Get(c, "avatar_url"));
  }

  /** The fields Chatwoot stores natively, each inserted only when its value
      is truthy; the rest of the payload is kept. */
  method AddNativeFields(base: ContactData, attrs: Dict, phone: Json, avatar: Json) returns (payload: ContactData)
    requires base.city.None? && base.country.None? && base.phoneNumber.None? && base.avatarUrl.None?
    ensures payload == base.(city := payload.city, country := payload.country,
                             phoneNumber := payload.phoneNumber, avatarUrl := payload.avatarUrl)
    ensures payload.city.Some? <==> Truthy(Get(attrs, "location_city"))
    ensures payload.city.Some? ==> payload.city.value == attrs["location_city"]
    ensures payload.country.Some? <==> Truthy(Get(attrs, "location_country"))
    ensures payload.country.Some? ==> payload.country.value == attrs["location_country"]
    ensures payload.phoneNumber == (if Truthy(phone) then Some(phone) else None)
    ensures payload.avatarUrl == (if Truthy(avatar) then Some(avatar) else None)
  {
    payload := base;
    if Truthy(Get(attrs, "location_city")) {
      payload := payload.(city := Some(attrs["location_city"]));
    }
    if Truthy(Get(attrs, "location_country")) {
      payload := payload.(country := Some(attrs["location_country"]));
    }
    if Truthy(phone) {
      payload := payload.(phoneNumber := Some(phone));
    }
    if Truthy(avatar) {
      payload := payload.(avatarUrl := Some(avatar));
    }
  }

  // ---------------------------------------------------------------------
  // Conversation import
  // ---------------------------------------------------------------------

  /** A file attached to a message request: its name and the URL it was
      downloaded from. */
  datatype AttachmentFile = AttachmentFile(filename: Json, url: Json)

  /** One `create_message` (or `create_message_with_attachments`, when
      `attachments` is not empty) call. */
  datatype MessageRequest = MessageRequest(
    content: Json,
    messageType: Json,
    private: bool,
    attachments: seq<AttachmentFile>)

  /** What `import_conversation_to_chatwoot` sends: the conversation is
      created with `openingStatus`, the messages are posted in order, and the
      status is then set to `finalStatus`. */
  datatype ConversationImport = ConversationImport(
    openingStatus: string,
    requests: seq<MessageRequest>,
    finalStatus: string)

  /** The download URL of an attachment: `content_url`, else
      `mapped_content_url`, else `url`, whichever is first truthy. An
      attachment with none of them, or one that is not an object (its
      `.get` raises inside the `try`), is skipped. */
  function AttachmentUrl(a: Json): (u: Option<Json>)
    ensures u.Some? ==> Truthy(u.value)
    ensures u.Some? <==> (a.JObj? &&
      (Truthy(Get(a.fields, "content_url")) || Truthy(Get(a.fields, "mapped_content_url")) || Truthy(Get(a.fields, "url"))))
    ensures a.JObj? && Truthy(Get(a.fields, "content_url")) ==> u == Some(Get(a.fields, "content_url"))
    ensures a.JObj? && !Truthy(Get(a.fields, "content_url")) && Truthy(Get(a.fields, "mapped_content_url")) ==>
      u == Some(Get(a.fields, "mapped_content_url"))
    ensures (a.JObj? && !Truthy(Get(a.fields, "content_url")) && !Truthy(Get(a.fields, "mapped_content_url")) &&
      Truthy(Get(a.fields, "url"))) ==> u == Some(Get(a.fields, "url"))
  {
    if !a.JObj? then None
    else
      var url := Or(Or(Get(a.fields, "content_url"), Get(a.fields, "mapped_content_url")), Get(a.fields, "url"));
      if Truthy(url) then Some(url) else None
  }

  /** `attachment.get('name') or attachment.get('file_name', 'attachment')`:
      a truthy name, else the `file_name` field even when it is `None`, and
      'attachment' only when that field is absent. */
  function FileName(a: Dict): (n: Json)
    ensures Truthy(Get(a, "name")) ==> n == a["name"]
    ensures !Truthy(Get(a, "name")) && "file_name" in a ==> n == a["file_name"]
    ensures !Truthy(Get(a, "name")) && "file_name" !in a ==> n == JStr("attachment")
  {
    Or(Get(a, "name"), GetOr(a, "file_name", JStr("attachment")))
  }

  /** The file one attachment contributes: none when it has no URL or the
      download does not answer 200. `fetched(url)` stands for that download. */
  function DownloadOf(a: Json, fetched: Json -> bool): seq<AttachmentFile>
  {
    match AttachmentUrl(a)
    case None => []
    case Some(url) => if fetched(url) then [AttachmentFile(FileName(a.fields), url)] else []
  }

  /** The files downloaded for a list of attachments, in order. */
  function Downloaded(atts: seq<Json>, fetched: Json -> bool): seq<AttachmentFile>
  {
    if atts == [] then []
    else Downloaded(atts[..|atts| - 1], fetched) + DownloadOf(atts[|atts| - 1], fetched)
  }

  lemma DownloadedSnoc(atts: seq<Json>, fetched: Json -> bool, i: int)
    requires 0 <= i < |atts|
    ensures Downloaded(atts[..i + 1], fetched) == Downloaded(atts[..i], fetched) + DownloadOf(atts[i], fetched)
  {
    assert atts[..i + 1][..i] == atts[..i];
  }

  /** Every downloaded file has a truthy URL that answered, there are at most
      as many files as attachments, and each file comes from an attachment. */
  lemma {:induction false} DownloadedSound(atts: seq<Json>, fetched: Json -> bool)
    ensures |Downloaded(atts, fetched)| <= |atts|
    ensures forall f | f in Downloaded(atts, fetched) :: Truthy(f.url) && fetched(f.url)
    ensures forall f | f in Downloaded(atts, fetched) ::
      exists a | a in atts :: AttachmentUrl(a) == Some(f.url) && f.filename == FileName(a.fields)
    decreases |atts|
  {
    if atts != [] {
      var pre, last := atts[..|atts| - 1], atts[|atts| - 1];
      DownloadedSound(pre, fetched);
      forall f | f in Downloaded(atts, fetched)
        ensures exists a | a in atts :: AttachmentUrl(a) == Some(f.url) && f.filename == FileName(a.fields)
      {
        if f in Downloaded(pre, fetched) {
          var a :| a in pre && AttachmentUrl(a) == Some(f.url) && f.filename == FileName(a.fields);
          assert a in atts;
        } else {
          assert f in DownloadOf(last, fetched);
          assert last in atts;
        }
      }
    }
  }

  /** When every attachment has a URL that answers, each one gives exactly
      its own file, in order. */
  lemma {:induction false} DownloadedAll(atts: seq<Json>, fetched: Json -> bool)
    requires forall k | 0 <= k < |atts| :: atts[k].JObj? && AttachmentUrl(atts[k]).Some? && fetched(AttachmentUrl(atts[k]).value)
    ensures |Downloaded(atts, fetched)| == |atts|
    ensures forall k | 0 <= k < |atts| ::
      Downloaded(atts, fetched)[k] == AttachmentFile(FileName(atts[k].fields), AttachmentUrl(atts[k]).value)
    decreases |atts|
  {
    if atts != [] {
      var pre := atts[..|atts| - 1];
      DownloadedAll(pre, fetched);
    }
  }

  /** What the attachment loop needs: a list of attachments, absent or a
      list (iterating `None` raises outside the `try`). */
  predicate MessageOk(m: Json)
  {
    m.JObj? && ArrOrAbsent(m.fields, "attachments")
  }

  predicate AllMessagesOk(ms: seq<Json>)
  {
    forall k | 0 <= k < |ms| :: MessageOk(ms[k])
  }

  /** The request for one message: none when it has no `content` (the
      `KeyError` is caught and the message skipped). */
  function RequestOf(m: Json, fetched: Json -> bool): (r: Option<MessageRequest>)
    requires MessageOk(m)
    ensures r.Some? <==> "content" in m.fields
    ensures r.Some? ==> r.value.content == m.fields["content"]
    ensures r.Some? ==> (r.value.private <==> Get(m.fields, "content_type_msg") == JStr("note"))
    ensures r.Some? && "message_type" !in m.fields ==> r.value.messageType == JStr("incoming")
    ensures r.Some? && "message_type" in m.fields ==> r.value.messageType == m.fields["message_type"]
    ensures r.Some? ==> |r.value.attachments| <= |Items(m.fields, "attachments")|
    ensures r.Some? ==> forall f | f in r.value.attachments :: Truthy(f.url) && fetched(f.url)
  {
    DownloadedSound(Items(m.fields, "attachments"), fetched);
    if "content" !in m.fields then None
    else Some(MessageRequest(
      m.fields["content"],
      GetOr(m.fields, "message_type", JStr("incoming")),
      Get(m.fields, "content_type_msg") == JStr("note"),
      Downloaded(Items(m.fields, "attachments"), fetched)))
  }

  function AsSeq<T>(o: Option<T>): seq<T>
  {
    match o
    case None => []
    case Some(x) => [x]
  }

  /** The requests for a list of messages, in order. */
  function Requests(ms: seq<Json>, fetched: Json -> bool): seq<MessageRequest>
    requires AllMessagesOk(ms)
  {
    if ms == [] then []
    else Requests(ms[..|ms| - 1], fetched) + AsSeq(RequestOf(ms[|ms| - 1], fetched))
  }

  lemma RequestsSnoc(ms: seq<Json>, fetched: Json -> bool, i: int)
    requires AllMessagesOk(ms) && 0 <= i < |ms|
    ensures Requests(ms[..i + 1], fetched) == Requests(ms[..i], fetched) + AsSeq(RequestOf(ms[i], fetched))
  {
    assert ms[..i + 1][..i] == ms[..i];
  }

  /** Every message is sent exactly when every message has content; no
      message is ever sent twice. */
  lemma {:induction false} RequestsCount(ms: seq<Json>, fetched: Json -> bool)
    requires AllMessagesOk(ms)
    ensures |Requests(ms, fetched)| <= |ms|
    ensures |Requests(ms, fetched)| == |ms| <==> forall k | 0 <= k < |ms| :: "content" in ms[k].fields
    decreases |ms|
  {
    if ms != [] {
      var pre := ms[..|ms| - 1];
      RequestsCount(pre, fetched);
      if forall k | 0 <= k < |pre| :: "content" in pre[k].fields {
        assert forall k | 0 <= k < |pre| :: pre[k] == ms[k];
      } else {
        var k :| 0 <= k < |pre| && "content" !in pre[k].fields;
        assert pre[k] == ms[k];
      }
    }
  }

  /** When every message has content, request `k` is message `k`'s: private
      exactly when it is a note, typed 'incoming' unless the message says
      otherwise, and carrying the files of its own attachments. */
  lemma {:induction false} RequestsOfMessages(ms: seq<Json>, fetched: Json -> bool, k: int)
    requires AllMessagesOk(ms) && 0 <= k < |ms|
    requires forall j | 0 <= j < |ms| :: "content" in ms[j].fields
    ensures |Requests(ms, fetched)| == |ms|
    ensures var r := Requests(ms, fetched)[k];
      && r.content == ms[k].fields["content"]
      && (r.private <==> Get(ms[k].fields, "content_type_msg") == JStr("note"))
      && r.messageType == GetOr(ms[k].fields, "message_type", JStr("incoming"))
      && r.attachments == Downloaded(Items(ms[k].fields, "attachments"), fetched)
    decreases |ms|
  {
    RequestsCount(ms, fetched);
    var pre := ms[..|ms| - 1];
    if k < |pre| {
      assert forall j | 0 <= j < |pre| :: pre[j] == ms[j];
      RequestsOfMessages(pre, fetched, k);
    }
  }

  /** What `import_conversation_to_chatwoot` reads: `messages` absent or a
      list of message objects. */
  predicate ConversationOk(conv: Dict)
  {
    ArrOrAbsent(conv, "messages") && AllMessagesOk(Items(conv, "messages"))
  }

  /** The attachment loop of one message. */
  method DownloadAttachments(atts: seq<Json>, fetched: Json -> bool) returns (files: seq<AttachmentFile>)
    ensures files == Downloaded(atts, fetched)
  {
    files := [];
    for i := 0 to |atts|
      invariant files == Downloaded(atts[..i], fetched)
    {
      DownloadedSnoc(atts, fetched, i);
      var attachment := atts[i];
      if attachment.JObj? {
        var url := Or(Or(Get(attachment.fields, "content_url"), Get(attachment.fields, "mapped_content_url")),
                      Get(attachment.fields, "url"));
        if Truthy(url) && fetched(url) {
          var filename := Or(Get(attachment.fields, "name"), GetOr(attachment.fields, "file_name", JStr("attachment")));
          files := files + [AttachmentFile(filename, url)];
        }
      }
    }
    assert atts[..|atts|] == atts;
  }

  /** `import_conversation_to_chatwoot` without its HTTP calls: the
      conversation is opened, every message with content is posted in order
      with its downloaded attachments, and the given status is applied last. */
  method ImportConversation(conversation: Dict, status: string, fetched: Json -> bool) returns (plan: ConversationImport)
    requires ConversationOk(conversation)
    ensures plan.openingStatus == "open"
    ensures plan.requests == Requests(Items(conversation, "messages"), fetched)
    ensures plan.finalStatus == status
  {
    var messages := Items(conversation, "messages");
    var requests: seq<MessageRequest> := [];
    for i := 0 to |messages|
      invariant requests == Requests(messages[..i], fetched)
    {
      RequestsSnoc(messages, fetched, i);
      var message := messages[i];
      var files := DownloadAttachments(Items(message.fields, "attachments"), fetched);
      if "content" in message.fields {
        var private := Get(message.fields, "content_type_msg") == JStr("note");
        requests := requests + [MessageRequest(
          message.fields["content"], GetOr(message.fields, "message_type", JStr("incoming")), private, files)];
      }
    }
    assert messages[..|messages|] == messages;
    plan := ConversationImport("open", requests, status);
  }
}
