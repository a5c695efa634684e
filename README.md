# Zendesk + Intercom → Chatwoot migration: the record layer in Dafny

This project models the record-level core of a migration tool. The tool exports
users, tickets, conversations and help-centre articles from Zendesk and
Intercom, cleans and transforms them, and prepares and imports them into
Chatwoot. The model covers the parts that only compute on records in memory:

- **Contact preparation** (`prepare_contacts.dfy`):
  - `format_contact` rewrites an address `local@domain` to
    `local_domain@alphorm.com` and projects each source's fields.
  - `merge_and_deduplicate` inserts Zendesk users, then Intercom contacts,
    into one insertion-ordered dictionary keyed on the raw address, or on a
    `no-email-zd-<id>` / `no-email-ic-<id>` placeholder. It keeps four counters.
  - The dictionary is the `Table` datatype: a key list in first-insertion
    order, plus a map.
  - The loops are methods proved equal to a fold (`MergeAll`). The merge
    properties are proved about that fold.
- **Conversation preparation** (`prepare_conversations.dfy`):
  - the id → e-mail indexes;
  - status mapping and message direction;
  - `<br>` removal and the Intercom opening message;
  - associating tickets and conversations with contacts, and counting orphans.
- **Ticket and conversation transforms** (`zendesk_transform.dfy`,
  `intercom_transform.dfy`):
  - each message becomes `header + "<br><br>" + markdown` (`render.dfy`);
  - fallbacks for empty bodies and for timestamps that cannot be converted;
  - the fields carried over.
- **Chatwoot payloads** (`chatwoot_import.dfy`):
  - from the contact import: phone validity, the identifier, the
    `custom_attributes` and the native fields;
  - from the conversation import: attachment URL priority, file names, the
    private-note flag and the status sequence.
- **Article cleaners** (`zendesk_clean.dfy`, `intercom_clean.dfy`): field
  projections and Intercom's tag flattening.

JSON values are the `Json` datatype of `json_value.dfy`, and records are
`map<string, Json>`. `Get` is Python's `dict.get`. `GetOr` is
`dict.get(key, default)`, whose default applies only when the key is absent.
`Truthy` is Python truthiness.

The HTML and date renderers (`html_to_markdown`, `format_date_header`,
`clean_markdown_formatting`) are defined outside the modelled files. They are
the uninterpreted function fields of `Render.Renderers`. The same datatype
carries the Unix-timestamp-to-ISO conversion, as a function returning `None`
where Python raises.

Clock readings are parameters. `get_timestamp` in the contact import is a
string parameter. The merge reads the clock once per record, for that record's
`imported_from_*_at` stamp; those readings are the `Clock` datatype, one
function per source from record position to reading. The success of an
attachment download is a predicate parameter `fetched`.

The code is followed where it differs from the documented intent:

- The contact payload's `original_id` is selected as written:
  `contact.get('zendesk_id', contact.get('intercom_id'))`
  (`ChatwootImport.OriginalIdAsWritten`). A prepared contact known only to
  Intercom is therefore sent with `original_id` None. The intended selection
  (`ChatwootImport.OriginalId`) is modelled and proved beside it; see
  Findings.
- The merge dictionary is keyed on the raw address, not the rewritten one.
  Two raw addresses can therefore give two contacts with the same rewritten
  address (`PrepareContacts.MangleNotInjective`).
- A second Intercom contact with an address already seen counts as `merged`,
  even when no Zendesk user had that address.

## Model

| member | source | states |
|---|---|---|
| PrepareContacts.MangleWithoutAt | src/services/chatwoot_prepare_contacts_service.py:29-33 | an address without '@' (including "") is left unchanged |
| PrepareContacts.MangleAtFirstAt | src/services/chatwoot_prepare_contacts_service.py:31-33 | an address is split at its first '@' and becomes local + "_" + rest + "@alphorm.com" |
| PrepareContacts.MangleJoined | src/services/chatwoot_prepare_contacts_service.py:31-33 | local@domain, with no '@' in local, becomes local_domain@alphorm.com |
| PrepareContacts.MangleEmailChars | src/services/chatwoot_prepare_contacts_service.py:29-33 | without '@' the address is unchanged; with '@' only the first '@' becomes '_', every other character is kept in place, and "@alphorm.com" is appended |
| PrepareContacts.MangleRoundTrip | src/services/chatwoot_prepare_contacts_service.py:31-33 | when no '_' precedes the first '@', the original address can be read back from the rewritten one |
| PrepareContacts.MangleNotInjective | src/services/chatwoot_prepare_contacts_service.py:31-33 | x_y@z and x@y_z are different addresses with the same rewritten address |
| PrepareContacts.ZendeskAttributesShape | src/services/chatwoot_prepare_contacts_service.py:45-55 | the Zendesk attribute set has exactly five keys copied from the user; `tags` defaults to [] only when absent |
| PrepareContacts.IntercomAttributesShape | src/services/chatwoot_prepare_contacts_service.py:56-70 | the Intercom attribute set has exactly eight keys; `location.country`/`location.city` are flattened into `location_country`/`location_city` |
| PrepareContacts.FormatContact | src/services/chatwoot_prepare_contacts_service.py:35-70 | the address is the rewritten one; a Zendesk contact has the record's id and the reading as its Zendesk id and stamp, and None for the Intercom id, the Intercom stamp and the avatar; an Intercom contact the reverse, with the Zendesk id and stamp None |
| PrepareContacts.FormatContactIdentity | src/services/chatwoot_prepare_contacts_service.py:35-70 | the id and import stamp are set only in the own source's fields; the source can be read back; Zendesk contacts get avatar None, Intercom ones `avatar`; each gets its own source's attribute set |
| PrepareContacts.FormatContactEmail | src/services/chatwoot_prepare_contacts_service.py:27-36 | a formatted contact's address reads back as the given address when no '_' precedes its first '@' |
| PrepareContacts.PlaceholdersDisjoint | src/services/chatwoot_prepare_contacts_service.py:82-94 | a Zendesk placeholder never equals an Intercom placeholder |
| PrepareContacts.DedupKey | src/services/chatwoot_prepare_contacts_service.py:82-94 | a string e-mail is its own key; a None or missing e-mail gives a non-empty key starting "no-email-" |
| PrepareContacts.MissingEmailKey | src/services/chatwoot_prepare_contacts_service.py:82-94 | only a None or missing e-mail counts as missing and gets a non-empty placeholder key; "" is kept as its own key |
| PrepareContacts.Table.Put | src/services/chatwoot_prepare_contacts_service.py:86-104 | storing under a key replaces its value; a new key goes last and an existing key keeps its position |
| PrepareContacts.Table.Values | src/services/chatwoot_prepare_contacts_service.py:107 | the values in key-insertion order, one per key |
| PrepareContacts.Step | src/services/chatwoot_prepare_contacts_service.py:81-105 | one iteration of either loop keeps the dictionary well formed: distinct keys in insertion order, one entry per key |
| PrepareContacts.StepEffect | src/services/chatwoot_prepare_contacts_service.py:81-105 | one iteration adds its key and leaves every other entry as it was; exactly one of zendesk/intercom/merged grows by one, no_email grows iff the e-mail is missing; an Intercom record whose key is present keeps that entry's Zendesk id and counts as merged |
| PrepareContacts.MergeAllInvariant | src/services/chatwoot_prepare_contacts_service.py:77-105 | the keys are the distinct keys of the visits in first-occurrence order; each counter counts its visits |
| PrepareContacts.MergeCounts | src/services/chatwoot_prepare_contacts_service.py:75-107 | zendesk == number of users; intercom + merged == number of contacts; no_email == number of missing e-mails; one contact per distinct raw or placeholder key, at most len(zendesk) + len(intercom) |
| PrepareContacts.MergeEntries | src/services/chatwoot_prepare_contacts_service.py:81-105 | a key is in the result iff some record has it, and its entry is the one its last record determines |
| PrepareContacts.MergePriority | src/services/chatwoot_prepare_contacts_service.py:96-101 | a key shared by both sources holds the last Intercom record's contact, stamped with that record's own clock reading, with the last Zendesk record's id and the Zendesk stamp read when that record was visited |
| PrepareContacts.MergeZendeskOnly | src/services/chatwoot_prepare_contacts_service.py:81-87 | a key only Zendesk has holds its last Zendesk user's contact |
| PrepareContacts.MergeIntercomOnly | src/services/chatwoot_prepare_contacts_service.py:103-105 | a key only Intercom has holds its last Intercom contact, with Zendesk id and stamp None |
| PrepareContacts.AddZendeskUser | src/services/chatwoot_prepare_contacts_service.py:81-87 | one Zendesk iteration is one step of the fold |
| PrepareContacts.AddIntercomContact | src/services/chatwoot_prepare_contacts_service.py:90-105 | one Intercom iteration, merge or insert, is one step of the fold |
| PrepareContacts.MergeAndDeduplicate | src/services/chatwoot_prepare_contacts_service.py:75-107 | the two loops compute the fold's values and counters; the counter equations and the size bound hold |
| PrepareConversations.BuildIndexDomain | src/services/chatwoot_prepare_conversations_service.py:36-40 | an id is indexed iff some contact carries it as a truthy id |
| PrepareConversations.BuildIndexLastWins | src/services/chatwoot_prepare_conversations_service.py:36-40 | on a repeated id the index holds the later contact's e-mail |
| PrepareConversations.LoadContactIndex | src/services/chatwoot_prepare_conversations_service.py:33-43 | the loop builds both indexes as specified |
| PrepareConversations.ZendeskStatus | src/services/chatwoot_prepare_conversations_service.py:66 | 'solved' and 'closed' become 'resolved'; every other status is copied; 'solved'/'closed' never come out |
| PrepareConversations.IntercomStatus | src/services/chatwoot_prepare_conversations_service.py:116 | 'resolved' iff state is 'closed', otherwise 'open' |
| PrepareConversations.IntercomDirection | src/services/chatwoot_prepare_conversations_service.py:96-101 | incoming iff author_type is 'user'; 'admin' and anything else are outgoing |
| PrepareConversations.Unbreak | src/services/chatwoot_prepare_conversations_service.py:56 | no '<br>' survives; text without '<br>' is unchanged |
| PrepareConversations.ZendeskMessage | src/services/chatwoot_prepare_conversations_service.py:53-61 | incoming/'Client' iff author_id equals requester_id, else outgoing/'Agent'; content has no '<br>' |
| PrepareConversations.IntercomMessage | src/services/chatwoot_prepare_conversations_service.py:96-110 | direction by author_type, content without '<br>', author_name defaulting to 'Unknown' |
| PrepareConversations.OpeningMessage | src/services/chatwoot_prepare_conversations_service.py:82-90 | an opening message exists iff the source description is truthy; it is incoming, with author_name defaulting to 'Client' |
| PrepareConversations.ZendeskConversationMessages | src/services/chatwoot_prepare_conversations_service.py:49-61 | one message per comment, in order, with the direction rule |
| PrepareConversations.IntercomConversationMessages | src/services/chatwoot_prepare_conversations_service.py:82-110 | one message per input message, in order, after an incoming opening message exactly when the description is truthy |
| PrepareConversations.ZendeskMessagesLoop | src/services/chatwoot_prepare_conversations_service.py:50-61 | the loop builds the Zendesk message list |
| PrepareConversations.IntercomMessagesLoop | src/services/chatwoot_prepare_conversations_service.py:93-110 | the loop builds the Intercom message list |
| PrepareConversations.IntercomMessagesWithOpening | src/services/chatwoot_prepare_conversations_service.py:82-110 | the opening message, if any, followed by the Intercom message list |
| PrepareConversations.FormatConversation | src/services/chatwoot_prepare_conversations_service.py:45-127 | the imperative formatter equals the per-source conversation record |
| PrepareConversations.Resolve | src/services/chatwoot_prepare_conversations_service.py:143-146 | a contact is found iff the id is indexed with a truthy e-mail |
| PrepareConversations.ResolvedConserves | src/services/chatwoot_prepare_conversations_service.py:142-163 | resolved plus orphans equals the number of inputs |
| PrepareConversations.ResolvedPairs | src/services/chatwoot_prepare_conversations_service.py:142-163 | every resolved pair comes from the input and carries the truthy e-mail its id resolves to |
| PrepareConversations.Associate | src/services/chatwoot_prepare_conversations_service.py:142-163 | one conversation per resolved input |
| PrepareConversations.AssociateSource | src/services/chatwoot_prepare_conversations_service.py:142-163 | the loop formats resolved inputs in order, and matched + orphans == inputs |
| PrepareConversations.PrepareConversations | src/services/chatwoot_prepare_conversations_service.py:138-172 | resolved tickets in order, then resolved Intercom conversations in order; zendesk + intercom + orphans == all inputs; total == len(conversations) |
| Render.WithHeaderRoundTrip | src/services/zendesk_transform_service.py:37-40 | header + "<br><br>" + body splits back into header and body; an empty body leaves the header alone |
| Render.NewlinesToBr | src/services/zendesk_transform_service.py:30 | no '\n' survives; the result is empty iff the input is; text without '\n' is unchanged |
| ZendeskTransform.CommentMarkdown | src/services/zendesk_transform_service.py:25-32 | a truthy html_body is rendered as HTML; otherwise an empty body gives "" |
| ZendeskTransform.PlainBodyCleaned | src/services/zendesk_transform_service.py:28-32 | a non-empty plain body is cleaned after '\n' → '<br>', and no '\n' remains |
| ZendeskTransform.TransformComment | src/services/zendesk_transform_service.py:34-49 | content starts with the date header, and is exactly the header iff the comment renders to "" |
| ZendeskTransform.CommentContent | src/services/zendesk_transform_service.py:34-40 | content is the date header plus the Markdown, which reads back; header alone when the Markdown is empty |
| ZendeskTransform.CommentFields | src/services/zendesk_transform_service.py:42-49 | id, author_id, public and created_at are copied; attachments are copied, or [] when absent |
| ZendeskTransform.TicketDescription | src/services/zendesk_transform_service.py:52-63 | "" iff the description is falsy; otherwise header, separator, then the cleaned description with '<br>' |
| ZendeskTransform.TicketFields | src/services/zendesk_transform_service.py:65-80 | the ticket's scalar fields are copied, missing ones as None, tags defaulting to [] |
| ZendeskTransform.TransformTicket | src/services/zendesk_transform_service.py:65-80 | one transformed comment per comment with its id, in order; the description is "" iff the source description is falsy |
| ZendeskTransform.TransformKeepsOrder | src/services/zendesk_transform_service.py:20-81 | one ticket per ticket and one comment per comment, in order |
| ZendeskTransform.TransformComments | src/services/zendesk_transform_service.py:24-50 | the comment loop builds the transformed comment list |
| ZendeskTransform.TransformTickets | src/services/zendesk_transform_service.py:20-91 | the ticket loop builds the transformed ticket list; count == number of tickets |
| IntercomTransform.DateHeader | src/services/intercom_transform_service.py:31-40 | falsy date → "Date originale: inconnue"; a conversion that raises → "Date originale: " + the raw value; otherwise the rendered ISO date |
| IntercomTransform.DateHeaderOf | src/services/intercom_transform_service.py:31-40 | the try/except branch computes that header |
| IntercomTransform.MessageMarkdown | src/services/intercom_transform_service.py:25-29 | a truthy body is a string and is rendered by html_to_markdown; an empty or missing body gives "" |
| IntercomTransform.TransformMessage | src/services/intercom_transform_service.py:42-57 | id, author fields, message_type and created_at copied; attachments copied, [] when absent; content starts with the date header |
| IntercomTransform.MessageContent | src/services/intercom_transform_service.py:42-45 | content is the date header plus the Markdown, which reads back; header alone when the Markdown is empty |
| IntercomTransform.Description | src/services/intercom_transform_service.py:60-79 | "" iff the source body is falsy; otherwise header, separator and the rendered body, even when that is "" |
| IntercomTransform.Title | src/services/intercom_transform_service.py:81-85 | a truthy subject gives the rendered, '<br>'-replaced subject less surrounding whitespace; otherwise the conversation's title, "" when absent |
| IntercomTransform.TitleClean | src/services/intercom_transform_service.py:81-83 | a title from a subject is the rendered subject with '<br>' made ' ', cut only of whitespace at both ends; it has no '<br>' and no surrounding whitespace |
| IntercomTransform.ConversationFields | src/services/intercom_transform_service.py:85-105 | scalar fields and source author are copied; the title falls back to the conversation's `title` |
| IntercomTransform.TransformKeepsOrder | src/services/intercom_transform_service.py:20-109 | one conversation per conversation and one message per message, in order; message_count is the input's when the key exists, else the number of messages |
| IntercomTransform.TransformMessages | src/services/intercom_transform_service.py:24-58 | the message loop builds the transformed message list |
| IntercomTransform.TransformConversations | src/services/intercom_transform_service.py:20-120 | the conversation loop builds the transformed list; count == number of conversations |
| ChatwootImport.ContactRecord | src/services/chatwoot_prepare_contacts_service.py:35-43 | a prepared contact's record always holds the zendesk_id, intercom_id and email keys |
| ChatwootImport.IdentifierStem | src/services/chatwoot_service.py:93-101 | a truthy e-mail is printed as the stem; otherwise the stem has the name's length, with '_' exactly where the name has a space and every other character lower-cased |
| ChatwootImport.IdentifierStemShape | src/services/chatwoot_service.py:93-101 | the identifier is the stem + "_" + timestamp and the stem reads back; a truthy string e-mail is the stem; otherwise the stem has no space, is the name when that is already lower-case without spaces, and is "unknown" when there is no name key |
| ChatwootImport.OriginalIdAsWritten | src/services/chatwoot_service.py:109 | as written: zendesk_id whenever that key is present, even when None; intercom_id only when the key is absent |
| ChatwootImport.OriginalIdLostForIntercom | src/services/chatwoot_service.py:109 | as written, a prepared Intercom contact gets original_id None although its intercom_id is set |
| ChatwootImport.OriginalIdAsWrittenExample | src/services/chatwoot_service.py:109 | as written, an Intercom contact with id 7 gets original_id None |
| ChatwootImport.OriginalId | src/services/chatwoot_service.py:108-109 | corrected: a truthy zendesk_id, else intercom_id; it agrees with the as-written selection unless zendesk_id is present and falsy |
| ChatwootImport.OriginalIdKept | src/services/chatwoot_service.py:109 | corrected: original_id is the source record's id for a contact from either source |
| ChatwootImport.OriginalIdOfMerged | src/services/chatwoot_service.py:108-109 | corrected: a contact with a truthy Zendesk id keeps it as original_id |
| ChatwootImport.CustomAttributes | src/services/chatwoot_service.py:104-110 | additional_attributes overlaid by the four migration keys, which win; the two stamps copied; migration_source 'zendesk' iff zendesk_id is truthy; original_id by the as-written selection |
| ChatwootImport.ContactPayload | src/services/chatwoot_service.py:84-131 | name and e-mail copied, identifier stem + "_" + timestamp, the custom attributes (original_id as written); phone only when it starts with '+' and is longer than 5; city, country and avatar only when truthy |
| ChatwootImport.AddNativeFields | src/services/chatwoot_service.py:121-131 | each native field is added iff its value is truthy, nothing else changes |
| ChatwootImport.AttachmentUrl | src/services/chatwoot_service.py:163-165 | content_url, then mapped_content_url, then url; none when all are falsy |
| ChatwootImport.FileName | src/services/chatwoot_service.py:172 | a truthy name; else file_name, even when falsy; 'attachment' only when file_name is absent |
| ChatwootImport.DownloadedSound | src/services/chatwoot_service.py:158-176 | at most one file per attachment; each file has a truthy, fetched URL and comes from an attachment |
| ChatwootImport.DownloadedAll | src/services/chatwoot_service.py:158-176 | when every URL is present and fetched, one file per attachment, in order |
| ChatwootImport.DownloadAttachments | src/services/chatwoot_service.py:155-176 | the download loop collects the specified files |
| ChatwootImport.RequestOf | src/services/chatwoot_service.py:179-196 | a request iff the message has content, which it copies; private iff content_type_msg is 'note'; message_type copied, 'incoming' when absent; at most one file per attachment, each with a truthy fetched URL |
| ChatwootImport.RequestsCount | src/services/chatwoot_service.py:154-199 | at most one message request per message, exactly one each iff all have content |
| ChatwootImport.RequestsOfMessages | src/services/chatwoot_service.py:179-196 | content copied; private iff content_type_msg is 'note'; message_type defaults to 'incoming'; the downloaded attachments |
| ChatwootImport.ImportConversation | src/services/chatwoot_service.py:137-206 | created 'open', the message requests in order, then the given status |
| ZendeskClean.CleanedKeepsOrder | src/services/clean_service.py:23-34 | one cleaned article per article in order; content from body, category_id from section_id, the rest copied |
| ZendeskClean.CleanArticles | src/services/clean_service.py:20-44 | the loop builds the cleaned list; count == number of articles, source 'zendesk_articles' |
| IntercomClean.TagNames | src/services/intercom_clean_service.py:23-26 | [] unless `tags` is a dict with a 'tags' key; otherwise one name per tag |
| IntercomClean.CleanedKeepsOrder | src/services/intercom_clean_service.py:21-42 | one cleaned article per article in order; fields copied, content from body; each tag's name, '' when absent |
| IntercomClean.CleanArticles | src/services/intercom_clean_service.py:18-51 | the loop builds the cleaned list; count == number of articles, source 'intercom_articles' |

## Left out

- File reading and writing, `os.makedirs`, `save_json`, `get_file_size` and printing: I/O and floating point.
- The HTTP clients (`src/api/`), and the calls that create contacts, conversations and messages: network I/O. `ImportConversation` returns the sequence of requests the import would make.
- `messages_added` in the conversation import: it counts remote calls that did not raise, which depends on the network.
- An attachment whose download raises is treated like one that does not return 200. Both are `fetched` returning false.
- `html_to_markdown`, `format_date_header`, `clean_markdown_formatting` and `datetime.fromtimestamp(...).isoformat()` are uninterpreted. Nothing about their output is claimed.
- `get_timestamp` and the metadata stamps (`transformed_at`, `cleaned_at`, `prepared_at`): clock values. They are parameters or left out.
- The `transformations` list and `source` strings in the transform metadata are constants and are not modelled.
- Python's `True == 1` equality of keys, and `str()` of lists and dicts: ids printed into text are required to be scalars.
- `str.lower` is modelled on ASCII letters only; `str.strip` removes the characters Python classes as whitespace.
- `Json` has no floating-point numbers: the records handled here carry ids, strings, booleans, lists and objects, and a float id is not modelled.
- PrepareContacts.Mergeable: requires the e-mail to be absent, None or a string. A falsy non-string e-mail such as `0` or `False`, which `merge_and_deduplicate` would use as a key, is excluded.
- The merge's clock readings are per record: `get_timestamp(True)` is read once for each record formatted, and nothing relates one reading to another.
- Records that would make the Python code raise (a message without `content`, a non-string body) are excluded by preconditions, as the run would abort.
- `find_specific_conversations`, `find_contacts_for_conversations`, `test_import_sample_data`, the export services, the menu in `main.py` and the configuration loading: test scaffolding and glue, not record logic.

## Findings

| source | as written | input that shows it | evidently intended | confidence | as-written member | corrected member |
|---|---|---|---|---|---|---|
| src/services/chatwoot_service.py:109 | `original_id` is `contact.get('zendesk_id', contact.get('intercom_id'))`; the default applies only when the key is absent, and prepared contacts always carry `zendesk_id` | a prepared Intercom-only contact with `intercom_id` 7 and `zendesk_id` None gets `original_id` None | fall back to `intercom_id` when `zendesk_id` is None | not executed | ChatwootImport.OriginalIdLostForIntercom | ChatwootImport.OriginalIdKept |
