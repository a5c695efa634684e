/** Contact preparation for the Chatwoot import: every Zendesk user and every
    Intercom contact is projected onto one contact shape, and the two lists
    are merged into one dictionary keyed by e-mail address, Intercom data
    winning on a shared key while the Zendesk identity is kept. */
module PrepareContacts {
  import opened JsonValue
  import opened Text

  datatype Source = Zendesk | Intercom

  /** A contact as `format_contact` builds it. The e-mail is always a string
      here: the merge passes either the raw address or a placeholder. */
  datatype Contact = Contact(
    email: string,
    name: Json,
    phoneNumber: Json,
    zendeskId: Json,
    intercomId: Json,
    importedFromZdAt: Json,
    importedFromIntercomAt: Json,
    avatarUrl: Json,
    additionalAttributes: Dict)

  const TargetDomain: string := "@alphorm.com"

  // ---------------------------------------------------------------------
  // E-mail rewriting
  // ---------------------------------------------------------------------

  /** `i` is the index of the first '@' of `e`. */
  predicate FirstAt(e: string, i: int)
  {
    0 <= i < |e| && e[i] == '@' && forall k | 0 <= k < i :: e[k] != '@'
  }

  /** `local@domain` becomes `local_domain@alphorm.com`. The address must be
      non-empty and contain '@' (`'@' in e` holds exactly when `IndexOf`
      stops before the end); the split is `e.split('@', 1)`, at the first
      '@'. Any other address is kept as it is. */
  function MangleEmail(e: string): string
  {
    var i := IndexOf(e, '@');
    if e != [] && i < |e| then e[..i] + "_" + e[i + 1..] + TargetDomain else e
  }

  /** The rewrite character by character: an address without '@' is kept,
      and one with '@' keeps every character but its first '@', which
      becomes '_', and gains the target domain. */
  lemma MangleEmailChars(e: string)
    ensures '@' !in e ==> MangleEmail(e) == e
    ensures '@' in e ==>
      && |MangleEmail(e)| == |e| + |TargetDomain| && MangleEmail(e)[|e|..] == TargetDomain
      && forall k | 0 <= k < |e| :: MangleEmail(e)[k] == if FirstAt(e, k) then '_' else e[k]
  {
    var i := IndexOf(e, '@');
    IndexOfFirst(e, '@');
    if '@' in e {
      var r := MangleEmail(e);
      assert r == e[..i] + "_" + e[i + 1..] + TargetDomain;
      assert forall k | 0 <= k < |e| :: FirstAt(e, k) <==> k == i;
      assert forall k | 0 <= k < i :: r[k] == e[k];
      assert forall k | i < k < |e| :: r[k] == e[i + 1..][k - i - 1];
    }
  }

  /** An address without '@' is kept as it is. */
  lemma MangleWithoutAt(e: string)
    requires '@' !in e
    ensures MangleEmail(e) == e
  {
    IndexOfFirst(e, '@');
  }

  /** An address with '@' is split at its first '@'. */
  lemma MangleAtFirstAt(e: string, i: int)
    requires FirstAt(e, i)
    ensures MangleEmail(e) == e[..i] + "_" + e[i + 1..] + TargetDomain
  {
    IndexOfAt(e, '@', i);
  }

  /** Reads a local part back, taking its first '_' for the '@'. */
  function ReadBack(m: string): Option<string>
  {
    var i := IndexOf(m, '_');
    if i < |m| then Some(m[..i] + "@" + m[i + 1..]) else None
  }

  /** Reads a rewritten address back: the target domain is cut off and the
      rest read back. */
  function Unmangle(r: string): Option<string>
  {
    match WithoutSuffix(r, TargetDomain)
    case None => None
    case Some(m) => ReadBack(m)
  }

  lemma UnmangleAppend(m: string)
    ensures Unmangle(m + TargetDomain) == ReadBack(m)
  {
    WithoutSuffixAppend(m, TargetDomain);
  }

  /** The rewrite is undone by `Unmangle` when the local part has no '_'. */
  lemma MangleRoundTrip(e: string, i: int)
    requires FirstAt(e, i) && '_' !in e[..i]
    ensures Unmangle(MangleEmail(e)) == Some(e)
  {
    MangleAtFirstAt(e, i);
    var m := e[..i] + "_" + e[i + 1..];
    UnmangleAppend(m);
    forall k | 0 <= k < i
      ensures m[k] != '_'
    {
      assert m[k] == e[..i][k];
    }
    IndexOfAt(m, '_', i);
    assert m[..i] == e[..i] && m[i + 1..] == e[i + 1..];
    assert e == e[..i] + "@" + e[i + 1..];
  }

  /** An address put together from a local part without '@' and a domain is
      rewritten to the two joined by '_'. */
  lemma MangleJoined(local: string, domain: string)
    requires '@' !in local
    ensures MangleEmail(local + "@" + domain) == local + "_" + domain + TargetDomain
  {
    var e := local + "@" + domain;
    assert e[|local|] == '@';
    assert forall k | 0 <= k < |local| :: e[k] == local[k];
    MangleAtFirstAt(e, |local|);
    assert e[..|local|] == local && e[|local| + 1..] == domain;
  }

  /** The rewrite is not injective: `x_y@z` and `x@y_z` (for instance
      `a_b@c` and `a@b_c`) are different raw addresses with the same rewritten
      one, so raw-keyed deduplication can emit two contacts with the same
      final address. */
  lemma MangleNotInjective(x: string, y: string, z: string)
    requires '@' !in x && '@' !in y
    ensures x + "_" + y + "@" + z != x + "@" + y + "_" + z
    ensures MangleEmail(x + "_" + y + "@" + z) == MangleEmail(x + "@" + y + "_" + z) == x + "_" + y + "_" + z + TargetDomain
  {
    var e1, e2 := x + "_" + y + "@" + z, x + "@" + y + "_" + z;
    assert e1[|x|] != e2[|x|];
    var l1, d2 := x + "_" + y, y + "_" + z;
    var r := x + "_" + y + "_" + z + TargetDomain;
    assert MangleEmail(e1) == r by {
      assert '@' !in l1 by {
        assert forall k | 0 <= k < |l1| :: l1[k] == (if k < |x| then x[k] else if k == |x| then '_' else y[k - |x| - 1]);
      }
      MangleJoined(l1, z);
      assert e1 == l1 + "@" + z;
      assert l1 + "_" + z + TargetDomain == r;
    }
    assert MangleEmail(e2) == r by {
      MangleJoined(x, d2);
      assert e2 == x + "@" + d2;
      assert x + "_" + d2 + TargetDomain == r;
    }
  }

  // ---------------------------------------------------------------------
  // Per-source projection
  // ---------------------------------------------------------------------

  /** What `format_contact` needs of an Intercom record: `location` absent or
      an object (`data.get('location', {}).get(...)`). */
  predicate ContactRecordOk(d: Dict, src: Source)
  {
    src == Intercom ==> ObjOrAbsent(d, "location")
  }

  function ZendeskAttributes(d: Dict): Dict
  {
    map[
      "time_zone" := Get(d, "time_zone"),
      "locale" := Get(d, "locale"),
      "organization_id" := Get(d, "organization_id"),
      "created_at" := Get(d, "created_at"),
      "tags" := GetOr(d, "tags", JArr([]))]
  }

  function IntercomAttributes(d: Dict): Dict
    requires ObjOrAbsent(d, "location")
  {
    var location := SubDict(d, "location");
    map[
      "external_id" := Get(d, "external_id"),
      "location_country" := Get(location, "country"),
      "location_city" := Get(location, "city"),
      "browser" := Get(d, "browser"),
      "os" := Get(d, "os"),
      "created_at" := Get(d, "created_at"),
      "custom_attributes" := GetOr(d, "custom_attributes", JObj(map[])),
      "tags" := GetOr(d, "tags", JArr([]))]
  }

  /** The Zendesk attribute set: five keys, `tags` defaulting to `[]` only
      when the key is absent. */
  lemma ZendeskAttributesShape(d: Dict)
    ensures var a := ZendeskAttributes(d);
      && a.Keys == {"time_zone", "locale", "organization_id", "created_at", "tags"}
      && a["time_zone"] == Get(d, "time_zone") && a["locale"] == Get(d, "locale")
      && a["organization_id"] == Get(d, "organization_id") && a["created_at"] == Get(d, "created_at")
      && a["tags"] == GetOr(d, "tags", JArr([]))
  {
  }

  /** The Intercom attribute set: eight keys, the `location` object flattened
      into `location_country` and `location_city`. */
  lemma IntercomAttributesShape(d: Dict)
    requires ObjOrAbsent(d, "location")
    ensures var a := IntercomAttributes(d);
      && a.Keys == {"external_id", "location_country", "location_city", "browser", "os",
                    "created_at", "custom_attributes", "tags"}
      && a["location_country"] == Get(SubDict(d, "location"), "country")
      && a["location_city"] == Get(SubDict(d, "location"), "city")
      && a["external_id"] == Get(d, "external_id") && a["browser"] == Get(d, "browser")
      && a["os"] == Get(d, "os") && a["created_at"] == Get(d, "created_at")
      && a["custom_attributes"] == GetOr(d, "custom_attributes", JObj(map[]))
      && a["tags"] == GetOr(d, "tags", JArr([]))
  {
  }

  /** `format_contact(data, source, email)`; `now` is the import timestamp
      the source reads from the clock. */
  function FormatContact(d: Dict, src: Source, email: string, now: string): (c: Contact)
    requires ContactRecordOk(d, src)
    ensures c.email == MangleEmail(email)
    ensures src == Zendesk ==>
      && c.zendeskId == Get(d, "id") && c.importedFromZdAt == JStr(now)
      && c.intercomId == JNull && c.importedFromIntercomAt == JNull && c.avatarUrl == JNull
    ensures src == Intercom ==>
      && c.intercomId == Get(d, "id") && c.importedFromIntercomAt == JStr(now)
      && c.zendeskId == JNull && c.importedFromZdAt == JNull
  {
    var stamp := JStr(now);
    match src
    case Zendesk =>
      Contact(MangleEmail(email), Get(d, "name"), Get(d, "phone"),
              Get(d, "id"), JNull, stamp, JNull,
              JNull, ZendeskAttributes(d))
    case Intercom =>
      Contact(MangleEmail(email), Get(d, "name"), Get(d, "phone"),
              JNull, Get(d, "id"), JNull, stamp,
              Get(d, "avatar"), IntercomAttributes(d))
  }

  /** The source a contact was formatted from, read off its import stamps. */
  function SourceOf(c: Contact): Source
  {
    if c.importedFromZdAt != JNull then Zendesk else Intercom
  }

  /** The record's id is kept under its own source's id field, the other
      source's id is `None`, exactly the own source's import stamp is set,
      and the source can be read back off the contact. */
  lemma FormatContactIdentity(d: Dict, src: Source, email: string, now: string)
    requires ContactRecordOk(d, src)
    ensures var c := FormatContact(d, src, email, now);
      && SourceOf(c) == src
      && (if src == Zendesk then c.zendeskId else c.intercomId) == Get(d, "id")
      && (if src == Zendesk then c.intercomId else c.zendeskId) == JNull
      && (c.importedFromZdAt == JStr(now) <==> src == Zendesk)
      && (c.importedFromIntercomAt == JStr(now) <==> src == Intercom)
      && c.name == Get(d, "name") && c.phoneNumber == Get(d, "phone")
      && c.avatarUrl == (if src == Zendesk then JNull else Get(d, "avatar"))
      && c.additionalAttributes == (if src == Zendesk then ZendeskAttributes(d) else IntercomAttributes(d))
  {
  }

  /** The contact's address reads back as the address it was given, when
      that address has an '@' and no '_' before it. */
  lemma FormatContactEmail(d: Dict, src: Source, email: string, now: string, i: int)
    requires ContactRecordOk(d, src)
    requires FirstAt(email, i) && '_' !in email[..i]
    ensures Unmangle(FormatContact(d, src, email, now).email) == Some(email)
  {
    MangleRoundTrip(email, i);
  }

  // ---------------------------------------------------------------------
  // Deduplication keys
  // ---------------------------------------------------------------------

  /** What the merge needs of a record: the e-mail is absent, `None` or a
      string, a record without e-mail has a scalar id to print, and the
      record can be formatted for its source. */
  predicate Mergeable(d: Dict, src: Source)
  {
    && OptStr(d, "email")
    && (Get(d, "email") == JNull ==> IsScalar(Get(d, "id")))
    && ContactRecordOk(d, src)
  }

  predicate AllMergeable(ds: seq<Dict>, src: Source)
  {
    forall i | 0 <= i < |ds| :: Mergeable(ds[i], src)
  }

  function Placeholder(src: Source, id: Json): string
    requires IsScalar(id)
  {
    "no-email-" + (if src == Zendesk then "zd" else "ic") + "-" + PyStr(id) + TargetDomain
  }

  /** Placeholders of the two sources never coincide. */
  lemma PlaceholdersDisjoint(a: Json, b: Json)
    requires IsScalar(a) && IsScalar(b)
    ensures Placeholder(Zendesk, a) != Placeholder(Intercom, b)
  {
    assert Placeholder(Zendesk, a)[9] == 'z';
    assert Placeholder(Intercom, b)[9] == 'i';
  }

  /** The dictionary key: the raw e-mail, or the placeholder when it is `None`.
      An empty address is a key like any other. */
  function DedupKey(d: Dict, src: Source): (k: string)
    requires Mergeable(d, src)
    ensures Get(d, "email").JStr? ==> k == Get(d, "email").s
    ensures Get(d, "email") == JNull ==> StartsWith(k, "no-email-") && k != ""
  {
    var email := Get(d, "email");
    if email.JStr? then email.s
    else
      var p := Placeholder(src, Get(d, "id"));
      assert p[..9] == "no-email-";
      p
  }

  /** Only a `None` or missing e-mail counts as missing and takes a
      placeholder key, which is never empty; an empty address is kept as
      its own key. */
  lemma MissingEmailKey(d: Dict, src: Source, stamp: string)
    requires Mergeable(d, src)
    ensures VisitOf(src, d, stamp).noEmail <==> Get(d, "email") == JNull
    ensures VisitOf(src, d, stamp).noEmail ==>
      VisitOf(src, d, stamp).key == Placeholder(src, Get(d, "id")) && VisitOf(src, d, stamp).key != ""
    ensures Get(d, "email").JStr? ==> VisitOf(src, d, stamp).key == Get(d, "email").s
    ensures Get(d, "email") == JStr("") ==> !VisitOf(src, d, stamp).noEmail && VisitOf(src, d, stamp).key == ""
  {
  }

  /** The clock readings of one run: `format_contact` reads the clock once
      per call, so the `t`-th Zendesk user and the `t`-th Intercom contact
      are each stamped with their own reading. */
  datatype Clock = Clock(zendesk: nat -> string, intercom: nat -> string)

  /** What one iteration of either loop works with: the source, the record,
      its dictionary key, whether its e-mail was missing, and the clock
      reading its `format_contact` call takes. */
  datatype Visit = Visit(src: Source, rec: Dict, key: string, noEmail: bool, stamp: string)

  function VisitOf(src: Source, d: Dict, stamp: string): (v: FVisit)
    requires Mergeable(d, src)
    ensures v.src == src && v.rec == d && v.stamp == stamp && ContactRecordOk(d, src)
  {
    Visit(src, d, DedupKey(d, src), Get(d, "email") == JNull, stamp)
  }

  /** A visit whose record can be formatted for its source. */
  type FVisit = v: Visit | ContactRecordOk(v.rec, v.src) witness Visit(Zendesk, map[], [], false, [])

  /** The contact `format_contact(record, source, key)` builds for a visit. */
  function ContactOf(v: FVisit): Contact
  {
    FormatContact(v.rec, v.src, v.key, v.stamp)
  }

  /** The Zendesk users followed by the Intercom contacts, in the order the
      two loops of `merge_and_deduplicate` visit them. */
  function Visits(zendesk: seq<Dict>, intercom: seq<Dict>, clock: Clock): (vs: seq<FVisit>)
    requires AllMergeable(zendesk, Zendesk) && AllMergeable(intercom, Intercom)
    ensures |vs| == |zendesk| + |intercom|
  {
    seq(|zendesk| + |intercom|, i requires 0 <= i < |zendesk| + |intercom| => VisitNo(zendesk, intercom, clock, i))
  }

  /** Visit `i` of the two loops together. */
  function VisitNo(zendesk: seq<Dict>, intercom: seq<Dict>, clock: Clock, i: int): FVisit
    requires AllMergeable(zendesk, Zendesk) && AllMergeable(intercom, Intercom)
    requires 0 <= i < |zendesk| + |intercom|
  {
    if i < |zendesk| then VisitOf(Zendesk, zendesk[i], clock.zendesk(i))
    else VisitOf(Intercom, intercom[i - |zendesk|], clock.intercom(i - |zendesk|))
  }

  lemma VisitAt(zendesk: seq<Dict>, intercom: seq<Dict>, clock: Clock, i: int)
    requires AllMergeable(zendesk, Zendesk) && AllMergeable(intercom, Intercom)
    requires 0 <= i < |zendesk| + |intercom|
    ensures Visits(zendesk, intercom, clock)[i] ==
      if i < |zendesk| then VisitOf(Zendesk, zendesk[i], clock.zendesk(i))
      else VisitOf(Intercom, intercom[i - |zendesk|], clock.intercom(i - |zendesk|))
  {
  }

  lemma IntercomVisitAt(zendesk: seq<Dict>, intercom: seq<Dict>, clock: Clock, j: int)
    requires AllMergeable(zendesk, Zendesk) && AllMergeable(intercom, Intercom)
    requires 0 <= j < |intercom|
    ensures Visits(zendesk, intercom, clock)[|zendesk| + j] == VisitOf(Intercom, intercom[j], clock.intercom(j))
  {
    VisitAt(zendesk, intercom, clock, |zendesk| + j);
  }

  function KeysOf(vs: seq<FVisit>): (ks: seq<string>)
    ensures |ks| == |vs|
    ensures forall i | 0 <= i < |vs| :: ks[i] == vs[i].key
  {
    seq(|vs|, i requires 0 <= i < |vs| => vs[i].key)
  }

  // Insertion-ordered dictionary
  // ---------------------------------------------------------------------

  predicate Distinct(s: seq<string>)
  {
    forall i, j | 0 <= i < j < |s| :: s[i] != s[j]
  }

  /** The elements of `s` in order of first occurrence. */
  function Dedup(s: seq<string>): (r: seq<string>)
    ensures Distinct(r)
    ensures forall x :: x in r <==> x in s
    ensures |r| <= |s|
  {
    if s == [] then []
    else
      var p := Dedup(s[..|s| - 1]);
      if s[|s| - 1] in s[..|s| - 1] then p else p + [s[|s| - 1]]
  }

  /** A Python dict of contacts: `keys` in insertion order, an overwrite
      keeping the key where it was. */
  datatype Table = Table(keys: seq<string>, entries: map<string, Contact>)
  {
    ghost predicate Valid()
    {
      Distinct(keys) && forall k :: k in entries <==> k in keys
    }

    /** `d[k] = c`. */
    function Put(k: string, c: Contact): (t: Table)
      requires Valid()
      ensures t.Valid()
      ensures t.entries == entries[k := c]
      ensures t.keys == if k in entries then keys else keys + [k]
    {
      if k in entries then Table(keys, entries[k := c]) else Table(keys + [k], entries[k := c])
    }

    /** `list(d.values())`. */
    function Values(): (vs: seq<Contact>)
      requires Valid()
      ensures |vs| == |keys|
      ensures forall i | 0 <= i < |keys| :: vs[i] == entries[keys[i]]
    {
      seq(|keys|, i requires 0 <= i < |keys| => entries[keys[i]])
    }
  }

  // ---------------------------------------------------------------------
  // The merge, as a fold
  // ---------------------------------------------------------------------

  datatype Stats = Stats(zendesk: nat, intercom: nat, merged: nat, noEmail: nat)

  datatype MergeState = MergeState(table: Table, stats: Stats)

  /** One iteration of either loop of `merge_and_deduplicate`. */
  function Step(st: MergeState, v: FVisit): (r: MergeState)
    requires st.table.Valid()
    ensures r.table.Valid()
  {
    var stats := if v.noEmail then st.stats.(noEmail := st.stats.noEmail + 1) else st.stats;
    var contact := ContactOf(v);
    match v.src
    case Zendesk =>
      MergeState(st.table.Put(v.key, contact), stats.(zendesk := stats.zendesk + 1))
    case Intercom =>
      if v.key in st.table.entries then
        var previous := st.table.entries[v.key];
        var merged := contact.(zendeskId := previous.zendeskId, importedFromZdAt := previous.importedFromZdAt);
        MergeState(st.table.Put(v.key, merged), stats.(merged := stats.merged + 1))
      else
        MergeState(st.table.Put(v.key, contact), stats.(intercom := stats.intercom + 1))
  }

  /** One iteration adds its key and leaves every other entry alone; it
      counts the record once, as a Zendesk user, a new Intercom contact or a
      merge, and counts a missing e-mail; a merge keeps the Zendesk id of the
      entry it replaces. */
  lemma StepEffect(st: MergeState, v: FVisit)
    requires st.table.Valid()
    ensures var r := Step(st, v);
      && r.table.entries.Keys == st.table.entries.Keys + {v.key}
      && (forall k | k in st.table.entries && k != v.key :: r.table.entries[k] == st.table.entries[k])
      && r.stats.zendesk + r.stats.intercom + r.stats.merged
         == st.stats.zendesk + st.stats.intercom + st.stats.merged + 1
      && r.stats.noEmail == st.stats.noEmail + (if v.noEmail then 1 else 0)
      && (v.src == Intercom && v.key in st.table.entries ==>
            && r.table.entries[v.key].zendeskId == st.table.entries[v.key].zendeskId
            && r.stats.merged == st.stats.merged + 1)
  {
  }

  /** `Step` on an Intercom visit, unfolded. */
  lemma StepIntercom(st: MergeState, v: FVisit)
    requires st.table.Valid() && v.src == Intercom
    ensures var counted := if v.noEmail then st.stats.(noEmail := st.stats.noEmail + 1) else st.stats;
      Step(st, v) ==
        if v.key in st.table.entries then
          var previous := st.table.entries[v.key];
          MergeState(st.table.Put(v.key, ContactOf(v).(zendeskId := previous.zendeskId, importedFromZdAt := previous.importedFromZdAt)),
                     counted.(merged := counted.merged + 1))
        else MergeState(st.table.Put(v.key, ContactOf(v)), counted.(intercom := counted.intercom + 1))
  {
  }

  /** Both loops as one fold over the visits. */
  function MergeAll(vs: seq<FVisit>): (st: MergeState)
    ensures st.table.Valid()
  {
    if vs == [] then MergeState(Table([], map[]), Stats(0, 0, 0, 0))
    else Step(MergeAll(vs[..|vs| - 1]), vs[|vs| - 1])
  }

  function Merge(zendesk: seq<Dict>, intercom: seq<Dict>, clock: Clock): MergeState
    requires AllMergeable(zendesk, Zendesk) && AllMergeable(intercom, Intercom)
  {
    MergeAll(Visits(zendesk, intercom, clock))
  }

  function CountSource(vs: seq<FVisit>, src: Source): nat
  {
    if vs == [] then 0
    else CountSource(vs[..|vs| - 1], src) + (if vs[|vs| - 1].src == src then 1 else 0)
  }

  function CountNoEmail(vs: seq<FVisit>): nat
  {
    if vs == [] then 0
    else CountNoEmail(vs[..|vs| - 1]) + (if vs[|vs| - 1].noEmail then 1 else 0)
  }

  /** The number of records whose `email` is `None` or missing. */
  function MissingEmails(ds: seq<Dict>): nat
  {
    if ds == [] then 0
    else MissingEmails(ds[..|ds| - 1]) + (if Get(ds[|ds| - 1], "email") == JNull then 1 else 0)
  }

  // ---------------------------------------------------------------------
  // Properties of the fold
  // ---------------------------------------------------------------------

  /** The fold keeps the keys in order of first occurrence and counts every
      visit once: Zendesk users in `zendesk`, Intercom contacts in `intercom`
      or `merged`, and visits without e-mail in `noEmail`. */
  lemma {:induction false} MergeAllInvariant(vs: seq<FVisit>)
    ensures var st := MergeAll(vs);
      && st.table.keys == Dedup(KeysOf(vs))
      && st.stats.zendesk == CountSource(vs, Zendesk)
      && st.stats.intercom + st.stats.merged == CountSource(vs, Intercom)
      && st.stats.noEmail == CountNoEmail(vs)
    decreases |vs|
  {
    if vs != [] {
      var p := vs[..|vs| - 1];
      MergeAllInvariant(p);
      assert KeysOf(vs)[..|vs| - 1] == KeysOf(p);
    }
  }

  lemma CountsAppend(vs: seq<FVisit>, v: FVisit)
    ensures CountSource(vs + [v], Zendesk) == CountSource(vs, Zendesk) + if v.src == Zendesk then 1 else 0
    ensures CountSource(vs + [v], Intercom) == CountSource(vs, Intercom) + if v.src == Intercom then 1 else 0
    ensures CountNoEmail(vs + [v]) == CountNoEmail(vs) + if v.noEmail then 1 else 0
  {
    assert (vs + [v])[..|vs|] == vs;
  }

  lemma MissingEmailsSnoc(ds: seq<Dict>, t: nat)
    requires t < |ds|
    ensures MissingEmails(ds[..t + 1]) == MissingEmails(ds[..t]) + if Get(ds[t], "email") == JNull then 1 else 0
  {
    assert ds[..t + 1][..t] == ds[..t];
  }

  /** The visits of the first `j + 1` Intercom contacts extend those of the
      first `j` by one. */
  lemma VisitsSnocIntercom(zendesk: seq<Dict>, intercom: seq<Dict>, clock: Clock, j: nat)
    requires AllMergeable(zendesk, Zendesk) && AllMergeable(intercom, Intercom)
    requires j < |intercom|
    ensures Visits(zendesk, intercom[..j + 1], clock) == Visits(zendesk, intercom[..j], clock) + [VisitOf(Intercom, intercom[j], clock.intercom(j))]
  {
    var a, b := Visits(zendesk, intercom[..j + 1], clock), Visits(zendesk, intercom[..j], clock);
    forall t | 0 <= t < |a|
      ensures a[t] == (b + [VisitOf(Intercom, intercom[j], clock.intercom(j))])[t]
    {
      VisitAt(zendesk, intercom[..j + 1], clock, t);
      if t < |b| {
        VisitAt(zendesk, intercom[..j], clock, t);
      }
    }
  }

  /** Likewise for the first `i + 1` Zendesk users, on their own. */
  lemma VisitsSnocZendesk(zendesk: seq<Dict>, clock: Clock, i: nat)
    requires AllMergeable(zendesk, Zendesk)
    requires i < |zendesk|
    ensures Visits(zendesk[..i + 1], [], clock) == Visits(zendesk[..i], [], clock) + [VisitOf(Zendesk, zendesk[i], clock.zendesk(i))]
  {
    var a, b := Visits(zendesk[..i + 1], [], clock), Visits(zendesk[..i], [], clock);
    forall t | 0 <= t < |a|
      ensures a[t] == (b + [VisitOf(Zendesk, zendesk[i], clock.zendesk(i))])[t]
    {
      VisitAt(zendesk[..i + 1], [], clock, t);
      if t < |b| {
        VisitAt(zendesk[..i], [], clock, t);
      }
    }
  }

  /** The visits of the first `t` Zendesk users count `t` Zendesk users
      and one missing e-mail per user among them without one. */
  lemma {:induction false} ZendeskPrefixCounts(zendesk: seq<Dict>, clock: Clock, t: nat)
    requires AllMergeable(zendesk, Zendesk)
    requires t <= |zendesk|
    ensures var vs := Visits(zendesk[..t], [], clock);
      && CountSource(vs, Zendesk) == t && CountSource(vs, Intercom) == 0
      && CountNoEmail(vs) == MissingEmails(zendesk[..t])
  {
    if t > 0 {
      ZendeskPrefixCounts(zendesk, clock, t - 1);
      VisitsSnocZendesk(zendesk, clock, t - 1);
      CountsAppend(Visits(zendesk[..t - 1], [], clock), VisitOf(Zendesk, zendesk[t - 1], clock.zendesk(t - 1)));
      MissingEmailsSnoc(zendesk, t - 1);
    }
  }

  /** All Zendesk visits and those of the first `t` Intercom contacts count
      every user, `t` Intercom contacts and the missing e-mails among them. */
  lemma {:induction false} IntercomPrefixCounts(zendesk: seq<Dict>, intercom: seq<Dict>, clock: Clock, t: nat)
    requires AllMergeable(zendesk, Zendesk) && AllMergeable(intercom, Intercom)
    requires t <= |intercom|
    ensures var vs := Visits(zendesk, intercom[..t], clock);
      && CountSource(vs, Zendesk) == |zendesk| && CountSource(vs, Intercom) == t
      && CountNoEmail(vs) == MissingEmails(zendesk) + MissingEmails(intercom[..t])
  {
    if t > 0 {
      var v := VisitOf(Intercom, intercom[t - 1], clock.intercom(t - 1));
      IntercomPrefixCounts(zendesk, intercom, clock, t - 1);
      var a := Visits(zendesk, intercom[..t - 1], clock);
      assert Visits(zendesk, intercom[..t], clock) == a + [v] by {
        VisitsSnocIntercom(zendesk, intercom, clock, t - 1);
      }
      CountsAppend(a, v);
      MissingEmailsSnoc(intercom, t - 1);
    } else {
      ZendeskPrefixCounts(zendesk, clock, |zendesk|);
      assert zendesk[..|zendesk|] == zendesk && intercom[..0] == [];
    }
  }

  /** One Zendesk visit per user, one Intercom visit per contact, and one
      visit without e-mail per record whose e-mail is missing. */
  lemma VisitCounts(zendesk: seq<Dict>, intercom: seq<Dict>, clock: Clock)
    requires AllMergeable(zendesk, Zendesk) && AllMergeable(intercom, Intercom)
    ensures var vs := Visits(zendesk, intercom, clock);
      && CountSource(vs, Zendesk) == |zendesk|
      && CountSource(vs, Intercom) == |intercom|
      && CountNoEmail(vs) == MissingEmails(zendesk) + MissingEmails(intercom)
  {
    IntercomPrefixCounts(zendesk, intercom, clock, |intercom|);
    assert intercom[..|intercom|] == intercom;
  }

  lemma {:induction false} DistinctCardinality(s: seq<string>)
    requires Distinct(s)
    ensures |set x | x in s| == |s|
    decreases |s|
  {
    if s != [] {
      var p := s[..|s| - 1];
      DistinctCardinality(p);
      assert (set x | x in s) == (set x | x in p) + {s[|s| - 1]};
      assert s[|s| - 1] !in p;
    }
  }

  /** The counters add up: one Zendesk count per Zendesk user, one
      Intercom-or-merged count per Intercom contact, one `no_email` count per
      record without e-mail, and the result holds one contact per distinct
      key, which is at most one per record. */
  lemma MergeCounts(zendesk: seq<Dict>, intercom: seq<Dict>, clock: Clock)
    requires AllMergeable(zendesk, Zendesk) && AllMergeable(intercom, Intercom)
    ensures var st := Merge(zendesk, intercom, clock);
      && st.stats.zendesk == |zendesk|
      && st.stats.intercom + st.stats.merged == |intercom|
      && st.stats.noEmail == MissingEmails(zendesk) + MissingEmails(intercom)
      && |st.table.Values()| == |set k | k in KeysOf(Visits(zendesk, intercom, clock))|
      && |st.table.Values()| <= |zendesk| + |intercom|
  {
    var vs := Visits(zendesk, intercom, clock);
    VisitCounts(zendesk, intercom, clock);
    MergeAllInvariant(vs);
    var st := MergeAll(vs);
    DistinctCardinality(st.table.keys);
    assert (set k | k in st.table.keys) == (set k | k in KeysOf(vs));
  }

  /** The index of the last visit with key `k`, or -1. */
  function LastIndex(vs: seq<FVisit>, k: string): (i: int)
    ensures -1 <= i < |vs|
    ensures i >= 0 ==> vs[i].key == k && forall t | i < t < |vs| :: vs[t].key != k
    ensures i < 0 ==> forall t | 0 <= t < |vs| :: vs[t].key != k
  {
    if vs == [] then -1
    else if vs[|vs| - 1].key == k then |vs| - 1
    else LastIndex(vs[..|vs| - 1], k)
  }

  /** The index of the last Zendesk visit with key `k`, or -1. */
  function LastZendeskIndex(vs: seq<FVisit>, k: string): (i: int)
    ensures -1 <= i < |vs|
    ensures i >= 0 ==> vs[i].src == Zendesk && vs[i].key == k
    ensures i >= 0 ==> forall t | i < t < |vs| :: vs[t].src != Zendesk || vs[t].key != k
    ensures i < 0 ==> forall t | 0 <= t < |vs| :: vs[t].src != Zendesk || vs[t].key != k
  {
    if vs == [] then -1
    else if vs[|vs| - 1].src == Zendesk && vs[|vs| - 1].key == k then |vs| - 1
    else LastZendeskIndex(vs[..|vs| - 1], k)
  }

  /** The entry the merge leaves under `k`: the contact of the last visit with
      that key; when that visit is an Intercom one and some Zendesk visit had
      the key, with the Zendesk id and stamp of the last such visit. */
  function ExpectedEntry(vs: seq<FVisit>, k: string): Contact
    requires LastIndex(vs, k) >= 0
  {
    var last := vs[LastIndex(vs, k)];
    var c := ContactOf(last);
    var z := LastZendeskIndex(vs, k);
    if last.src == Intercom && z >= 0 then
      var zc := ContactOf(vs[z]);
      c.(zendeskId := zc.zendeskId, importedFromZdAt := zc.importedFromZdAt)
    else
      c
  }

  /** The keys present after the fold are exactly the keys of the visits. */
  lemma MergeDomain(vs: seq<FVisit>, k: string)
    ensures k in MergeAll(vs).table.entries <==> LastIndex(vs, k) >= 0
  {
    MergeAllInvariant(vs);
    var ks := KeysOf(vs);
    assert k in ks <==> LastIndex(vs, k) >= 0 by {
      if LastIndex(vs, k) >= 0 {
        assert ks[LastIndex(vs, k)] == k;
      }
    }
  }

  /** A visit with another key leaves the expected entry of `k` alone. */
  lemma ExpectedEntryOtherKey(vs: seq<FVisit>, k: string)
    requires vs != [] && vs[|vs| - 1].key != k && LastIndex(vs, k) >= 0
    ensures LastIndex(vs, k) == LastIndex(vs[..|vs| - 1], k)
    ensures ExpectedEntry(vs, k) == ExpectedEntry(vs[..|vs| - 1], k)
  {
    var p := vs[..|vs| - 1];
    var li := LastIndex(p, k);
    assert vs[li] == p[li];
    var lz := LastZendeskIndex(p, k);
    assert LastZendeskIndex(vs, k) == lz;
    if lz >= 0 {
      assert vs[lz] == p[lz];
    }
  }

  /** After an Intercom visit with key `k`, the expected entry takes the
      Zendesk id and stamp the entry for `k` held before, if there was one. */
  lemma ExpectedEntryIntercom(vs: seq<FVisit>, k: string)
    requires vs != [] && vs[|vs| - 1].key == k && vs[|vs| - 1].src == Intercom
    ensures LastIndex(vs, k) == |vs| - 1
    ensures var p, c := vs[..|vs| - 1], ContactOf(vs[|vs| - 1]);
      && (LastIndex(p, k) >= 0 ==>
            ExpectedEntry(vs, k) == c.(zendeskId := ExpectedEntry(p, k).zendeskId,
                                            importedFromZdAt := ExpectedEntry(p, k).importedFromZdAt))
      && (LastIndex(p, k) < 0 ==> ExpectedEntry(vs, k) == c)
  {
    var p := vs[..|vs| - 1];
    var lz := LastZendeskIndex(p, k);
    assert LastZendeskIndex(vs, k) == lz;
    if lz >= 0 {
      assert vs[lz] == p[lz];
      var li := LastIndex(p, k);
      assert vs[li] == p[li];
      if p[li].src == Zendesk {
        assert lz == li;
      }
    }
  }

  /** Every key seen holds exactly the expected entry. */
  lemma {:induction false} MergeEntries(vs: seq<FVisit>, k: string)
    ensures k in MergeAll(vs).table.entries <==> LastIndex(vs, k) >= 0
    ensures k in MergeAll(vs).table.entries ==>
      MergeAll(vs).table.entries[k] == ExpectedEntry(vs, k)
    decreases |vs|
  {
    MergeDomain(vs, k);
    if vs != [] {
      var p, v := vs[..|vs| - 1], vs[|vs| - 1];
      MergeEntries(p, k);
      MergeDomain(p, k);
      assert MergeAll(vs) == Step(MergeAll(p), v);
      if v.key != k {
        if LastIndex(vs, k) >= 0 {
          ExpectedEntryOtherKey(vs, k);
        }
      } else if v.src == Intercom {
        ExpectedEntryIntercom(vs, k);
      }
    }
  }

  /** When the last visit with key `k` is a Zendesk one, or no Zendesk visit
      has that key, the entry is that visit's contact as it was formatted. */
  lemma EntryOfLast(vs: seq<FVisit>, k: string, li: int)
    requires 0 <= li < |vs| && LastIndex(vs, k) == li
    requires vs[li].src == Zendesk || LastZendeskIndex(vs, k) < 0
    ensures k in MergeAll(vs).table.entries
    ensures MergeAll(vs).table.entries[k] == ContactOf(vs[li])
  {
    MergeEntries(vs, k);
  }

  /** `t` is the last position of `ds` holding key `k`. */
  predicate LastWithKey(ds: seq<Dict>, src: Source, t: int, k: string)
    requires AllMergeable(ds, src)
  {
    0 <= t < |ds| && DedupKey(ds[t], src) == k
    && forall u | t < u < |ds| :: DedupKey(ds[u], src) != k
  }

  predicate NoneWithKey(ds: seq<Dict>, src: Source, k: string)
    requires AllMergeable(ds, src)
  {
    forall u | 0 <= u < |ds| :: DedupKey(ds[u], src) != k
  }

  lemma LastIndexInIntercom(zendesk: seq<Dict>, intercom: seq<Dict>, clock: Clock, k: string, j: int)
    requires AllMergeable(zendesk, Zendesk) && AllMergeable(intercom, Intercom)
    requires LastWithKey(intercom, Intercom, j, k)
    ensures LastIndex(Visits(zendesk, intercom, clock), k) == |zendesk| + j
  {
    var r := LastIndex(Visits(zendesk, intercom, clock), k);
    VisitAt(zendesk, intercom, clock, |zendesk| + j);
    if r > |zendesk| + j {
      VisitAt(zendesk, intercom, clock, r);
    }
  }

  lemma LastIndexInZendesk(zendesk: seq<Dict>, intercom: seq<Dict>, clock: Clock, k: string, i: int)
    requires AllMergeable(zendesk, Zendesk) && AllMergeable(intercom, Intercom)
    requires LastWithKey(zendesk, Zendesk, i, k) && NoneWithKey(intercom, Intercom, k)
    ensures LastIndex(Visits(zendesk, intercom, clock), k) == i
  {
    var r := LastIndex(Visits(zendesk, intercom, clock), k);
    VisitAt(zendesk, intercom, clock, i);
    if r > i {
      VisitAt(zendesk, intercom, clock, r);
    }
  }

  lemma LastZendeskInZendesk(zendesk: seq<Dict>, intercom: seq<Dict>, clock: Clock, k: string, i: int)
    requires AllMergeable(zendesk, Zendesk) && AllMergeable(intercom, Intercom)
    requires LastWithKey(zendesk, Zendesk, i, k)
    ensures LastZendeskIndex(Visits(zendesk, intercom, clock), k) == i
  {
    var r := LastZendeskIndex(Visits(zendesk, intercom, clock), k);
    VisitAt(zendesk, intercom, clock, i);
    if r > i {
      VisitAt(zendesk, intercom, clock, r);
    }
  }

  lemma NoZendeskIndex(zendesk: seq<Dict>, intercom: seq<Dict>, clock: Clock, k: string)
    requires AllMergeable(zendesk, Zendesk) && AllMergeable(intercom, Intercom)
    requires NoneWithKey(zendesk, Zendesk, k)
    ensures LastZendeskIndex(Visits(zendesk, intercom, clock), k) < 0
  {
    var r := LastZendeskIndex(Visits(zendesk, intercom, clock), k);
    if r >= 0 {
      VisitAt(zendesk, intercom, clock, r);
    }
  }

  /** A key shared by both sources holds the last Intercom record's contact,
      with the Zendesk id and Zendesk import stamp of the last Zendesk record. */
  lemma MergePriority(zendesk: seq<Dict>, intercom: seq<Dict>, clock: Clock, k: string, i: int, j: int)
    requires AllMergeable(zendesk, Zendesk) && AllMergeable(intercom, Intercom)
    requires LastWithKey(zendesk, Zendesk, i, k) && LastWithKey(intercom, Intercom, j, k)
    ensures var e := Merge(zendesk, intercom, clock).table.entries;
      && k in e
      && e[k] == FormatContact(intercom[j], Intercom, k, clock.intercom(j)).(
                   zendeskId := Get(zendesk[i], "id"),
                   importedFromZdAt := JStr(clock.zendesk(i)))
  {
    var vs := Visits(zendesk, intercom, clock);
    var li := |zendesk| + j;
    assert LastIndex(vs, k) == li by { LastIndexInIntercom(zendesk, intercom, clock, k, j); }
    assert LastZendeskIndex(vs, k) == i by { LastZendeskInZendesk(zendesk, intercom, clock, k, i); }
    assert vs[li] == VisitOf(Intercom, intercom[j], clock.intercom(j)) by { IntercomVisitAt(zendesk, intercom, clock, j); }
    assert vs[i] == VisitOf(Zendesk, zendesk[i], clock.zendesk(i)) by { VisitAt(zendesk, intercom, clock, i); }
    var zc := ContactOf(vs[i]);
    assert zc.zendeskId == Get(zendesk[i], "id") && zc.importedFromZdAt == JStr(clock.zendesk(i));
    assert ExpectedEntry(vs, k) == ContactOf(vs[li]).(zendeskId := zc.zendeskId, importedFromZdAt := zc.importedFromZdAt);
    MergeEntries(vs, k);
  }

  /** A key only Zendesk has holds its last Zendesk record's contact. */
  lemma MergeZendeskOnly(zendesk: seq<Dict>, intercom: seq<Dict>, clock: Clock, k: string, i: int)
    requires AllMergeable(zendesk, Zendesk) && AllMergeable(intercom, Intercom)
    requires LastWithKey(zendesk, Zendesk, i, k) && NoneWithKey(intercom, Intercom, k)
    ensures var e := Merge(zendesk, intercom, clock).table.entries;
      k in e && e[k] == FormatContact(zendesk[i], Zendesk, k, clock.zendesk(i))
  {
    var vs := Visits(zendesk, intercom, clock);
    LastIndexInZendesk(zendesk, intercom, clock, k, i);
    MergeEntries(vs, k);
    VisitAt(zendesk, intercom, clock, i);
  }

  /** A key only Intercom has holds its last Intercom record's contact, whose
      Zendesk id and stamp stay `None`. */
  lemma MergeIntercomOnly(zendesk: seq<Dict>, intercom: seq<Dict>, clock: Clock, k: string, j: int)
    requires AllMergeable(zendesk, Zendesk) && AllMergeable(intercom, Intercom)
    requires NoneWithKey(zendesk, Zendesk, k) && LastWithKey(intercom, Intercom, j, k)
    ensures var e := Merge(zendesk, intercom, clock).table.entries;
      && k in e && e[k] == FormatContact(intercom[j], Intercom, k, clock.intercom(j))
      && e[k].zendeskId == JNull && e[k].importedFromZdAt == JNull
  {
    var vs := Visits(zendesk, intercom, clock);
    var li := |zendesk| + j;
    assert LastIndex(vs, k) == li by { LastIndexInIntercom(zendesk, intercom, clock, k, j); }
    assert LastZendeskIndex(vs, k) < 0 by { NoZendeskIndex(zendesk, intercom, clock, k); }
    assert vs[li] == VisitOf(Intercom, intercom[j], clock.intercom(j)) by { IntercomVisitAt(zendesk, intercom, clock, j); }
    EntryOfLast(vs, k, li);
  }

  // ------------------------------------------------------------------
  // The loops
  // ---------------------------------------------------------------------

  /** The body of the Zendesk loop of `merge_and_deduplicate`: the user's
      contact is stored under its key, replacing any earlier one. */
  method AddZendeskUser(table: Table, stats: Stats, user: Dict, now: string)
    returns (table': Table, stats': Stats)
    requires table.Valid() && Mergeable(user, Zendesk)
    ensures MergeState(table', stats') == Step(MergeState(table, stats), VisitOf(Zendesk, user, now))
  {
    var email := Get(user, "email");
    var key: string;
    stats' := stats;
    if email == JNull {
      key := Placeholder(Zendesk, Get(user, "id"));
      stats' := stats'.(noEmail := stats'.noEmail + 1);
    } else {
      key := email.s;
    }
    table' := table.Put(key, FormatContact(user, Zendesk, key, now));
    stats' := stats'.(zendesk := stats'.zendesk + 1);
  }

  /** The body of the Intercom loop: a contact whose key is already present
      keeps the Zendesk id and stamp of the entry it replaces. */
  method AddIntercomContact(table: Table, stats: Stats, contact: Dict, now: string)
    returns (table': Table, stats': Stats)
    requires table.Valid() && Mergeable(contact, Intercom)
    ensures MergeState(table', stats') == Step(MergeState(table, stats), VisitOf(Intercom, contact, now))
  {
    var email := Get(contact, "email");
    var key: string;
    stats' := stats;
    if email == JNull {
      key := Placeholder(Intercom, Get(contact, "id"));
      stats' := stats'.(noEmail := stats'.noEmail + 1);
    } else {
      key := email.s;
    }
    ghost var v := VisitOf(Intercom, contact, now);
    assert v == Visit(Intercom, contact, key, email == JNull, now);
    var formatted := FormatContact(contact, Intercom, key, now);
    assert formatted == ContactOf(v);
    StepIntercom(MergeState(table, stats), v);
    if key in table.entries {
      var previous := table.entries[key];
      formatted := formatted.(zendeskId := previous.zendeskId, importedFromZdAt := previous.importedFromZdAt);
      table' := table.Put(key, formatted);
      stats' := stats'.(merged := stats'.merged + 1);
    } else {
      table' := table.Put(key, formatted);
      stats' := stats'.(intercom := stats'.intercom + 1);
    }
  }

  /** One more visit is one more `Step` of the fold. */
  lemma MergeAllSnoc(vs: seq<FVisit>, v: FVisit)
    ensures MergeAll(vs + [v]) == Step(MergeAll(vs), v)
  {
    assert (vs + [v])[..|vs|] == vs;
  }

  /** `merge_and_deduplicate`: Zendesk users first, then Intercom contacts,
      into one insertion-ordered dictionary; the result is the dictionary's
      values in insertion order, and the four counters. */
  method MergeAndDeduplicate(zendesk: seq<Dict>, intercom: seq<Dict>, clock: Clock)
    returns (contacts: seq<Contact>, stats: Stats)
    requires AllMergeable(zendesk, Zendesk) && AllMergeable(intercom, Intercom)
    ensures contacts == Merge(zendesk, intercom, clock).table.Values()
    ensures stats == Merge(zendesk, intercom, clock).stats
    ensures stats.zendesk == |zendesk| && stats.intercom + stats.merged == |intercom|
    ensures stats.noEmail == MissingEmails(zendesk) + MissingEmails(intercom)
    ensures |contacts| <= |zendesk| + |intercom|
  {
    var table := Table([], map[]);
    stats := Stats(0, 0, 0, 0);
    for i := 0 to |zendesk|
      invariant MergeState(table, stats) == MergeAll(Visits(zendesk[..i], [], clock))
    {
      VisitsSnocZendesk(zendesk, clock, i);
      MergeAllSnoc(Visits(zendesk[..i], [], clock), VisitOf(Zendesk, zendesk[i], clock.zendesk(i)));
      table, stats := AddZendeskUser(table, stats, zendesk[i], clock.zendesk(i));
    }
    assert zendesk[..|zendesk|] == zendesk && intercom[..0] == [];
    for j := 0 to |intercom|
      invariant MergeState(table, stats) == MergeAll(Visits(zendesk, intercom[..j], clock))
    {
      VisitsSnocIntercom(zendesk, intercom, clock, j);
      MergeAllSnoc(Visits(zendesk, intercom[..j], clock), VisitOf(Intercom, intercom[j], clock.intercom(j)));
      table, stats := AddIntercomContact(table, stats, intercom[j], clock.intercom(j));
    }
    assert intercom[..|intercom|] == intercom;
    assert MergeState(table, stats) == Merge(zendesk, intercom, clock);
    contacts := table.Values();
    MergeCounts(zendesk, intercom, clock);
  }
}
