/**
 * The three tables the gift-certificate core reads and writes, as an
 * in-memory store: `gift_certificate` (id to row), `tag` (unique name to
 * id) and the association table `gift_certificate_tag` (pairs of
 * certificate id and tag id). The pure functions below give the effect of
 * each statement the DAO and the repository issue; the `Database` class
 * holds the tables as fields and applies one statement per method.
 */
module Store {
  import opened Wrappers
  import opened Entities

  datatype Tables = Tables(
    certificates: map<int, CertRecord>,
    tagIds: map<string, int>,
    links: set<(int, int)>,
    nextCertId: int,
    nextTagId: int)

  /** An empty schema: both auto-increment counters start at 1. */
  const EMPTY: Tables := Tables(map[], map[], {}, 1, 1)

  /**
   * The integrity the schema keeps: ids come from the counters, tag names
   * are unique (so no two names share an id), and every association row
   * refers to an existing certificate and an existing tag.
   */
  predicate Consistent(t: Tables) {
    0 < t.nextCertId && 0 < t.nextTagId && CertIdsIssued(t) && TagIdsIssued(t) && TagIdsDistinct(t) && LinksResolve(t)
  }

  predicate CertIdsIssued(t: Tables) {
    forall id :: id in t.certificates ==> 0 < id < t.nextCertId
  }

  predicate TagIdsIssued(t: Tables) {
    forall n :: n in t.tagIds ==> 0 < t.tagIds[n] < t.nextTagId
  }

  predicate TagIdsDistinct(t: Tables) {
    forall n, m :: n in t.tagIds && m in t.tagIds && t.tagIds[n] == t.tagIds[m] ==> n == m
  }

  predicate LinksResolve(t: Tables) {
    forall l :: l in t.links ==> l.0 in t.certificates && l.1 in t.tagIds.Values
  }

  lemma EmptyConsistent()
    ensures Consistent(EMPTY)
  {
  }

  // ---- one statement each ----

  /** `INSERT INTO gift_certificate VALUES (DEFAULT, ?, …)`: the row gets the next id. */
  function Inserted(t: Tables, r: CertRecord): Tables {
    t.(certificates := t.certificates[t.nextCertId := r], nextCertId := t.nextCertId + 1)
  }

  /** `INSERT INTO tag VALUES (DEFAULT, ?) ON DUPLICATE KEY UPDATE tag.id = tag.id`. */
  function WithTag(t: Tables, name: string): Tables {
    if name in t.tagIds then t
    else t.(tagIds := t.tagIds[name := t.nextTagId], nextTagId := t.nextTagId + 1)
  }

  /** `INSERT INTO gift_certificate_tag VALUES (?, ?)`. */
  function WithLink(t: Tables, certId: int, tagId: int): Tables {
    t.(links := t.links + {(certId, tagId)})
  }

  /** An `UPDATE gift_certificate … WHERE id = ?` that writes `r`; no row matches a missing id. */
  function WithRecord(t: Tables, id: int, r: CertRecord): Tables {
    if id in t.certificates then t.(certificates := t.certificates[id := r]) else t
  }

  /** `DELETE FROM gift_certificate_tag WHERE gift_certificate_id = ?`. */
  function WithoutLinks(t: Tables, certId: int): Tables {
    t.(links := set l | l in t.links && l.0 != certId)
  }

  /**
   * `DELETE FROM gift_certificate WHERE id = ?`. The statement names only the
   * certificate table; the certificate's association rows are assumed to go
   * with it through an `ON DELETE CASCADE` on the join table's foreign key.
   */
  function WithoutCertificate(t: Tables, id: int): Tables {
    WithoutLinks(t, id).(certificates := t.certificates - {id})
  }

  // ---- the two merge rules of update ----

  /** `SET col = COALESCE(?, col)` for every column: a null argument keeps the stored value. */
  function Coalesce(given: CertRecord, stored: CertRecord): CertRecord {
    CertRecord(
      if given.name.Some? then given.name else stored.name,
      if given.description.Some? then given.description else stored.description,
      if given.price.Some? then given.price else stored.price,
      if given.duration.Some? then given.duration else stored.duration,
      if given.createDate.Some? then given.createDate else stored.createDate,
      if given.lastUpdateDate.Some? then given.lastUpdateDate else stored.lastUpdateDate)
  }

  /** A value the ORM update copies for `name` and `description`: non-null and non-empty. */
  predicate Filled(s: Option<string>) {
    s.Some? && s.value != ""
  }

  /** The setter sequence of the ORM update: text only when filled, the rest when non-null. */
  function OrmMerge(given: CertRecord, stored: CertRecord): CertRecord {
    CertRecord(
      if Filled(given.name) then given.name else stored.name,
      if Filled(given.description) then given.description else stored.description,
      if given.price.Some? then given.price else stored.price,
      if given.duration.Some? then given.duration else stored.duration,
      if given.createDate.Some? then given.createDate else stored.createDate,
      if given.lastUpdateDate.Some? then given.lastUpdateDate else stored.lastUpdateDate)
  }

  /** What becomes of an empty text value when only filled values count. */
  function Unfilled(s: Option<string>): Option<string> {
    if Filled(s) then s else None
  }

  /** A row updated with all nulls is unchanged; one updated with a full record becomes it. */
  lemma CoalesceExtremes(given: CertRecord, stored: CertRecord)
    ensures Coalesce(CertRecord(None, None, None, None, None, None), stored) == stored
    ensures (given.name.Some? && given.description.Some? && given.price.Some? && given.duration.Some?
      && given.createDate.Some? && given.lastUpdateDate.Some?) ==> Coalesce(given, stored) == given
  {
  }

  /** Repeating an update changes nothing more. */
  lemma MergesIdempotent(given: CertRecord, stored: CertRecord)
    ensures Coalesce(given, Coalesce(given, stored)) == Coalesce(given, stored)
    ensures OrmMerge(given, OrmMerge(given, stored)) == OrmMerge(given, stored)
  {
  }

  /** The ORM rule is COALESCE with empty names and descriptions read as null. */
  lemma OrmMergeIsCoalesceOfFilled(given: CertRecord, stored: CertRecord)
    ensures OrmMerge(given, stored)
      == Coalesce(given.(name := Unfilled(given.name), description := Unfilled(given.description)), stored)
  {
  }

  /** Where the two rules part: an empty name overwrites under COALESCE and is ignored by the ORM. */
  lemma MergesDisagreeOnEmptyName(stored: CertRecord)
    requires stored.name == Some("gift")
    ensures var given := CertRecord(Some(""), None, None, None, None, None);
      && Coalesce(given, stored).name == Some("")
      && OrmMerge(given, stored).name == Some("gift")
  {
  }

  // ---- resolve-or-create over a sequence of tag names ----

  function NameSet(names: seq<string>): set<string> {
    set n | n in names
  }

  /**
   * The association loop: for each name in order, insert it unless known,
   * read its id back, and add the pair `(certId, id)`.
   */
  function LinkTags(t: Tables, certId: int, names: seq<string>): Tables
    decreases |names|
  {
    if names == [] then t
    else
      var p := WithTag(LinkTags(t, certId, names[..|names| - 1]), names[|names| - 1]);
      WithLink(p, certId, p.tagIds[names[|names| - 1]])
  }

  /** Resolve-or-create without associating: each unknown name is persisted with the next id. */
  function ResolveTags(t: Tables, names: seq<string>): Tables
    decreases |names|
  {
    if names == [] then t else WithTag(ResolveTags(t, names[..|names| - 1]), names[|names| - 1])
  }

  /** The association rows a certificate gets for already-resolved names. */
  function LinksFor(t: Tables, certId: int, names: seq<string>): set<(int, int)> {
    set n | n in names && n in t.tagIds :: (certId, t.tagIds[n])
  }

  /** The facts every tag insertion keeps, and the one it adds. */
  predicate Grows(t: Tables, r: Tables, names: seq<string>) {
    && r.certificates == t.certificates
    && r.nextCertId == t.nextCertId
    && r.tagIds.Keys == t.tagIds.Keys + NameSet(names)
    && (forall n :: n in t.tagIds ==> r.tagIds[n] == t.tagIds[n])
    && (forall n :: n in r.tagIds && n !in t.tagIds ==> t.nextTagId <= r.tagIds[n])
    && r.nextTagId - t.nextTagId == |r.tagIds.Keys| - |t.tagIds.Keys|
  }

  lemma WithTagGrows(t: Tables, name: string)
    requires Consistent(t)
    ensures Consistent(WithTag(t, name)) && Grows(t, WithTag(t, name), [name])
    ensures WithTag(t, name).links == t.links
  {
    assert NameSet([name]) == {name};
    if name !in t.tagIds {
      NewTagGrows(t, name);
      assert TagIdsIssued(WithTag(t, name));
      NewTagDistinct(t, name);
      NewTagResolves(t, name);
    } else {
      assert t.tagIds.Keys + {name} == t.tagIds.Keys;
    }
  }

  /** A new name adds one key, with the next id, and advances the counter by one. */
  lemma NewTagGrows(t: Tables, name: string)
    requires name !in t.tagIds
    ensures Grows(t, WithTag(t, name), [name])
  {
    var r := WithTag(t, name);
    assert NameSet([name]) == {name};
    assert r.tagIds.Keys == t.tagIds.Keys + {name};
    assert |r.tagIds.Keys| == |t.tagIds.Keys| + 1;
    assert forall n :: n in r.tagIds && n !in t.tagIds ==> n == name;
  }

  /** A new name takes the next id, which no known name has. */
  lemma NewTagDistinct(t: Tables, name: string)
    requires Consistent(t) && name !in t.tagIds
    ensures TagIdsDistinct(WithTag(t, name))
  {
    var r := WithTag(t, name);
    forall n, m | n in r.tagIds && m in r.tagIds && r.tagIds[n] == r.tagIds[m] ensures n == m {
      if n != name && m != name {
        assert t.tagIds[n] == t.tagIds[m];
      }
    }
  }

  /** A new name leaves every association resolving to a known id. */
  lemma NewTagResolves(t: Tables, name: string)
    requires Consistent(t) && name !in t.tagIds
    ensures LinksResolve(WithTag(t, name))
  {
    var r := WithTag(t, name);
    forall l | l in r.links ensures l.0 in r.certificates && l.1 in r.tagIds.Values {
      assert l.1 in t.tagIds.Values;
      var n :| n in t.tagIds && t.tagIds[n] == l.1;
      assert r.tagIds[n] == l.1;
    }
  }

  /** Growing never moves the tag counter back. */
  lemma GrowsAdvances(t: Tables, m: Tables, a: seq<string>)
    requires Grows(t, m, a)
    ensures t.nextTagId <= m.nextTagId
  {
    var added := m.tagIds.Keys - t.tagIds.Keys;
    assert m.tagIds.Keys == t.tagIds.Keys + added && t.tagIds.Keys !! added;
  }

  lemma {:induction false} GrowsTrans(t: Tables, m: Tables, r: Tables, a: seq<string>, b: seq<string>)
    requires Grows(t, m, a) && Grows(m, r, b)
    ensures Grows(t, r, a + b)
  {
    NameSetAppend(a, b);
    assert r.tagIds.Keys == t.tagIds.Keys + NameSet(a + b);
    GrowsFresh(t, m, r, a, b);
  }

  lemma NameSetAppend(a: seq<string>, b: seq<string>)
    ensures NameSet(a + b) == NameSet(a) + NameSet(b)
  {
    assert forall n :: n in a + b <==> n in a || n in b;
  }

  /** A name new since `t` has an id `t` had not yet issued, whichever of the two steps added it. */
  lemma GrowsFresh(t: Tables, m: Tables, r: Tables, a: seq<string>, b: seq<string>)
    requires Grows(t, m, a) && Grows(m, r, b)
    ensures forall n :: n in r.tagIds && n !in t.tagIds ==> t.nextTagId <= r.tagIds[n]
  {
    GrowsAdvances(t, m, a);
    forall n | n in r.tagIds && n !in t.tagIds ensures t.nextTagId <= r.tagIds[n] {
      if n in m.tagIds {
        assert r.tagIds[n] == m.tagIds[n];
      }
    }
  }

  /**
   * Resolving names keeps every known id, gives every new name an id the
   * store never used, and advances the tag counter once per new name.
   */
  lemma {:induction false} ResolveTagsGrows(t: Tables, names: seq<string>)
    requires Consistent(t)
    ensures Consistent(ResolveTags(t, names)) && Grows(t, ResolveTags(t, names), names)
    ensures ResolveTags(t, names).links == t.links
    decreases |names|
  {
    if names == [] {
      assert NameSet(names) == {};
    } else {
      var init, last := names[..|names| - 1], names[|names| - 1];
      assert init + [last] == names;
      ResolveTagsGrows(t, init);
      WithTagGrows(ResolveTags(t, init), last);
      GrowsTrans(t, ResolveTags(t, init), ResolveTags(t, names), init, [last]);
    }
  }

  /** A tag insertion keeps every known name and its id. */
  lemma WithTagKeeps(t: Tables, name: string)
    ensures WithTag(t, name).tagIds.Keys == t.tagIds.Keys + {name}
    ensures forall n :: n in t.tagIds ==> WithTag(t, name).tagIds[n] == t.tagIds[n]
    ensures WithTag(t, name).links == t.links && WithTag(t, name).certificates == t.certificates
  {
  }

  lemma {:induction false} ResolveTagsKeepsRows(t: Tables, names: seq<string>)
    ensures ResolveTags(t, names).links == t.links && ResolveTags(t, names).certificates == t.certificates
    ensures ResolveTags(t, names).nextCertId == t.nextCertId
    decreases |names|
  {
    if names != [] {
      ResolveTagsKeepsRows(t, names[..|names| - 1]);
    }
  }

  /** After resolving, the stored names are the earlier ones plus the resolved ones, whatever the rest of the tables hold. */
  lemma {:induction false} ResolveTagsNames(t: Tables, names: seq<string>)
    ensures ResolveTags(t, names).tagIds.Keys == t.tagIds.Keys + NameSet(names)
    decreases |names|
  {
    if names == [] {
      assert NameSet(names) == {};
    } else {
      var init, last := names[..|names| - 1], names[|names| - 1];
      assert init + [last] == names;
      ResolveTagsNames(t, init);
      NameSetAppend(init, [last]);
      assert NameSet([last]) == {last};
    }
  }

  /** The association rows for one more name: those for the others, plus its own. */
  lemma LinksForSnoc(p: Tables, certId: int, init: seq<string>, last: string)
    ensures var q := WithTag(p, last);
      LinksFor(q, certId, init + [last]) == LinksFor(p, certId, init) + {(certId, q.tagIds[last])}
  {
    var q := WithTag(p, last);
    WithTagKeeps(p, last);
    var names := init + [last];
    forall l | l in LinksFor(q, certId, names) ensures l in LinksFor(p, certId, init) + {(certId, q.tagIds[last])} {
      var n :| n in names && n in q.tagIds && l == (certId, q.tagIds[n]);
      if n != last {
        assert n in init && n in p.tagIds;
      }
    }
    forall l | l in LinksFor(p, certId, init) ensures l in LinksFor(q, certId, names) {
      var n :| n in init && n in p.tagIds && l == (certId, p.tagIds[n]);
      assert n in names;
    }
    assert last in names;
  }

  /** The association loop touches tags exactly as resolving does, and adds one row per name. */
  lemma {:induction false} LinkTagsIsResolveThenLink(t: Tables, certId: int, names: seq<string>)
    ensures LinkTags(t, certId, names) == ResolveTags(t, names).(links := t.links + LinksFor(ResolveTags(t, names), certId, names))
    decreases |names|
  {
    if names == [] {
      assert LinksFor(t, certId, names) == {};
    } else {
      var init, last := names[..|names| - 1], names[|names| - 1];
      LinkTagsIsResolveThenLink(t, certId, init);
      var p := ResolveTags(t, init);
      ResolveTagsKeepsRows(t, init);
      assert init + [last] == names;
      LinksForSnoc(p, certId, init, last);
      var l := LinkTags(t, certId, init);
      assert WithTag(l, last) == WithTag(p, last).(links := l.links);
    }
  }

  /**
   * The association loop over a certificate keeps the store consistent:
   * the certificate is untouched, tags grow as resolving does, and the new
   * association rows pair the certificate with the id of every name.
   */
  lemma LinkTagsFacts(t: Tables, certId: int, names: seq<string>)
    requires Consistent(t) && certId in t.certificates
    ensures var r := LinkTags(t, certId, names);
      && Consistent(r) && Grows(t, r, names)
      && r.links == t.links + LinksFor(r, certId, names)
      && (forall n :: n in names ==> n in r.tagIds && (certId, r.tagIds[n]) in r.links)
  {
    LinkTagsIsResolveThenLink(t, certId, names);
    ResolveTagsGrows(t, names);
    var q := ResolveTags(t, names);
    var r := LinkTags(t, certId, names);
    assert forall n :: n in names ==> n in NameSet(names);
    forall l | l in r.links ensures l.0 in r.certificates && l.1 in r.tagIds.Values {
      if l !in t.links {
        var n :| n in names && n in q.tagIds && l == (certId, q.tagIds[n]);
        assert r.tagIds[n] == l.1;
      }
    }
  }

  // ---- whole operations ----

  /** The JDBC create: insert the row, then run the association loop for the new id. */
  function SqlCreated(t: Tables, r: CertRecord, names: seq<string>): Tables {
    LinkTags(Inserted(t, r), t.nextCertId, names)
  }

  /** The ORM create: resolve the tags first, then persist the certificate with its tag set. */
  function OrmCreated(t: Tables, r: CertRecord, names: seq<string>): Tables {
    var p := Inserted(ResolveTags(t, names), r);
    p.(links := p.links + LinksFor(p, t.nextCertId, names))
  }

  lemma InsertedConsistent(t: Tables, r: CertRecord)
    requires Consistent(t)
    ensures Consistent(Inserted(t, r)) && t.nextCertId in Inserted(t, r).certificates
    ensures t.nextCertId !in t.certificates
  {
  }

  /** The tag ids the JDBC association loop sees after the row insert are those of resolving the names up front. */
  lemma InsertedLinkIds(t: Tables, r: CertRecord, certId: int, names: seq<string>)
    ensures LinkTags(Inserted(t, r), certId, names).tagIds == ResolveTags(t, names).tagIds
  {
    LinkTagsIsResolveThenLink(Inserted(t, r), certId, names);
    ResolveTagsInserted(t, r, names);
  }

  /** The ids the association loop gives its tags depend only on the tag table it starts from. */
  lemma LinkTagsIds(t: Tables, u: Tables, certId: int, names: seq<string>)
    requires t.tagIds == u.tagIds && t.nextTagId == u.nextTagId
    ensures LinkTags(t, certId, names).tagIds == ResolveTags(u, names).tagIds
  {
    LinkTagsIsResolveThenLink(t, certId, names);
    ResolveTagsSameIds(t, u, names);
  }

  lemma {:induction false} ResolveTagsSameIds(t: Tables, u: Tables, names: seq<string>)
    requires t.tagIds == u.tagIds && t.nextTagId == u.nextTagId
    ensures ResolveTags(t, names).tagIds == ResolveTags(u, names).tagIds
    ensures ResolveTags(t, names).nextTagId == ResolveTags(u, names).nextTagId
    decreases |names|
  {
    if names != [] {
      ResolveTagsSameIds(t, u, names[..|names| - 1]);
    }
  }

  lemma {:induction false} ResolveTagsInserted(t: Tables, r: CertRecord, names: seq<string>)
    ensures ResolveTags(Inserted(t, r), names) == Inserted(ResolveTags(t, names), r)
    decreases |names|
  {
    if names != [] {
      ResolveTagsInserted(t, r, names[..|names| - 1]);
    }
  }

  /**
   * Both creates leave the same tables: a new row under the next id, every
   * name resolved, one association row per name.
   */
  lemma CreatesAgree(t: Tables, r: CertRecord, names: seq<string>)
    requires Consistent(t)
    ensures SqlCreated(t, r, names) == OrmCreated(t, r, names)
    ensures Consistent(SqlCreated(t, r, names))
    ensures SqlCreated(t, r, names).certificates == t.certificates[t.nextCertId := r]
  {
    InsertedConsistent(t, r);
    LinkTagsIsResolveThenLink(Inserted(t, r), t.nextCertId, names);
    ResolveTagsInserted(t, r, names);
    ResolveTagsKeepsRows(t, names);
    LinkTagsFacts(Inserted(t, r), t.nextCertId, names);
  }

  /** The JDBC update: COALESCE the row; a non-empty tag list replaces the associations. */
  function SqlUpdated(t: Tables, id: int, given: CertRecord, names: seq<string>): Tables
    requires id in t.certificates
  {
    var p := WithRecord(t, id, Coalesce(given, t.certificates[id]));
    if names == [] then p else LinkTags(WithoutLinks(p, id), id, names)
  }

  /** The ORM update: merge the row; a non-null tag set, even an empty one, replaces the associations. */
  function OrmUpdated(t: Tables, id: int, given: CertRecord, names: Option<seq<string>>): Tables
    requires id in t.certificates
  {
    var p := WithRecord(t, id, OrmMerge(given, t.certificates[id]));
    if names.None? then p
    else
      var q := ResolveTags(WithoutLinks(p, id), names.value);
      q.(links := q.links + LinksFor(q, id, names.value))
  }

  lemma WithRecordConsistent(t: Tables, id: int, r: CertRecord)
    requires Consistent(t)
    ensures Consistent(WithRecord(t, id, r))
    ensures WithRecord(t, id, r).certificates.Keys == t.certificates.Keys
  {
  }

  lemma WithoutLinksConsistent(t: Tables, id: int)
    requires Consistent(t)
    ensures Consistent(WithoutLinks(t, id))
    ensures forall l :: l in WithoutLinks(t, id).links ==> l.0 != id
  {
  }

  /**
   * After an update the certificate's associations are exactly its new
   * names when some were given, and the old ones otherwise; no other
   * certificate's associations change.
   */
  lemma SqlUpdatedLinks(t: Tables, id: int, given: CertRecord, names: seq<string>)
    requires Consistent(t) && id in t.certificates
    ensures var r := SqlUpdated(t, id, given, names);
      && Consistent(r)
      && r.certificates == t.certificates[id := Coalesce(given, t.certificates[id])]
      && (forall l :: l in r.links && l.0 != id <==> l in t.links && l.0 != id)
      && (names != [] ==> (set l | l in r.links && l.0 == id) == LinksFor(r, id, names))
      && (names == [] ==> r.links == t.links)
  {
    var p := WithRecord(t, id, Coalesce(given, t.certificates[id]));
    WithRecordConsistent(t, id, Coalesce(given, t.certificates[id]));
    if names != [] {
      var w := WithoutLinks(p, id);
      WithoutLinksConsistent(p, id);
      RelinkedLinks(w, id, names);
      assert forall l :: l in w.links <==> l in t.links && l.0 != id;
    }
  }

  /** Associating names with a certificate that has none adds exactly its links for those names. */
  lemma RelinkedLinks(w: Tables, id: int, names: seq<string>)
    requires Consistent(w) && id in w.certificates && forall l :: l in w.links ==> l.0 != id
    ensures var r := LinkTags(w, id, names);
      && Consistent(r) && r.certificates == w.certificates
      && (forall l :: l in r.links && l.0 != id <==> l in w.links)
      && (set l | l in r.links && l.0 == id) == LinksFor(r, id, names)
  {
    LinkTagsFacts(w, id, names);
    var r := LinkTags(w, id, names);
    assert r.links == w.links + LinksFor(r, id, names);
    assert forall l :: l in LinksFor(r, id, names) ==> l.0 == id;
  }

  /** The ORM update detaches every tag when handed an empty set, which the JDBC update never does. */
  lemma EmptyTagSetDiverges(t: Tables, id: int, given: CertRecord)
    requires Consistent(t) && id in t.certificates
    ensures forall l :: l in OrmUpdated(t, id, given, Some([])).links ==> l.0 != id
    ensures SqlUpdated(t, id, given, []).links == t.links
  {
    assert LinksFor(ResolveTags(WithoutLinks(WithRecord(t, id, OrmMerge(given, t.certificates[id])), id), []), id, []) == {};
  }

  /** Tag insertions and the removal of one certificate's associations touch different tables: their order is immaterial. */
  lemma {:induction false} ResolveTagsWithoutLinks(t: Tables, id: int, names: seq<string>)
    ensures ResolveTags(WithoutLinks(t, id), names) == WithoutLinks(ResolveTags(t, names), id)
    decreases |names|
  {
    if names != [] {
      var init := names[..|names| - 1];
      ResolveTagsWithoutLinks(t, id, init);
      ResolveTagsKeepsRows(t, init);
    }
  }

  /**
   * After the ORM update the certificate's associations are exactly the
   * given names when a set was given, even an empty one, and the old ones
   * otherwise; no other certificate's associations change.
   */
  lemma OrmUpdatedFacts(t: Tables, id: int, given: CertRecord, names: Option<seq<string>>)
    requires Consistent(t) && id in t.certificates
    ensures var r := OrmUpdated(t, id, given, names);
      && Consistent(r)
      && r.certificates == t.certificates[id := OrmMerge(given, t.certificates[id])]
      && (forall l :: l in r.links && l.0 != id <==> l in t.links && l.0 != id)
      && (names.Some? ==> (set l | l in r.links && l.0 == id) == LinksFor(r, id, names.value))
      && (names.Some? ==> forall n :: n in names.value ==> n in r.tagIds)
      && (names.None? ==> r.links == t.links)
  {
    var p := WithRecord(t, id, OrmMerge(given, t.certificates[id]));
    WithRecordConsistent(t, id, OrmMerge(given, t.certificates[id]));
    if names.Some? {
      OrmUpdatedConsistent(t, id, given, names.value);
      var q := ResolveTags(WithoutLinks(p, id), names.value);
      ResolveTagsKeepsRows(WithoutLinks(p, id), names.value);
      var r := OrmUpdated(t, id, given, names);
      assert r == q.(links := q.links + LinksFor(q, id, names.value));
      assert forall l :: l in LinksFor(q, id, names.value) ==> l.0 == id;
      assert LinksFor(r, id, names.value) == LinksFor(q, id, names.value);
    }
  }

  /** Replacing the associations resolves every name and keeps the tables consistent. */
  lemma OrmUpdatedConsistent(t: Tables, id: int, given: CertRecord, names: seq<string>)
    requires Consistent(t) && id in t.certificates
    ensures Consistent(OrmUpdated(t, id, given, Some(names)))
    ensures forall n :: n in names ==> n in OrmUpdated(t, id, given, Some(names)).tagIds
  {
    var p := WithRecord(t, id, OrmMerge(given, t.certificates[id]));
    WithRecordConsistent(t, id, OrmMerge(given, t.certificates[id]));
    var w := WithoutLinks(p, id);
    WithoutLinksConsistent(p, id);
    ResolveTagsGrows(w, names);
    var q := ResolveTags(w, names);
    var r := OrmUpdated(t, id, given, Some(names));
    assert r == q.(links := q.links + LinksFor(q, id, names));
    assert forall n :: n in names ==> n in NameSet(names);
    forall l | l in r.links ensures l.0 in r.certificates && l.1 in r.tagIds.Values {
      if l !in q.links {
        var n :| n in names && n in q.tagIds && l == (id, q.tagIds[n]);
        assert r.tagIds[n] == l.1;
      }
    }
  }

  /** `UPDATE gift_certificate SET duration = ?, last_update_date = ? WHERE id = ?`. */
  function DurationUpdated(t: Tables, id: int, duration: int, date: Option<Date>): Tables
    requires id in t.certificates
  {
    WithRecord(t, id, t.certificates[id].(duration := Some(duration), lastUpdateDate := date))
  }

  /** Only the duration and the last-update date of that one row change. */
  lemma DurationUpdatedFacts(t: Tables, id: int, duration: int, date: Option<Date>)
    requires Consistent(t) && id in t.certificates
    ensures var r := DurationUpdated(t, id, duration, date);
      && Consistent(r) && r.links == t.links && r.tagIds == t.tagIds
      && r.certificates.Keys == t.certificates.Keys
      && (forall k :: k in t.certificates && k != id ==> r.certificates[k] == t.certificates[k])
      && r.certificates[id].name == t.certificates[id].name
      && r.certificates[id].description == t.certificates[id].description
      && r.certificates[id].price == t.certificates[id].price
      && r.certificates[id].createDate == t.certificates[id].createDate
      && r.certificates[id].duration == Some(duration) && r.certificates[id].lastUpdateDate == date
  {
  }

  /** Deleting removes the row and its associations and nothing else; a missing id changes nothing. */
  lemma WithoutCertificateFacts(t: Tables, id: int)
    requires Consistent(t)
    ensures var r := WithoutCertificate(t, id);
      && Consistent(r) && id !in r.certificates && r.tagIds == t.tagIds
      && (forall k :: k in t.certificates && k != id ==> k in r.certificates && r.certificates[k] == t.certificates[k])
      && (forall l :: l in r.links <==> l in t.links && l.0 != id)
      && (id !in t.certificates ==> r == t)
  {
    var r := WithoutCertificate(t, id);
    if id !in t.certificates {
      assert r.links == t.links;
      assert r.certificates == t.certificates;
    }
  }

  // ---- the tag list a certificate carries ----

  /** A tag the association loop gets through: non-null, with a non-null name. */
  predicate Nameable(t: Option<TagState>) {
    t.Some? && t.value.name.Some?
  }

  /** How many tags, from the front, the association loop handles before it throws. */
  function GoodPrefix(ts: seq<Option<TagState>>): (k: nat)
    ensures k <= |ts|
    ensures forall i :: 0 <= i < k ==> Nameable(ts[i])
    ensures k < |ts| ==> !Nameable(ts[k])
    decreases |ts|
  {
    if ts == [] || !Nameable(ts[0]) then 0 else 1 + GoodPrefix(ts[1..])
  }

  /** The names of tags that all have one. */
  function NamesOf(ts: seq<Option<TagState>>): (names: seq<string>)
    requires forall i :: 0 <= i < |ts| ==> Nameable(ts[i])
    ensures |names| == |ts| && forall i :: 0 <= i < |ts| ==> Nameable(ts[i]) && ts[i].value.name == Some(names[i])
  {
    seq(|ts|, i requires 0 <= i < |ts| && Nameable(ts[i]) => ts[i].value.name.value)
  }

  /**
   * What the loop throws at a bad tag: dereferencing a null tag, or the
   * database refusing a null tag name.
   */
  function TagError(t: Option<TagState>): Error {
    if t.None? then NullPointer else StorageFailure
  }

  /**
   * The tables as fields of one object, updated in place one statement at a
   * time; `Rollback` stands for the undo of an open transaction.
   */
  class Database {
    var certificates: map<int, CertRecord>
    var tagIds: map<string, int>
    var links: set<(int, int)>
    var nextCertId: int
    var nextTagId: int

    function Contents(): Tables
      reads this
    {
      Tables(certificates, tagIds, links, nextCertId, nextTagId)
    }

    predicate Valid()
      reads this
    {
      Consistent(Contents())
    }

    constructor ()
      ensures Valid() && Contents() == EMPTY
    {
      certificates, tagIds, links := map[], map[], {};
      nextCertId, nextTagId := 1, 1;
    }

    /** `SELECT COUNT(1) FROM gift_certificate WHERE id = ?` is not zero. */
    predicate Exists(id: int)
      reads this
    {
      id in certificates
    }

    /** `SELECT tag.id FROM tag WHERE tag.name = ?`. */
    function TagIdByName(name: string): Option<int>
      reads this
    {
      if name in tagIds then Some(tagIds[name]) else None
    }

    method InsertCertificate(r: CertRecord) returns (id: int)
      modifies this
      ensures Contents() == Inserted(old(Contents()), r) && id == old(nextCertId)
    {
      id := nextCertId;
      certificates := certificates[id := r];
      nextCertId := nextCertId + 1;
    }

    method InsertTagIfAbsent(name: string)
      modifies this
      ensures Contents() == WithTag(old(Contents()), name)
    {
      if name !in tagIds {
        tagIds := tagIds[name := nextTagId];
        nextTagId := nextTagId + 1;
      }
    }

    method InsertLink(certId: int, tagId: int)
      modifies this
      ensures Contents() == WithLink(old(Contents()), certId, tagId)
    {
      links := links + {(certId, tagId)};
    }

    method WriteRecord(id: int, r: CertRecord)
      modifies this
      ensures Contents() == WithRecord(old(Contents()), id, r)
    {
      if id in certificates {
        certificates := certificates[id := r];
      }
    }

    method DeleteLinks(certId: int)
      modifies this
      ensures Contents() == WithoutLinks(old(Contents()), certId)
    {
      links := set l | l in links && l.0 != certId;
    }

    /** Deleting a certificate row; with the assumed cascade its association rows go too. */
    method DeleteCertificate(id: int)
      modifies this
      ensures Contents() == WithoutCertificate(old(Contents()), id)
    {
      links := set l | l in links && l.0 != id;
      certificates := certificates - {id};
    }

    /** The join-table rows Hibernate writes for a certificate's tag set when it flushes. */
    method InsertLinks(pairs: set<(int, int)>)
      modifies this
      ensures Contents() == old(Contents()).(links := old(links) + pairs)
    {
      links := links + pairs;
    }

    method Rollback(saved: Tables)
      modifies this
      ensures Contents() == saved
    {
      certificates, tagIds, links := saved.certificates, saved.tagIds, saved.links;
      nextCertId, nextTagId := saved.nextCertId, saved.nextTagId;
    }
  }
}
