/**
 * `GiftCertificateDao`, the older JDBC DAO: a search over one optional tag
 * name with `SortBy`/`SortDir` ordering, and a result-set extractor that
 * folds the rows of a certificate–tag LEFT JOIN back into certificates.
 */
module LegacyDao {
  import opened Wrappers
  import opened Entities
  import opened JavaStrings
  import opened Store
  import DaoImpl

  // ---- insertion order, as a LinkedHashMap or LinkedHashSet keeps it ----

  /** The distinct elements of `s`, each where it first occurs. */
  function Dedup<T(==,!new)>(s: seq<T>): (d: seq<T>)
    ensures forall x :: x in d <==> x in s
    ensures forall i, j :: 0 <= i < j < |d| ==> d[i] != d[j]
    decreases |s|
  {
    if s == [] then []
    else
      var p := Dedup(s[..|s| - 1]);
      assert s == s[..|s| - 1] + [s[|s| - 1]];
      if s[|s| - 1] in p then p else p + [s[|s| - 1]]
  }

  /** Where `x` first occurs in `s`. */
  function FirstIndex<T(==,!new)>(s: seq<T>, x: T): (k: nat)
    requires x in s
    ensures k < |s| && s[k] == x && forall j :: 0 <= j < k ==> s[j] != x
  {
    if s[0] == x then 0 else 1 + FirstIndex(s[1..], x)
  }

  lemma FirstIndexUnique<T(!new)>(s: seq<T>, x: T, k: nat)
    requires k < |s| && s[k] == x && forall j :: 0 <= j < k ==> s[j] != x
    ensures FirstIndex(s, x) == k
  {
    var f := FirstIndex(s, x);
    assert !(f < k);
    assert !(k < f);
  }

  lemma FirstIndexExtend<T(!new)>(s: seq<T>, t: seq<T>, x: T)
    requires x in s
    ensures FirstIndex(s + t, x) == FirstIndex(s, x)
  {
    var k := FirstIndex(s, x);
    FirstIndexUnique(s + t, x, k);
  }

  /** Dedup keeps the order of first occurrence. */
  lemma {:induction false} DedupFirstSeen<T(!new)>(s: seq<T>)
    ensures var d := Dedup(s);
      forall i, j :: 0 <= i < j < |d| ==> FirstIndex(s, d[i]) < FirstIndex(s, d[j])
    decreases |s|
  {
    if s != [] {
      var init, x := s[..|s| - 1], s[|s| - 1];
      assert s == init + [x];
      DedupFirstSeen(init);
      forall i, j | 0 <= i < j < |Dedup(s)| ensures FirstIndex(s, Dedup(s)[i]) < FirstIndex(s, Dedup(s)[j]) {
        DedupOrderStep(init, x, i, j);
      }
    }
  }

  /** One element more keeps two kept elements in the order of their first occurrences. */
  lemma DedupOrderStep<T(!new)>(init: seq<T>, x: T, i: nat, j: nat)
    requires forall a, b :: 0 <= a < b < |Dedup(init)| ==> FirstIndex(init, Dedup(init)[a]) < FirstIndex(init, Dedup(init)[b])
    requires i < j < |Dedup(init + [x])|
    ensures FirstIndex(init + [x], Dedup(init + [x])[i]) < FirstIndex(init + [x], Dedup(init + [x])[j])
  {
    var s := init + [x];
    var p, d := Dedup(init), Dedup(s);
    DedupSnoc(init, x);
    assert d[i] == p[i] && p[i] in init;
    FirstIndexExtend(init, [x], d[i]);
    if j < |p| {
      assert d[j] == p[j] && p[j] in init;
      FirstIndexExtend(init, [x], d[j]);
    } else {
      assert d[j] == x && x !in init;
      FirstIndexUnique(s, x, |init|);
    }
  }

  lemma {:induction false} DedupHead<T(!new)>(s: seq<T>)
    requires s != []
    ensures Dedup(s) != [] && Dedup(s)[0] == s[0]
    decreases |s|
  {
    if |s| > 1 {
      var init := s[..|s| - 1];
      DedupHead(init);
    }
  }

  lemma DedupSnoc<T(!new)>(s: seq<T>, x: T)
    ensures Dedup(s + [x]) == if x in Dedup(s) then Dedup(s) else Dedup(s) + [x]
  {
    assert (s + [x])[..|s + [x]| - 1] == s;
  }

  // ---- the rows of the certificate–tag LEFT JOIN ----

  /** One row of `SELECT gc.*, t.id AS tag_id, t.name AS tag_name …`. */
  datatype Row = Row(
    id: int,
    name: Option<string>,
    description: Option<string>,
    price: Option<int>,
    duration: Option<int>,
    createDate: Option<Date>,
    lastUpdateDate: Option<Date>,
    tagId: Option<int>,
    tagName: Option<string>)

  function RowIds(rows: seq<Row>): (r: seq<int>)
    ensures |r| == |rows| && forall i :: 0 <= i < |rows| ==> r[i] == rows[i].id
  {
    seq(|rows|, i requires 0 <= i < |rows| => rows[i].id)
  }

  /** A certificate made from its first row: `getInt` reads a null price or duration as 0. */
  function FromRow(row: Row): CertificateState {
    CertificateState(row.id, row.name, row.description, Some(row.price.GetOr(0)), Some(row.duration.GetOr(0)),
      row.createDate, row.lastUpdateDate, Some([]))
  }

  /** The tag a row carries when its `tag_name` is not null; `getLong` reads a null id as 0. */
  function TagOfRow(row: Row): Option<TagState> {
    Some(TagState(row.tagId.GetOr(0), row.tagName))
  }

  /** The tags of certificate `id`'s rows, in row order, from rows whose tag name is not null. */
  function TagsOf(rows: seq<Row>, id: int): seq<Option<TagState>>
    decreases |rows|
  {
    if rows == [] then []
    else
      var last := rows[|rows| - 1];
      TagsOf(rows[..|rows| - 1], id) + (if last.id == id && last.tagName.Some? then [TagOfRow(last)] else [])
  }

  /** Certificate `id` as the rows define it: scalars of its first row, then its tags without repeats. */
  function Extracted(rows: seq<Row>, id: int): CertificateState
    requires id in RowIds(rows)
  {
    FromRow(rows[FirstIndex(RowIds(rows), id)]).(tags := Some(Dedup(TagsOf(rows, id))))
  }

  /** One certificate per distinct id, in order of first appearance. */
  function ExtractedAll(rows: seq<Row>): seq<CertificateState> {
    var ids := Dedup(RowIds(rows));
    seq(|ids|, k requires 0 <= k < |ids| => Extracted(rows, ids[k]))
  }

  lemma {:induction false} TagsOfAbsent(rows: seq<Row>, id: int)
    requires id !in RowIds(rows)
    ensures TagsOf(rows, id) == []
    decreases |rows|
  {
    if rows != [] {
      assert RowIds(rows[..|rows| - 1]) == RowIds(rows)[..|rows| - 1];
      TagsOfAbsent(rows[..|rows| - 1], id);
    }
  }

  /** The certificate an id holds after one more row of it. */
  function WithRowTag(c: CertificateState, row: Row): CertificateState
    requires c.tags.Some?
  {
    var t := TagOfRow(row);
    if row.tagName.Some? && t !in c.tags.value then c.(tags := Some(c.tags.value + [t])) else c
  }

  /** What one more row does to a certificate's value. */
  lemma ExtractedStep(rows: seq<Row>, row: Row, id: int)
    requires id in RowIds(rows + [row])
    ensures id != row.id ==> id in RowIds(rows) && Extracted(rows + [row], id) == Extracted(rows, id)
    ensures id == row.id && id !in RowIds(rows) ==> Extracted(rows + [row], id) == WithRowTag(FromRow(row), row)
    ensures id == row.id && id in RowIds(rows) ==> Extracted(rows + [row], id) == WithRowTag(Extracted(rows, id), row)
  {
    var next := rows + [row];
    assert next[..|next| - 1] == rows;
    assert RowIds(next) == RowIds(rows) + [row.id];
    var gained := row.id == id && row.tagName.Some?;
    assert TagsOf(next, id) == TagsOf(rows, id) + (if gained then [TagOfRow(row)] else []);
    if !gained {
      assert TagsOf(next, id) == TagsOf(rows, id);
    }
    if id in RowIds(rows) {
      var k := FirstIndex(RowIds(rows), id);
      FirstIndexExtend(RowIds(rows), [row.id], id);
      assert FirstIndex(RowIds(next), id) == k;
      assert next[k] == rows[k];
      if gained {
        DedupSnoc(TagsOf(rows, id), TagOfRow(row));
      }
    } else {
      FirstIndexUnique(RowIds(next), id, |rows|);
      assert next[|rows|] == row;
      TagsOfAbsent(rows, id);
      if gained {
        assert TagsOf(next, id) == [] + [TagOfRow(row)];
        DedupSnoc<Option<TagState>>([], TagOfRow(row));
      } else {
        assert TagsOf(next, id) == [];
      }
    }
  }

  /** The extractor's key order and map after a prefix of the rows, one row at a time. */
  ghost function GroupedOf(done: seq<Row>): (g: (seq<int>, map<int, CertificateState>))
    ensures forall id :: id in g.1 ==> g.1[id].tags.Some?
    ensures forall k :: 0 <= k < |g.0| ==> g.0[k] in g.1
    decreases |done|
  {
    if done == [] then ([], map[])
    else
      var prev := GroupedOf(done[..|done| - 1]);
      var row := done[|done| - 1];
      var c := if row.id in prev.1 then prev.1[row.id] else FromRow(row);
      (if row.id in prev.1 then prev.0 else prev.0 + [row.id], prev.1[row.id := WithRowTag(c, row)])
  }

  /** The key order is the distinct ids by first appearance, and the keys are the ids seen. */
  lemma {:induction false} GroupedKeys(rows: seq<Row>)
    ensures GroupedOf(rows).0 == Dedup(RowIds(rows))
    ensures forall id :: id in GroupedOf(rows).1 <==> id in RowIds(rows)
    decreases |rows|
  {
    if rows != [] {
      var done, row := rows[..|rows| - 1], rows[|rows| - 1];
      GroupedKeys(done);
      assert rows == done + [row];
      assert RowIds(rows) == RowIds(done) + [row.id];
      DedupSnoc(RowIds(done), row.id);
    }
  }

  /** Each id's entry in the map is the certificate the rows define. */
  lemma {:induction false} GroupedValue(rows: seq<Row>, id: int)
    requires id in RowIds(rows)
    ensures id in GroupedOf(rows).1 && GroupedOf(rows).1[id] == Extracted(rows, id)
    decreases |rows|
  {
    var done, row := rows[..|rows| - 1], rows[|rows| - 1];
    assert rows == done + [row];
    assert RowIds(rows) == RowIds(done) + [row.id];
    ExtractedStep(done, row, id);
    var prev := GroupedOf(done);
    GroupedKeys(done);
    if id != row.id {
      GroupedValue(done, id);
      assert GroupedOf(rows).1[id] == prev.1[id];
    } else if id in RowIds(done) {
      GroupedValue(done, id);
      assert GroupedOf(rows).1[id] == WithRowTag(prev.1[id], row);
    } else {
      assert GroupedOf(rows).1[id] == WithRowTag(FromRow(row), row);
    }
  }

  /**
   * `ListGiftCertificateExtractor.extractData`: walk the rows, create a
   * certificate the first time an id is seen, and add each row's tag when
   * its name is not null.
   */
  method ExtractData(rows: seq<Row>) returns (certs: seq<CertificateState>)
    ensures certs == ExtractedAll(rows)
  {
    var order: seq<int> := [];
    var byId: map<int, CertificateState> := map[];
    var i := 0;
    while i < |rows|
      invariant 0 <= i <= |rows|
      invariant (order, byId) == GroupedOf(rows[..i])
    {
      var row := rows[i];
      assert rows[..i + 1][..i] == rows[..i];
      var cert: CertificateState;
      if row.id !in byId {
        cert := CertificateState(row.id, row.name, row.description, Some(row.price.GetOr(0)), Some(row.duration.GetOr(0)),
          row.createDate, row.lastUpdateDate, Some([]));
        order := order + [row.id];
      } else {
        cert := byId[row.id];
      }
      ghost var first := cert;
      if row.tagName.Some? {
        var tag := Some(TagState(row.tagId.GetOr(0), row.tagName));
        if tag !in cert.tags.value {
          cert := cert.(tags := Some(cert.tags.value + [tag]));
        }
      }
      assert cert == WithRowTag(first, row);
      byId := byId[row.id := cert];
      i := i + 1;
    }
    assert rows[..i] == rows;
    GroupedKeys(rows);
    certs := seq(|order|, k requires 0 <= k < |order| && order[k] in byId => byId[order[k]]);
    forall k | 0 <= k < |order| ensures certs[k] == ExtractedAll(rows)[k] {
      GroupedValue(rows, order[k]);
    }
  }

  // ---- what the extracted list promises ----

  lemma ExtractedIds(rows: seq<Row>)
    ensures var certs, ids := ExtractedAll(rows), Dedup(RowIds(rows));
      |certs| == |ids| && forall k :: 0 <= k < |certs| ==> certs[k].id == ids[k]
  {
    var certs, ids := ExtractedAll(rows), Dedup(RowIds(rows));
    forall k | 0 <= k < |certs| ensures certs[k].id == ids[k] {
      var f := FirstIndex(RowIds(rows), ids[k]);
      assert rows[f].id == ids[k];
    }
  }

  /** Exactly one certificate per distinct id, in order of first appearance. */
  lemma OnePerId(rows: seq<Row>)
    ensures var certs := ExtractedAll(rows);
      && (forall i, j :: 0 <= i < j < |certs| ==> certs[i].id != certs[j].id)
      && (forall k :: 0 <= k < |certs| ==> certs[k].id in RowIds(rows))
      && (forall i, j :: 0 <= i < j < |certs| ==> FirstIndex(RowIds(rows), certs[i].id) < FirstIndex(RowIds(rows), certs[j].id))
  {
    ExtractedIds(rows);
    DedupFirstSeen(RowIds(rows));
  }

  /** Every row's id has its certificate in the list. */
  lemma EveryIdExtracted(rows: seq<Row>, r: Row)
    requires r in rows
    ensures exists k :: 0 <= k < |ExtractedAll(rows)| && ExtractedAll(rows)[k].id == r.id
  {
    var certs, ids := ExtractedAll(rows), Dedup(RowIds(rows));
    ExtractedIds(rows);
    var n :| 0 <= n < |rows| && rows[n] == r;
    assert RowIds(rows)[n] == r.id;
    assert r.id in ids;
    var k :| 0 <= k < |ids| && ids[k] == r.id;
    assert certs[k].id == r.id;
  }

  /** Later rows never overwrite the scalar fields the first row of an id set. */
  lemma {:induction false} LaterRowsKeepScalars(rows: seq<Row>, more: seq<Row>, id: int)
    requires id in RowIds(rows)
    ensures id in RowIds(rows + more)
    ensures Extracted(rows + more, id).(tags := None) == Extracted(rows, id).(tags := None)
  {
    assert RowIds(rows + more) == RowIds(rows) + RowIds(more);
    FirstIndexExtend(RowIds(rows), RowIds(more), id);
    var k := FirstIndex(RowIds(rows), id);
    assert (rows + more)[k] == rows[k];
  }

  lemma {:induction false} TagsOfMembers(rows: seq<Row>, id: int)
    ensures forall t :: t in TagsOf(rows, id) <==>
      exists r :: r in rows && r.id == id && r.tagName.Some? && t == TagOfRow(r)
    decreases |rows|
  {
    if rows != [] {
      var init, last := rows[..|rows| - 1], rows[|rows| - 1];
      assert rows == init + [last];
      TagsOfMembers(init, id);
    }
  }

  /**
   * A certificate's tags are the tags of its rows with a non-null name,
   * each once; when every row of the id has a null tag name it has none.
   */
  lemma ExtractedTags(rows: seq<Row>, id: int)
    requires id in RowIds(rows)
    ensures var tags := Extracted(rows, id).tags;
      && tags.Some?
      && (forall i, j :: 0 <= i < j < |tags.value| ==> tags.value[i] != tags.value[j])
      && (forall t :: t in tags.value <==> exists r :: r in rows && r.id == id && r.tagName.Some? && t == TagOfRow(r))
    ensures (forall r :: r in rows && r.id == id ==> r.tagName.None?) ==> Extracted(rows, id).tags == Some([])
  {
    TagsOfMembers(rows, id);
    if TagsOf(rows, id) != [] {
      var t := TagsOf(rows, id)[0];
      assert t in TagsOf(rows, id);
    }
  }

  // ---- the joined rows of one stored certificate ----

  function RowRecord(row: Row): CertRecord {
    CertRecord(row.name, row.description, row.price, row.duration, row.createDate, row.lastUpdateDate)
  }

  /** The tags the store links to certificate `id`. */
  function LinkedTags(t: Tables, id: int): set<Option<TagState>> {
    set n | n in t.tagIds && (id, t.tagIds[n]) in t.links :: Some(TagState(t.tagIds[n], Some(n)))
  }

  /**
   * Rows the LEFT JOIN of `FIND_BY_ID_QUERY` can return for a stored
   * certificate, in whatever order the database returns them: each carries
   * the certificate's columns, each linked tag appears, and a row's tag
   * columns are either both null or a linked tag.
   */
  predicate JoinedRows(t: Tables, id: int, rows: seq<Row>) {
    && id in t.certificates
    && rows != []
    && (forall r :: r in rows ==> r.id == id && RowRecord(r) == t.certificates[id])
    && (forall r :: r in rows && r.tagName.Some? ==>
          r.tagName.value in t.tagIds && r.tagId == Some(t.tagIds[r.tagName.value]) && (id, t.tagIds[r.tagName.value]) in t.links)
    && (forall n :: n in t.tagIds && (id, t.tagIds[n]) in t.links ==> exists r :: r in rows && r.tagName == Some(n))
  }

  /** Reading a stored certificate back through the extractor gives its columns and exactly its linked tags. */
  lemma JoinedExtraction(t: Tables, id: int, rows: seq<Row>)
    requires JoinedRows(t, id, rows)
    ensures id in RowIds(rows)
    ensures var c := Extracted(rows, id); var rec := t.certificates[id];
      && c.id == id && c.name == rec.name && c.description == rec.description
      && c.price == Some(rec.price.GetOr(0)) && c.duration == Some(rec.duration.GetOr(0))
      && c.createDate == rec.createDate && c.lastUpdateDate == rec.lastUpdateDate
      && (set x | x in c.tags.value) == LinkedTags(t, id)
  {
    assert rows[0] in rows && RowIds(rows)[0] == id;
    var c := Extracted(rows, id);
    var f := FirstIndex(RowIds(rows), id);
    assert rows[f] in rows;
    ExtractedTags(rows, id);
    forall x | x in c.tags.value ensures x in LinkedTags(t, id) {
      var r :| r in rows && r.id == id && r.tagName.Some? && x == TagOfRow(r);
      var n := r.tagName.value;
      assert x == Some(TagState(t.tagIds[n], Some(n)));
    }
    forall x | x in LinkedTags(t, id) ensures x in c.tags.value {
      var n :| n in t.tagIds && (id, t.tagIds[n]) in t.links && x == Some(TagState(t.tagIds[n], Some(n)));
      var r :| r in rows && r.tagName == Some(n);
      assert x == TagOfRow(r);
    }
  }

  // ---- sorting by SortBy/SortDir ----

  datatype SortBy = NAME | DATE {
    function ColumnName(): string {
      match this
      case NAME => "gc.name"
      case DATE => "gc.create_date"
    }
  }

  /** `SortDir`, whose constant names are the SQL keywords. */
  datatype SortDir = ASC | DESC {
    function Name(): string {
      match this
      case ASC => "ASC"
      case DESC => "DESC"
    }
  }

  /** The direction the loop reads for key `i`: a supplied one, else one of the appended `ASC`s. */
  function Direction(dirs: seq<Option<SortDir>>, i: nat): Option<SortDir> {
    if i < |dirs| then dirs[i] else Some(ASC)
  }

  function Ascending(n: nat): seq<Option<SortDir>> {
    seq(n, _ => Some(ASC))
  }

  /** Key `i` renders without a null dereference. */
  predicate Renderable(keys: seq<Option<SortBy>>, dirs: seq<Option<SortDir>>, i: nat)
    requires i < |keys|
  {
    keys[i].Some? && Direction(dirs, i).Some?
  }

  /** How many keys, from the front, render before the loop throws. */
  function RenderedPrefix(keys: seq<Option<SortBy>>, dirs: seq<Option<SortDir>>): (k: nat)
    ensures k <= |keys|
    ensures forall i :: 0 <= i < k ==> Renderable(keys, dirs, i)
    ensures k < |keys| ==> !Renderable(keys, dirs, k)
    decreases |keys|
  {
    if keys == [] then 0
    else
      var init := keys[..|keys| - 1];
      var k := RenderedPrefix(init, dirs);
      assert forall i :: 0 <= i < |init| ==> init[i] == keys[i];
      assert forall i :: 0 <= i < |init| ==> (Renderable(init, dirs, i) <==> Renderable(keys, dirs, i));
      if k < |init| then k else if Renderable(keys, dirs, |init|) then |keys| else |init|
  }

  /** The loop stops at the first key that does not render. */
  lemma PrefixStopsAt(keys: seq<Option<SortBy>>, dirs: seq<Option<SortDir>>, i: nat)
    requires i < |keys| && !Renderable(keys, dirs, i)
    requires forall j :: 0 <= j < i ==> Renderable(keys, dirs, j)
    ensures RenderedPrefix(keys, dirs) == i
  {
    var k := RenderedPrefix(keys, dirs);
    assert !(k < i) && !(i < k);
  }

  lemma PrefixWhole(keys: seq<Option<SortBy>>, dirs: seq<Option<SortDir>>)
    requires forall j :: 0 <= j < |keys| ==> Renderable(keys, dirs, j)
    ensures RenderedPrefix(keys, dirs) == |keys|
  {
  }

  /** `column DIR` for key `i`. */
  function Item(keys: seq<Option<SortBy>>, dirs: seq<Option<SortDir>>, i: nat): string
    requires i < |keys| && Renderable(keys, dirs, i)
  {
    keys[i].value.ColumnName() + " " + Direction(dirs, i).value.Name()
  }

  function Items(keys: seq<Option<SortBy>>, dirs: seq<Option<SortDir>>, n: nat): (r: seq<string>)
    requires n <= |keys| && forall i :: 0 <= i < n ==> Renderable(keys, dirs, i)
    ensures |r| == n && forall i :: 0 <= i < n ==> r[i] == Item(keys, dirs, i)
  {
    seq(n, i requires 0 <= i < n && Renderable(keys, dirs, i) => Item(keys, dirs, i))
  }

  predicate SortRenderable(keys: Option<seq<Option<SortBy>>>, dirs: Option<seq<Option<SortDir>>>) {
    keys.Some? ==> RenderedPrefix(keys.value, dirs.GetOr([])) == |keys.value|
  }

  /** The ORDER BY text: empty without keys, else `ORDER BY ` and the items joined by `, `. */
  function OrderByText(keys: Option<seq<Option<SortBy>>>, dirs: Option<seq<Option<SortDir>>>): string
    requires SortRenderable(keys, dirs)
  {
    if keys.None? || keys.value == [] then ""
    else ORDER_BY_QUERY + Join(ORDER_BY_DELIMITER, Items(keys.value, dirs.GetOr([]), |keys.value|))
  }

  /** A key past the supplied directions sorts ascending; a supplied direction is used as given. */
  lemma ItemDirection(keys: seq<Option<SortBy>>, dirs: seq<Option<SortDir>>, i: nat)
    requires i < |keys| && Renderable(keys, dirs, i)
    ensures i >= |dirs| ==> Item(keys, dirs, i) == keys[i].value.ColumnName() + " ASC"
    ensures i < |dirs| ==> Item(keys, dirs, i) == keys[i].value.ColumnName() + " " + dirs[i].value.Name()
  {
  }

  /** The `ASC`s the loop appends never change what a later call renders from the same holder. */
  lemma AppendedAscendingInvisible(keys: seq<Option<SortBy>>, dirs: seq<Option<SortDir>>, m: nat)
    ensures SortRenderable(Some(keys), Some(dirs)) <==> SortRenderable(Some(keys), Some(dirs + Ascending(m)))
    ensures SortRenderable(Some(keys), Some(dirs)) ==>
      OrderByText(Some(keys), Some(dirs)) == OrderByText(Some(keys), Some(dirs + Ascending(m)))
  {
    var dirs' := dirs + Ascending(m);
    assert forall i :: 0 <= i < |keys| ==> Direction(dirs, i) == Direction(dirs', i);
    assert forall i :: 0 <= i < |keys| ==> (Renderable(keys, dirs, i) <==> Renderable(keys, dirs', i));
    var k, k' := RenderedPrefix(keys, dirs), RenderedPrefix(keys, dirs');
    assert !(k < k') && !(k' < k);
    if k == |keys| && keys != [] {
      assert Items(keys, dirs, |keys|) == Items(keys, dirs', |keys|);
    }
  }

  // ---- the statement text ----

  const ORDER_BY_QUERY: string := "ORDER BY "
  const ORDER_BY_DELIMITER: string := ", "
  const SQL_ANY_SYMBOL: string := "%"

  const FIND_ALL_HEAD: string :=
    "SELECT gc.*, t.id AS tag_id, " + "t.name AS tag_name " + "FROM gift_certificate gc " + "LEFT JOIN "
    + "gift_certificate_tag gct " + "ON gc.id = " + "gct.gift_certificate_id " + "LEFT JOIN tag t "
    + "ON gct.tag_id = t.id "
  const FIND_ALL_TAG_FILTER: string :=
    "WHERE ((gc.id IN (SELECT " + "gct.gift_certificate_id " + "FROM gift_certificate_tag gct "
    + "LEFT JOIN tag t " + "ON gct.tag_id = t.id " + "WHERE t.name = COALESCE("
  const FIND_ALL_NO_TAG: string := ", t.name))) " + "OR IFNULL("
  const FIND_ALL_SEARCH: string :=
    ", gc.id IN (SELECT gc.id " + "FROM gift_certificate gc)))" + "AND (CONCAT(gc.name, ' ', " + "gc.description) LIKE "

  /** The search statement: one optional tag name bound twice, then the LIKE pattern. */
  const FIND_ALL_QUERY: string :=
    FIND_ALL_HEAD + FIND_ALL_TAG_FILTER + "?" + FIND_ALL_NO_TAG + "?" + FIND_ALL_SEARCH + "?" + ") "

  function TagNameArg(tagName: Option<string>): SqlArg {
    if tagName.Some? then TextArg(tagName.value) else NullArg
  }

  /** `"%" + search + "%"`, or `"%"` alone when there is no search term. */
  function SearchPattern(search: Option<string>): string {
    if search.Some? then SQL_ANY_SYMBOL + search.value + SQL_ANY_SYMBOL else SQL_ANY_SYMBOL
  }

  function SearchArgs(tagName: Option<string>, search: Option<string>): seq<SqlArg> {
    [TagNameArg(tagName), TagNameArg(tagName), TextArg(SearchPattern(search))]
  }

  /** The select list binds nothing. */
  lemma HeadSelectPlaceholders()
    ensures Placeholders("SELECT gc.*, t.id AS tag_id, " + "t.name AS tag_name " + "FROM gift_certificate gc ") == 0
  {
    NoPlaceholders("SELECT gc.*, t.id AS tag_id, ");
    CleanAppend("SELECT gc.*, t.id AS tag_id, ", "t.name AS tag_name ");
    CleanAppend("SELECT gc.*, t.id AS tag_id, " + "t.name AS tag_name ", "FROM gift_certificate gc ");
  }

  /** Nor does the first join, up to its condition. */
  lemma HeadJoinPlaceholders()
    ensures Placeholders("SELECT gc.*, t.id AS tag_id, " + "t.name AS tag_name " + "FROM gift_certificate gc " + "LEFT JOIN " + "gift_certificate_tag gct " + "ON gc.id = ") == 0
  {
    HeadSelectPlaceholders();
    CleanAppend("SELECT gc.*, t.id AS tag_id, " + "t.name AS tag_name " + "FROM gift_certificate gc ", "LEFT JOIN ");
    CleanAppend("SELECT gc.*, t.id AS tag_id, " + "t.name AS tag_name " + "FROM gift_certificate gc " + "LEFT JOIN ", "gift_certificate_tag gct ");
    CleanAppend("SELECT gc.*, t.id AS tag_id, " + "t.name AS tag_name " + "FROM gift_certificate gc " + "LEFT JOIN " + "gift_certificate_tag gct ", "ON gc.id = ");
  }

  /** The select list and the joins bind nothing. */
  lemma HeadPlaceholders()
    ensures Placeholders(FIND_ALL_HEAD) == 0
  {
    HeadJoinPlaceholders();
    CleanAppend("SELECT gc.*, t.id AS tag_id, " + "t.name AS tag_name " + "FROM gift_certificate gc " + "LEFT JOIN " + "gift_certificate_tag gct " + "ON gc.id = ", "gct.gift_certificate_id ");
    CleanAppend("SELECT gc.*, t.id AS tag_id, " + "t.name AS tag_name " + "FROM gift_certificate gc " + "LEFT JOIN " + "gift_certificate_tag gct " + "ON gc.id = " + "gct.gift_certificate_id ", "LEFT JOIN tag t ");
    CleanAppend("SELECT gc.*, t.id AS tag_id, " + "t.name AS tag_name " + "FROM gift_certificate gc " + "LEFT JOIN " + "gift_certificate_tag gct " + "ON gc.id = " + "gct.gift_certificate_id " + "LEFT JOIN tag t ", "ON gct.tag_id = t.id ");
  }

  /** The opening of the tag sub-select binds nothing. */
  lemma TagFilterOpenPlaceholders()
    ensures Placeholders("WHERE ((gc.id IN (SELECT " + "gct.gift_certificate_id ") == 0
  {
    CleanPair("WHERE ((gc.id IN (SELECT ", "gct.gift_certificate_id ");
  }

  /** Nor does its source table. */
  lemma TagFilterSelectPlaceholders()
    ensures Placeholders("WHERE ((gc.id IN (SELECT " + "gct.gift_certificate_id " + "FROM gift_certificate_tag gct ") == 0
  {
    TagFilterOpenPlaceholders();
    CleanAppend("WHERE ((gc.id IN (SELECT " + "gct.gift_certificate_id ", "FROM gift_certificate_tag gct ");
  }

  /** The tag sub-select up to its parameter binds nothing. */
  lemma TagFilterPlaceholders()
    ensures Placeholders(FIND_ALL_TAG_FILTER) == 0
  {
    TagFilterSelectPlaceholders();
    CleanAppend("WHERE ((gc.id IN (SELECT " + "gct.gift_certificate_id " + "FROM gift_certificate_tag gct ", "LEFT JOIN tag t ");
    CleanAppend("WHERE ((gc.id IN (SELECT " + "gct.gift_certificate_id " + "FROM gift_certificate_tag gct " + "LEFT JOIN tag t ", "ON gct.tag_id = t.id ");
    CleanAppend("WHERE ((gc.id IN (SELECT " + "gct.gift_certificate_id " + "FROM gift_certificate_tag gct " + "LEFT JOIN tag t " + "ON gct.tag_id = t.id ", "WHERE t.name = COALESCE(");
  }

  /** The text between the two tag parameters binds nothing. */
  lemma NoTagPlaceholders()
    ensures Placeholders(FIND_ALL_NO_TAG) == 0
  {
    NoPlaceholders(", t.name))) ");
    CleanAppend(", t.name))) ", "OR IFNULL(");
  }

  /** The all-certificates sub-select binds nothing. */
  lemma SearchSubselectPlaceholders()
    ensures Placeholders(", gc.id IN (SELECT gc.id " + "FROM gift_certificate gc)))") == 0
  {
    CleanPair(", gc.id IN (SELECT gc.id ", "FROM gift_certificate gc)))");
  }

  /** The text before the LIKE parameter binds nothing. */
  lemma SearchTextPlaceholders()
    ensures Placeholders(FIND_ALL_SEARCH) == 0
  {
    SearchSubselectPlaceholders();
    CleanAppend(", gc.id IN (SELECT gc.id " + "FROM gift_certificate gc)))", "AND (CONCAT(gc.name, ' ', ");
    CleanAppend(", gc.id IN (SELECT gc.id " + "FROM gift_certificate gc)))" + "AND (CONCAT(gc.name, ' ', ", "gc.description) LIKE ");
  }

  lemma QueryPlaceholders()
    ensures Placeholders(FIND_ALL_QUERY) == 3
  {
    HeadPlaceholders();
    TagFilterPlaceholders();
    NoTagPlaceholders();
    SearchTextPlaceholders();
    OnePlaceholder();
    var a := FIND_ALL_HEAD + FIND_ALL_TAG_FILTER;
    PlaceholdersAppend(FIND_ALL_HEAD, FIND_ALL_TAG_FILTER);
    PlaceholdersAppend(a, "?");
    PlaceholdersAppend(a + "?", FIND_ALL_NO_TAG);
    PlaceholdersAppend(a + "?" + FIND_ALL_NO_TAG, "?");
    PlaceholdersAppend(a + "?" + FIND_ALL_NO_TAG + "?", FIND_ALL_SEARCH);
    PlaceholdersAppend(a + "?" + FIND_ALL_NO_TAG + "?" + FIND_ALL_SEARCH, "?");
    NoPlaceholders(") ");
    PlaceholdersAppend(a + "?" + FIND_ALL_NO_TAG + "?" + FIND_ALL_SEARCH + "?", ") ");
  }

  /** A rendered sort item binds nothing. */
  lemma ItemPlaceholders(key: SortBy, dir: SortDir)
    ensures Placeholders(key.ColumnName() + " " + dir.Name()) == 0
  {
    NoPlaceholders(key.ColumnName());
    CleanAppend(key.ColumnName(), " ");
    CleanAppend(key.ColumnName() + " ", dir.Name());
  }

  lemma ItemsPlaceholders(keys: seq<Option<SortBy>>, dirs: seq<Option<SortDir>>, n: nat)
    requires n <= |keys| && forall i :: 0 <= i < n ==> Renderable(keys, dirs, i)
    ensures SumPlaceholders(Items(keys, dirs, n)) == 0
  {
    var items := Items(keys, dirs, n);
    forall i | 0 <= i < n ensures Placeholders(items[i]) == 0 {
      assert Renderable(keys, dirs, i);
      ItemPlaceholders(keys[i].value, Direction(dirs, i).value);
    }
    SumPlaceholdersNone(items);
  }

  /** Three placeholders, three arguments, whatever the ordering. */
  lemma SearchPlaceholdersMatch(keys: Option<seq<Option<SortBy>>>, dirs: Option<seq<Option<SortDir>>>,
                                tagName: Option<string>, search: Option<string>)
    requires SortRenderable(keys, dirs)
    ensures Placeholders(FIND_ALL_QUERY + OrderByText(keys, dirs)) == |SearchArgs(tagName, search)|
  {
    QueryPlaceholders();
    OrderByPlaceholders(keys, dirs);
    PlaceholdersAppend(FIND_ALL_QUERY, OrderByText(keys, dirs));
  }

  /** The ORDER BY text has no placeholder: its columns and directions come from enums. */
  lemma OrderByPlaceholders(keys: Option<seq<Option<SortBy>>>, dirs: Option<seq<Option<SortDir>>>)
    requires SortRenderable(keys, dirs)
    ensures Placeholders(OrderByText(keys, dirs)) == 0
  {
    var o := OrderByText(keys, dirs);
    if o != "" {
      var items := Items(keys.value, dirs.GetOr([]), |keys.value|);
      ItemsPlaceholders(keys.value, dirs.GetOr([]), |keys.value|);
      NoPlaceholders(ORDER_BY_QUERY); NoPlaceholders(ORDER_BY_DELIMITER);
      PlaceholdersJoin(ORDER_BY_DELIMITER, items);
      PlaceholdersAppend(ORDER_BY_QUERY, Join(ORDER_BY_DELIMITER, items));
    } else {
      NoPlaceholders(o);
    }
  }

  // ---- the DAO ----

  /** The request holder this DAO reads, and whose direction list it extends. */
  class RequestParametersHolder {
    var tagName: Option<string>
    var search: Option<string>
    var sortByList: Option<seq<Option<SortBy>>>
    var sortDirList: Option<seq<Option<SortDir>>>

    constructor ()
      ensures tagName.None? && search.None? && sortByList.None? && sortDirList.None?
    {
      tagName, search, sortByList, sortDirList := None, None, None, None;
    }
  }

  class GiftCertificateDao {
    /** The JDBC statements of create, update and delete, which this DAO shares with the newer one. */
    const statements: DaoImpl.GiftCertificateDaoImpl

    constructor (db: Database)
      ensures statements.db == db
    {
      statements := new DaoImpl.GiftCertificateDaoImpl(db);
    }

    /**
     * `getOrderByQuery`: for each key append an `ASC` to the holder's
     * direction list (creating it when null), then render key `i` with
     * direction `i`.
     */
    method GetOrderByQuery(rph: RequestParametersHolder) returns (r: Outcome<string>)
      modifies rph
      ensures rph.tagName == old(rph.tagName) && rph.search == old(rph.search) && rph.sortByList == old(rph.sortByList)
      ensures old(rph.sortByList).None? || old(rph.sortByList).value == [] ==>
        r == Success("") && rph.sortDirList == old(rph.sortDirList)
      ensures r.Success? <==> SortRenderable(old(rph.sortByList), old(rph.sortDirList))
      ensures r.Success? ==> r.value == OrderByText(old(rph.sortByList), old(rph.sortDirList))
      ensures r.Failure? ==> r.error == NullPointer
      ensures old(rph.sortByList).Some? && old(rph.sortByList).value != [] ==>
        var keys, dirs := old(rph.sortByList).value, old(rph.sortDirList).GetOr([]);
        var k := RenderedPrefix(keys, dirs);
        rph.sortDirList == Some(dirs + Ascending(if k == |keys| then k else k + 1))
    {
      if rph.sortByList.None? || rph.sortByList.value == [] {
        return Success("");
      }
      if rph.sortDirList.None? {
        rph.sortDirList := Some([]);
      }
      var keys := rph.sortByList.value;
      ghost var dirs := rph.sortDirList.value;
      var items: seq<string> := [];
      var i := 0;
      assert dirs + Ascending(0) == dirs;
      while i < |keys|
        invariant 0 <= i <= |keys|
        invariant rph.sortByList == Some(keys) && rph.tagName == old(rph.tagName) && rph.search == old(rph.search)
        invariant rph.sortDirList == Some(dirs + Ascending(i))
        invariant forall j :: 0 <= j < i ==> Renderable(keys, dirs, j)
        invariant items == Items(keys, dirs, i)
      {
        var next := RenderAt(rph, keys, dirs, i, items);
        if next.None? {
          PrefixStopsAt(keys, dirs, i);
          return Failure(NullPointer);
        }
        items := next.value;
        i := i + 1;
      }
      PrefixWhole(keys, dirs);
      r := Success(ORDER_BY_QUERY + Join(ORDER_BY_DELIMITER, items));
    }

    /** One turn of `getOrderByQuery`'s loop: append an `ASC`, then render key `i` with direction `i`, or meet a null. */
    method RenderAt(rph: RequestParametersHolder, keys: seq<Option<SortBy>>, ghost dirs: seq<Option<SortDir>>, i: nat,
                    items: seq<string>) returns (next: Option<seq<string>>)
      requires i < |keys| && rph.sortDirList == Some(dirs + Ascending(i))
      requires forall j :: 0 <= j < i ==> Renderable(keys, dirs, j)
      requires items == Items(keys, dirs, i)
      modifies rph
      ensures rph.tagName == old(rph.tagName) && rph.search == old(rph.search) && rph.sortByList == old(rph.sortByList)
      ensures rph.sortDirList == Some(dirs + Ascending(i + 1))
      ensures next.Some? <==> Renderable(keys, dirs, i)
      ensures next.Some? ==> next.value == Items(keys, dirs, i + 1)
    {
      rph.sortDirList := Some(rph.sortDirList.value + [Some(ASC)]);
      assert dirs + Ascending(i) + [Some(ASC)] == dirs + Ascending(i + 1);
      var sortBy := keys[i];
      var dir := rph.sortDirList.value[i];
      assert dir == Direction(dirs, i);
      if sortBy.None? || dir.None? {
        return None;
      }
      next := Some(items + [sortBy.value.ColumnName() + " " + dir.value.Name()]);
    }

    /**
     * `findAll`: the search statement and its three arguments; a null
     * holder is replaced by an empty one. Running it is not modelled.
     */
    method FindAll(rph: RequestParametersHolder?) returns (r: Outcome<SqlQuery>)
      modifies rph
      ensures rph == null ==> r == Success(SqlQuery(FIND_ALL_QUERY, SearchArgs(None, None)))
      ensures rph != null ==> (r.Success? <==> SortRenderable(old(rph.sortByList), old(rph.sortDirList)))
      ensures rph != null ==> rph.tagName == old(rph.tagName) && rph.search == old(rph.search) && rph.sortByList == old(rph.sortByList)
      ensures rph != null && (old(rph.sortByList).None? || old(rph.sortByList).value == []) ==> rph.sortDirList == old(rph.sortDirList)
      ensures rph != null && old(rph.sortByList).Some? && old(rph.sortByList).value != [] ==>
        var keys, dirs := old(rph.sortByList).value, old(rph.sortDirList).GetOr([]);
        var k := RenderedPrefix(keys, dirs);
        rph.sortDirList == Some(dirs + Ascending(if k == |keys| then k else k + 1))
      ensures rph != null && r.Success? ==>
        r.value == SqlQuery(FIND_ALL_QUERY + OrderByText(old(rph.sortByList), old(rph.sortDirList)),
                            SearchArgs(old(rph.tagName), old(rph.search)))
      ensures r.Success? ==> Placeholders(r.value.text) == |r.value.args|
      ensures r.Failure? ==> r.error == NullPointer
    {
      var holder := rph;
      if holder == null {
        holder := new RequestParametersHolder();
      }
      var search := if holder.search.Some? then SQL_ANY_SYMBOL + holder.search.value + SQL_ANY_SYMBOL else SQL_ANY_SYMBOL;
      ghost var keys, dirs := holder.sortByList, holder.sortDirList;
      var orderBy := GetOrderByQuery(holder);
      if orderBy.Failure? {
        return Failure(orderBy.error);
      }
      var tag := TagNameArg(holder.tagName);
      assert rph == null ==> orderBy.value == "" && FIND_ALL_QUERY + orderBy.value == FIND_ALL_QUERY;
      SearchPlaceholdersMatch(keys, dirs, holder.tagName, holder.search);
      r := Success(SqlQuery(FIND_ALL_QUERY + orderBy.value, [tag, tag, TextArg(search)]));
    }

    /** `findById`: the first certificate the rows of `FIND_BY_ID_QUERY` fold into, or a wrong-id error when there are none. */
    method FindById(id: int, rows: seq<Row>) returns (r: Outcome<CertificateState>)
      ensures r.Success? <==> rows != []
      ensures r.Failure? ==> r.error == WrongId(id, RESOURCE_NAME)
      ensures r.Success? ==> rows[0].id in RowIds(rows) && r.value == Extracted(rows, rows[0].id)
    {
      var certs := ExtractData(rows);
      if certs == [] {
        if rows != [] {
          DedupHead(RowIds(rows));
        }
        return Failure(WrongId(id, RESOURCE_NAME));
      }
      DedupHead(RowIds(rows));
      r := Success(certs[0]);
    }

    /**
     * `update`: the statements of the newer DAO, then a re-read through the
     * extractor over `rows`, the rows the join returns afterwards. The method
     * is one transaction, so a re-read that finds no row, and throws,
     * leaves the tables as they were.
     */
    method Update(certificate: GiftCertificate, rows: seq<Row>) returns (r: Outcome<CertificateState>)
      requires statements.db.Valid()
      modifies statements.db, certificate.TagObjects()
      ensures statements.db.Valid()
      ensures r.Success? <==>
        certificate.id in old(statements.db.certificates) && DaoImpl.Linkable(old(certificate.TagStates())) && rows != []
      ensures r.Failure? ==> statements.db.Contents() == old(statements.db.Contents())
      ensures r.Failure? && certificate.id !in old(statements.db.certificates) ==> r.error == WrongId(certificate.id, RESOURCE_NAME)
      ensures r.Failure? && certificate.id in old(statements.db.certificates) && !DaoImpl.Linkable(old(certificate.TagStates())) ==>
        r.error == DaoImpl.LinkError(old(certificate.TagStates()))
      ensures r.Failure? && certificate.id in old(statements.db.certificates) && DaoImpl.Linkable(old(certificate.TagStates())) ==>
        r.error == WrongId(certificate.id, RESOURCE_NAME)
      ensures r.Success? ==>
        statements.db.Contents() == SqlUpdated(old(statements.db.Contents()), certificate.id, old(certificate.Record()),
          DaoImpl.LinkedNames(old(certificate.TagStates())))
      ensures r.Success? ==> rows[0].id in RowIds(rows) && r.value == Extracted(rows, rows[0].id)
      ensures r.Success? && JoinedRows(statements.db.Contents(), certificate.id, rows) ==>
        r.value.id == certificate.id && (set x | x in r.value.tags.value) == LinkedTags(statements.db.Contents(), certificate.id)
    {
      var saved := statements.db.Contents();
      var updated := statements.Update(certificate);
      if updated.Failure? {
        return Failure(updated.error);
      }
      r := FindById(certificate.id, rows);
      if r.Failure? {
        statements.db.Rollback(saved);
        return;
      }
      if JoinedRows(statements.db.Contents(), certificate.id, rows) {
        JoinedExtraction(statements.db.Contents(), certificate.id, rows);
      }
    }
  }
}
