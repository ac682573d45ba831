/**
 * `GiftCertificateRepositoryImpl`: the Hibernate variant of the DAO. Its
 * search builds a criteria query (orders, restrictions and paging) instead
 * of SQL text; its mutations resolve tags by name, merge the row with the
 * ORM rule and replace the whole tag set whenever one is given.
 */
module Repository {
  import opened Wrappers
  import opened Entities
  import opened JavaStrings
  import opened SortPatterns
  import opened Store
  import DaoImpl
  import AbstractDao

  const SORT_DIRECTION_ASC: string := "asc"
  const SORT_DIRECTION_DESC: string := "desc"
  const SQL_ANY_SYMBOL: string := "%"

  /** `criteriaBuilder.asc(root.get(attribute))` or `desc(…)`. */
  datatype CriteriaOrder = Asc(attribute: string) | Desc(attribute: string)

  /** One predicate of the WHERE conjunction. */
  datatype Restriction =
    | HasTag(tagName: string)                 // id IN (SELECT id … JOIN tags WHERE tag.name = ?)
    | NameOrDescriptionLike(pattern: string)  // name LIKE ? OR description LIKE ?

  /** The criteria query `findAll` hands to the session. */
  datatype CriteriaQuery = CriteriaQuery(
    orders: Option<seq<Option<CriteriaOrder>>>,
    restrictions: Option<seq<Restriction>>,
    firstResult: Int32,
    maxResults: Int32)

  // ---- getCriteriaOrders ----

  /** What one sort token becomes, or the exception it raises. */
  function OrderStep(s: Option<string>): Outcome<CriteriaOrder> {
    if s.None? || !RepositorySortTokenValid(s.value) then Failure(InvalidSortRequest(Some(StripAnchors(REPOSITORY_SORT_PATTERN))))
    else
      var splitSort := Split(s.value, '.');
      if |splitSort| < 2 then Failure(IndexOutOfBounds)
      else if EqualsIgnoreCase(splitSort[1], SORT_DIRECTION_DESC) then Success(Desc(splitSort[0]))
      else Success(Asc(splitSort[0]))
  }

  /** The values of all steps in order, or the first failing step's error. */
  function Collect<T>(steps: seq<Outcome<T>>): Outcome<seq<T>>
    decreases |steps|
  {
    if steps == [] then Success([])
    else
      var prev := Collect(steps[..|steps| - 1]);
      if prev.Failure? then prev
      else
        var o := steps[|steps| - 1];
        if o.Failure? then Failure(o.error) else Success(prev.value + [o.value])
  }

  /** What each sort token becomes, token by token. */
  function OrderSteps(tokens: seq<Option<string>>): seq<Outcome<CriteriaOrder>> {
    seq(|tokens|, j requires 0 <= j < |tokens| => OrderStep(tokens[j]))
  }

  /** The orders of all tokens in input order, or the first rejected token's exception. */
  function OrdersOf(tokens: seq<Option<string>>): Outcome<seq<CriteriaOrder>> {
    Collect(OrderSteps(tokens))
  }

  function Somes<T>(s: seq<T>): (r: seq<Option<T>>)
    ensures |r| == |s| && forall j :: 0 <= j < |s| ==> r[j] == Some(s[j])
  {
    seq(|s|, j requires 0 <= j < |s| => Some(s[j]))
  }

  /** Collecting succeeds exactly when every step does, and then lists the steps' values in order. */
  lemma {:induction false} CollectFacts<T>(steps: seq<Outcome<T>>)
    ensures Collect(steps).Success? <==> forall j :: 0 <= j < |steps| ==> steps[j].Success?
    ensures Collect(steps).Success? ==>
      |Collect(steps).value| == |steps| && forall j :: 0 <= j < |steps| ==> Collect(steps).value[j] == steps[j].value
    decreases |steps|
  {
    if steps != [] {
      var init := steps[..|steps| - 1];
      assert forall j :: 0 <= j < |init| ==> init[j] == steps[j];
      CollectFacts(init);
    }
  }

  /** Collecting one more step after a successful prefix. */
  lemma CollectStep<T>(steps: seq<Outcome<T>>, k: nat)
    requires k < |steps| && Collect(steps[..k]).Success?
    ensures Collect(steps[..k + 1]) ==
      if steps[k].Failure? then Failure(steps[k].error) else Success(Collect(steps[..k]).value + [steps[k].value])
  {
    assert steps[..k + 1][..k] == steps[..k];
  }

  lemma SomesAppend<T>(s: seq<T>, x: T)
    ensures Somes(s + [x]) == Somes(s) + [Some(x)]
  {
  }

  /** Once a prefix of the steps fails, the later steps do not matter. */
  lemma {:induction false} CollectPrefixFailure<T>(steps: seq<Outcome<T>>, k: nat)
    requires k <= |steps| && Collect(steps[..k]).Failure?
    ensures Collect(steps) == Collect(steps[..k])
    decreases |steps| - k
  {
    if k < |steps| {
      assert steps[..k + 1][..k] == steps[..k];
      CollectPrefixFailure(steps, k + 1);
    } else {
      assert steps[..k] == steps;
    }
  }

  /** One order per token, in input order, exactly when every token is accepted. */
  lemma OrdersOfFacts(tokens: seq<Option<string>>)
    ensures OrdersOf(tokens).Success? <==> forall j :: 0 <= j < |tokens| ==> OrderStep(tokens[j]).Success?
    ensures OrdersOf(tokens).Success? ==>
      |OrdersOf(tokens).value| == |tokens| &&
      forall j :: 0 <= j < |tokens| ==> OrdersOf(tokens).value[j] == OrderStep(tokens[j]).value
  {
    var steps := OrderSteps(tokens);
    CollectFacts(steps);
    assert |steps| == |tokens| && forall j :: 0 <= j < |tokens| ==> steps[j] == OrderStep(tokens[j]);
  }

  /** When every token before `j` is accepted and token `j` is not, the orders fail with token `j`'s exception. */
  lemma OrdersFirstFailure(tokens: seq<Option<string>>, j: nat)
    requires j < |tokens| && OrderStep(tokens[j]).Failure?
    requires forall i :: 0 <= i < j ==> OrderStep(tokens[i]).Success?
    ensures OrdersOf(tokens) == Failure(OrderStep(tokens[j]).error)
  {
    var steps := OrderSteps(tokens);
    var init := steps[..j];
    assert forall i :: 0 <= i < j ==> init[i] == steps[i];
    CollectFacts(init);
    assert steps[..j + 1][..j] == init;
    CollectPrefixFailure(steps, j + 1);
  }

  lemma FieldsHaveNoDot()
    ensures forall f :: f in REPOSITORY_SORT_FIELDS ==> '.' !in f
  {
    assert '.' !in "name" && '.' !in "createDate" && '.' !in "lastUpdateDate";
  }

  /** An accepted token is an attribute, one separator character and a direction, none of which holds a `.` but the separator. */
  lemma AcceptedParts(s: string) returns (f: string, c: char, d: string)
    requires RepositorySortTokenValid(s)
    ensures s == f + [c] + d && f in REPOSITORY_SORT_FIELDS && IsDirection(d)
    ensures '.' !in f && '.' !in d
  {
    f :| f in REPOSITORY_SORT_FIELDS && FieldSepDirection(s, f);
    c, d := s[|f|], s[|f| + 1..];
    assert s == f + [c] + d;
    FieldsHaveNoDot();
  }

  /** An accepted token that splits at `.` at all splits into an attribute and a lower-case direction. */
  lemma AcceptedSplit(s: string)
    requires RepositorySortTokenValid(s) && |Split(s, '.')| >= 2
    ensures |Split(s, '.')| == 2
    ensures Split(s, '.')[0] in REPOSITORY_SORT_FIELDS && IsDirection(Split(s, '.')[1])
    ensures s == Split(s, '.')[0] + "." + Split(s, '.')[1]
  {
    var f, c, d := AcceptedParts(s);
    SplitPair(f, d, '.');
  }

  /** Exactly one of the two case-insensitive comparisons holds for a direction. */
  lemma DirectionCases(d: string)
    requires IsDirection(d)
    ensures EqualsIgnoreCase(d, SORT_DIRECTION_ASC) <==> d == "asc"
    ensures EqualsIgnoreCase(d, SORT_DIRECTION_DESC) <==> d == "desc"
  {
    assert |ToUpper(SORT_DIRECTION_ASC)| != |ToUpper(SORT_DIRECTION_DESC)|;
  }

  /** `attribute.direction` orders by the attribute in that direction. */
  lemma DotTokenOrder(f: string, d: string)
    requires f in REPOSITORY_SORT_FIELDS && IsDirection(d)
    ensures OrderStep(Some(f + "." + d)) == Success(if d == "desc" then Desc(f) else Asc(f))
  {
    SortTokenShape(REPOSITORY_SORT_FIELDS, f, '.', d);
    assert f + "." + d == f + ['.'] + d;
    FieldsHaveNoDot();
    SplitPair(f, d, '.');
    if d == "asc" {
      assert |ToUpper(d)| != |ToUpper(SORT_DIRECTION_DESC)|;
    }
  }

  /** A separator other than `.` passes the pattern, and then `splitSort[1]` is out of bounds. */
  lemma OtherSeparatorOrder(f: string, c: char, d: string)
    requires f in REPOSITORY_SORT_FIELDS && c != '.' && !IsLineTerminator(c) && IsDirection(d)
    ensures OrderStep(Some(f + [c] + d)) == Failure(IndexOutOfBounds)
  {
    SortTokenShape(REPOSITORY_SORT_FIELDS, f, c, d);
    FieldsHaveNoDot();
    var s := f + [c] + d;
    assert forall x :: x in s ==> x in f || x == c || x in d;
    SplitAbsent(s, '.');
  }

  // ---- the WHERE conjunction ----

  function TagRestrictions(tags: seq<Option<string>>): (r: seq<Restriction>)
    requires DaoImpl.TagsValid(tags)
    ensures |r| == |tags| && forall j :: 0 <= j < |tags| ==> r[j] == HasTag(tags[j].value)
  {
    seq(|tags|, j requires 0 <= j < |tags| && DaoImpl.ValidTagName(tags[j]) => HasTag(tags[j].value))
  }

  /** The predicates `findAll` collects: one per tag name, then the search; none at all means no WHERE. */
  function Restrictions(p: DaoImpl.RequestParameters): Option<seq<Restriction>>
    requires DaoImpl.TagFilterActive(p) ==> DaoImpl.TagsValid(p.tags.value)
  {
    var tagPart := if DaoImpl.TagFilterActive(p) then TagRestrictions(p.tags.value) else [];
    var searchPart := if DaoImpl.SearchActive(p) then [NameOrDescriptionLike(SQL_ANY_SYMBOL + p.search.value + SQL_ANY_SYMBOL)] else [];
    if tagPart + searchPart == [] then None else Some(tagPart + searchPart)
  }

  predicate IsSubstring(s: string, text: string) {
    exists i :: 0 <= i <= |text| && s <= text[i..]
  }

  /** `LIKE '%s%'` with no wildcard inside `s`: the text contains `s`; a null column matches nothing. */
  predicate Like(column: Option<string>, pattern: string) {
    column.Some? && |pattern| >= 2 && IsSubstring(pattern[1..|pattern| - 1], column.value)
  }

  /** A certificate, seen through its name, description and tag names, satisfies one predicate. */
  predicate Satisfies(r: Restriction, name: Option<string>, description: Option<string>, tagNames: set<string>) {
    match r
    case HasTag(n) => n in tagNames
    case NameOrDescriptionLike(pattern) => Like(name, pattern) || Like(description, pattern)
  }

  predicate Selected(rs: Option<seq<Restriction>>, name: Option<string>, description: Option<string>, tagNames: set<string>) {
    rs.None? || forall j :: 0 <= j < |rs.value| ==> Satisfies(rs.value[j], name, description, tagNames)
  }

  /**
   * The query selects a certificate exactly when it carries every requested
   * tag (membership is conjunctive) and, for a search term, its name or
   * its description, each on its own, contains the term.
   */
  lemma SelectionMeaning(p: DaoImpl.RequestParameters, name: Option<string>, description: Option<string>, tagNames: set<string>)
    requires DaoImpl.TagFilterActive(p) ==> DaoImpl.TagsValid(p.tags.value)
    ensures Selected(Restrictions(p), name, description, tagNames) <==>
      && (DaoImpl.TagFilterActive(p) ==> forall j :: 0 <= j < |p.tags.value| ==> p.tags.value[j].value in tagNames)
      && (DaoImpl.SearchActive(p) ==>
            (name.Some? && IsSubstring(p.search.value, name.value)) || (description.Some? && IsSubstring(p.search.value, description.value)))
  {
    var tagPart := if DaoImpl.TagFilterActive(p) then TagRestrictions(p.tags.value) else [];
    var rs := Restrictions(p);
    if DaoImpl.SearchActive(p) {
      var pattern := SQL_ANY_SYMBOL + p.search.value + SQL_ANY_SYMBOL;
      assert pattern[1..|pattern| - 1] == p.search.value;
      var all := tagPart + [NameOrDescriptionLike(pattern)];
      assert rs == Some(all);
      assert all[|tagPart|] == NameOrDescriptionLike(pattern);
      assert forall j :: 0 <= j < |tagPart| ==> all[j] == tagPart[j];
    } else if rs.Some? {
      assert rs.value == tagPart;
    }
  }

  /** The query `findAll` builds, or the exception it throws first. */
  function FindAllOf(rph: Option<DaoImpl.RequestParameters>): Outcome<CriteriaQuery> {
    if rph.None? then Failure(NullPointer)
    else
      var p := rph.value;
      if DaoImpl.SortActive(p) && OrdersOf(p.sortList.value).Failure? then Failure(OrdersOf(p.sortList.value).error)
      else if DaoImpl.TagFilterActive(p) && !DaoImpl.TagsValid(p.tags.value) then Failure(InvalidTagName)
      else
        var orders := if DaoImpl.SortActive(p) then Some(Somes(OrdersOf(p.sortList.value).value)) else None;
        Success(CriteriaQuery(orders, Restrictions(p), p.Offset(), p.size))
  }

  /**
   * The query is built exactly when the holder is present, every sort token
   * is accepted and no requested tag name is null or empty; it then orders
   * by one attribute per token, in request order, keeps the certificates
   * `Selected` describes and pages at `page * size` in `int` arithmetic.
   */
  lemma FindAllFacts(rph: Option<DaoImpl.RequestParameters>)
    ensures FindAllOf(rph).Success? <==>
      rph.Some? &&
      (DaoImpl.SortActive(rph.value) ==> forall j :: 0 <= j < |rph.value.sortList.value| ==> OrderStep(rph.value.sortList.value[j]).Success?) &&
      (DaoImpl.TagFilterActive(rph.value) ==> DaoImpl.TagsValid(rph.value.tags.value))
    ensures rph.None? ==> FindAllOf(rph) == Failure(NullPointer)
    ensures rph.Some? && FindAllOf(rph).Failure? && FindAllOf(rph).error != InvalidTagName ==>
      exists j :: 0 <= j < |rph.value.sortList.value| && OrderStep(rph.value.sortList.value[j]).Failure?
    ensures FindAllOf(rph).Success? && DaoImpl.SortActive(rph.value) ==>
      var q := FindAllOf(rph).value;
      var sorts := rph.value.sortList.value;
      q.orders.Some? && |q.orders.value| == |sorts| &&
      forall j :: 0 <= j < |sorts| ==> q.orders.value[j] == Some(OrderStep(sorts[j]).value)
    ensures FindAllOf(rph).Success? ==>
      FindAllOf(rph).value.firstResult == AbstractDao.IntMul(rph.value.page, rph.value.size) &&
      FindAllOf(rph).value.maxResults == rph.value.size
  {
    if rph.Some? && DaoImpl.SortActive(rph.value) {
      OrdersOfFacts(rph.value.sortList.value);
    }
  }

  /** The Hibernate repository over the same tables as the JDBC DAO. */
  class GiftCertificateRepositoryImpl {
    const db: Database

    constructor (db: Database)
      ensures this.db == db
    {
      this.db := db;
    }

    /** One turn of `getCriteriaOrders`: vet the token, split it at `.`, and compare the direction both ways. */
    method TokenOrder(sort: Option<string>) returns (r: Outcome<CriteriaOrder>)
      ensures r == OrderStep(sort)
    {
      if sort.None? || !RepositorySortTokenValid(sort.value) {
        return Failure(InvalidSortRequest(Some(StripAnchors(REPOSITORY_SORT_PATTERN))));
      }
      var splitSort := Split(sort.value, '.');
      if |splitSort| < 2 {
        return Failure(IndexOutOfBounds);
      }
      AcceptedSplit(sort.value);
      DirectionCases(splitSort[1]);
      var order: Option<CriteriaOrder> := None;
      if EqualsIgnoreCase(splitSort[1], SORT_DIRECTION_ASC) {
        order := Some(Asc(splitSort[0]));
      }
      if EqualsIgnoreCase(splitSort[1], SORT_DIRECTION_DESC) {
        order := Some(Desc(splitSort[0]));
      }
      r := Success(order.value);
    }

    /** `getCriteriaOrders`: an array with one order per token, filled in input order. */
    method GetCriteriaOrders(sortList: seq<Option<string>>) returns (r: Outcome<seq<Option<CriteriaOrder>>>)
      ensures r.Success? <==> OrdersOf(sortList).Success?
      ensures r.Failure? ==> r.error == OrdersOf(sortList).error
      ensures r.Success? ==> r.value == Somes(OrdersOf(sortList).value)
    {
      ghost var steps := OrderSteps(sortList);
      var orders := new Option<CriteriaOrder>[|sortList|](_ => None);
      var i := 0;
      for k := 0 to |sortList|
        invariant i == k
        invariant Collect(steps[..k]).Success?
        invariant orders[..k] == Somes(Collect(steps[..k]).value)
      {
        var sort := sortList[k];
        var order := TokenOrder(sort);
        CollectStep(steps, k);
        if order.Failure? {
          CollectPrefixFailure(steps, k + 1);
          return Failure(order.error);
        }
        ghost var done := orders[..k];
        SomesAppend(Collect(steps[..k]).value, order.value);
        orders[i] := Some(order.value);
        assert orders[..k] == done;
        i := i + 1;
        assert orders[..k + 1] == orders[..k] + [Some(order.value)];
      }
      assert steps[..|sortList|] == steps;
      r := Success(orders[..]);
    }

    /**
     * `findAll` up to the point where the query runs: sort first, then the
     * tag names, then the search; paging from the holder. A null holder is
     * dereferenced.
     */
    method FindAll(rph: Option<DaoImpl.RequestParameters>) returns (r: Outcome<CriteriaQuery>)
      ensures r == FindAllOf(rph)
    {
      if rph.None? {
        return Failure(NullPointer);
      }
      var p := rph.value;
      var orders: Option<seq<Option<CriteriaOrder>>> := None;
      if p.sortList.Some? && p.sortList.value != [] {
        var o := GetCriteriaOrders(p.sortList.value);
        if o.Failure? {
          return Failure(o.error);
        }
        orders := Some(o.value);
      }
      var predicates: seq<Restriction> := [];
      if p.tags.Some? && p.tags.value != [] {
        var tags := p.tags.value;
        for j := 0 to |tags|
          invariant DaoImpl.TagsValid(tags[..j])
          invariant predicates == TagRestrictions(tags[..j])
        {
          var tagName := tags[j];
          if tagName.None? || tagName.value == "" {
            assert !DaoImpl.ValidTagName(tags[j]);
            return Failure(InvalidTagName);
          }
          assert tags[..j + 1] == tags[..j] + [tagName];
          predicates := predicates + [HasTag(tagName.value)];
        }
        assert tags[..|tags|] == tags;
      }
      assert DaoImpl.TagFilterActive(p) ==> DaoImpl.TagsValid(p.tags.value);
      assert predicates == if DaoImpl.TagFilterActive(p) then TagRestrictions(p.tags.value) else [];
      var searchPattern := SQL_ANY_SYMBOL + p.search.GetOr("null") + SQL_ANY_SYMBOL;
      if p.search.Some? && p.search.value != "" {
        predicates := predicates + [NameOrDescriptionLike(searchPattern)];
      }
      var restrictions := if predicates == [] then None else Some(predicates);
      ghost var tagPart := if DaoImpl.TagFilterActive(p) then TagRestrictions(p.tags.value) else [];
      ghost var searchPart := if DaoImpl.SearchActive(p) then [NameOrDescriptionLike(SQL_ANY_SYMBOL + p.search.value + SQL_ANY_SYMBOL)] else [];
      assert predicates == tagPart + searchPart;
      assert restrictions == Restrictions(p);
      r := Success(CriteriaQuery(orders, restrictions, p.Offset(), p.size));
    }

    // ---- the session operations over the tables ----

    /**
     * One turn of `createOrReferenceTags`: adopt the stored id of the name,
     * or persist the tag under the next id. `persist` refuses a bean whose
     * id is already set, and then nothing changes.
     */
    method ReferenceTag(tag: Tag, name: string) returns (ok: bool)
      requires tag.name == Some(name)
      modifies db, tag
      ensures ok <==> name in old(db.tagIds) || old(tag.id) == 0
      ensures ok ==> db.Contents() == WithTag(old(db.Contents()), name)
      ensures ok ==> tag.name == Some(name) && name in db.tagIds && tag.id == db.tagIds[name]
      ensures !ok ==> db.Contents() == old(db.Contents()) && tag.State() == old(tag.State())
    {
      var dbTag := db.TagIdByName(name);
      if dbTag.Some? {
        tag.id := dbTag.value;
      } else if tag.id != 0 {
        return false;
      } else {
        db.InsertTagIfAbsent(name);
        tag.id := db.tagIds[name];
      }
      ok := true;
    }

    /** One turn of the tag loop past its null checks: the i-th tag is resolved and its id set, or refused. */
    method ReferenceAt(tags: seq<Tag?>, ghost ts: seq<Option<TagState>>, i: nat, ghost t0: Tables) returns (ok: bool)
      requires i < |tags| && tags[i] != null && tags[i].name.Some?
      requires DaoImpl.NamesKept(tags, ts) && forall j :: 0 <= j < i ==> Nameable(ts[j])
      requires db.Contents() == ResolveTags(t0, NamesOf(ts[..i]))
      requires DaoImpl.IdsResolved(tags, i, db.tagIds)
      requires tags[i].id == ts[i].value.id || tags[i].name.value in db.tagIds
      modifies db, tags[i]
      ensures DaoImpl.NamesKept(tags, ts) && forall j :: 0 <= j < i + 1 ==> Nameable(ts[j])
      ensures ok <==> Referable(old(db.tagIds.Keys), ts[i])
      ensures ok ==> db.Contents() == ResolveTags(t0, NamesOf(ts[..i + 1]))
      ensures ok ==> db.tagIds.Keys == old(db.tagIds.Keys) + {ts[i].value.name.value}
      ensures ok ==> DaoImpl.IdsResolved(tags, i + 1, db.tagIds)
      ensures !ok ==> db.Contents() == old(db.Contents()) && DaoImpl.IdsResolved(tags, i, db.tagIds)
    {
      var tag := tags[i];
      var name := tag.name.value;
      ghost var before := db.Contents();
      DaoImpl.NamesOfSnoc(ts, i);
      ghost var names := NamesOf(ts[..i + 1]);
      assert names[..|names| - 1] == NamesOf(ts[..i]) && names[|names| - 1] == name;
      WithTagKeeps(before, name);
      ok := ReferenceTag(tag, name);
      assert DaoImpl.IdsResolved(tags, if ok then i + 1 else i, db.tagIds) by {
        forall j | 0 <= j < (if ok then i + 1 else i) && tags[j] != tag
          ensures tags[j] != null && tags[j].name.Some? && tags[j].name.value in db.tagIds
            && tags[j].id == db.tagIds[tags[j].name.value]
        {
          assert j < i;
        }
      }
    }

    /** A loop turn that also keeps track of which beans still carry their initial ids. */
    method ReferenceNext(tags: seq<Tag?>, ghost ts: seq<Option<TagState>>, i: nat, ghost t0: Tables) returns (ok: bool)
      requires i < |tags| && tags[i] != null && tags[i].name.Some?
      requires DaoImpl.NamesKept(tags, ts) && forall j :: 0 <= j < i ==> Nameable(ts[j])
      requires db.Contents() == ResolveTags(t0, NamesOf(ts[..i]))
      requires DaoImpl.IdsResolved(tags, i, db.tagIds) && IdsUntouched(tags, ts, i, db.tagIds)
      modifies db, tags[i]
      ensures DaoImpl.NamesKept(tags, ts) && forall j :: 0 <= j < i + 1 ==> Nameable(ts[j])
      ensures ok <==> Referable(old(db.tagIds.Keys), ts[i])
      ensures ok ==> db.Contents() == ResolveTags(t0, NamesOf(ts[..i + 1]))
      ensures ok ==> db.tagIds.Keys == old(db.tagIds.Keys) + {ts[i].value.name.value}
      ensures ok ==> DaoImpl.IdsResolved(tags, i + 1, db.tagIds) && IdsUntouched(tags, ts, i + 1, db.tagIds)
      ensures !ok ==> db.Contents() == old(db.Contents()) && DaoImpl.IdsResolved(tags, i, db.tagIds)
    {
      var tag := tags[i];
      ghost var before := db.tagIds.Keys;
      ok := ReferenceAt(tags, ts, i, t0);
      if ok {
        assert IdsUntouched(tags, ts, i + 1, db.tagIds) by {
          forall j | i + 1 <= j < |tags| && tags[j] != null && ts[j].Some? && tags[j].id != ts[j].value.id
            ensures tags[j].name.Some? && tags[j].name.value in db.tagIds
          {
            if tags[j] != tag {
              assert tags[j].name.value in before;
            }
          }
        }
      }
    }

    /**
     * `createOrReferenceTags`: for each tag in the set's order, look its
     * name up and either adopt the stored id or persist it as a new tag. A
     * null tag is dereferenced; a new tag whose id is set is refused by
     * `persist`; a fresh tag with a null name is looked up in vain and then
     * refused by the schema.
     */
    method CreateOrReferenceTags(certificate: GiftCertificate) returns (r: Outcome<()>)
      requires certificate.tags.Some?
      modifies db, certificate.TagObjects()
      ensures
        var ts := old(StatesOf(certificate.tags.value));
        var k := OrmPrefix(old(db.tagIds.Keys), ts);
        && db.Contents() == ResolveTags(old(db.Contents()), NamesOf(ts[..k]))
        && (r.Success? <==> k == |ts|)
        && (r.Failure? ==> r.error == OrmTagError(ts[k]))
        && DaoImpl.NamesKept(certificate.tags.value, ts)
        && DaoImpl.IdsResolved(certificate.tags.value, k, db.tagIds)
    {
      r := ResolveEach(certificate.tags.value, StatesOf(certificate.tags.value), db.Contents());
    }

    /** The loop of `createOrReferenceTags` over the set's tags, whose values were `ts` in tables `t0`. */
    method ResolveEach(tags: seq<Tag?>, ghost ts: seq<Option<TagState>>, ghost t0: Tables) returns (r: Outcome<()>)
      requires ts == StatesOf(tags) && db.Contents() == t0
      modifies db, set t: Tag | t in tags
      ensures
        var k := OrmPrefix(t0.tagIds.Keys, ts);
        && db.Contents() == ResolveTags(t0, NamesOf(ts[..k]))
        && (r.Success? <==> k == |ts|)
        && (r.Failure? ==> r.error == OrmTagError(ts[k]))
        && DaoImpl.NamesKept(tags, ts)
        && DaoImpl.IdsResolved(tags, k, db.tagIds)
    {
      ghost var k := OrmPrefix(t0.tagIds.Keys, ts);
      var i := 0;
      while i < |tags| && tags[i] != null && tags[i].name.Some?
        invariant 0 <= i <= |tags| && |ts| == |tags|
        invariant forall j :: 0 <= j < i ==> Nameable(ts[j])
        invariant DaoImpl.NamesKept(tags, ts)
        invariant db.Contents() == ResolveTags(t0, NamesOf(ts[..i]))
        invariant DaoImpl.IdsResolved(tags, i, db.tagIds) && IdsUntouched(tags, ts, i, db.tagIds)
        invariant k == OrmPrefixFrom(db.tagIds.Keys, ts, i)
      {
        var ok := ReferenceNext(tags, ts, i, t0);
        if !ok {
          assert k == i;
          return Failure(DetachedEntity);
        }
        i := i + 1;
      }
      assert i < |tags| && tags[i] != null ==> !Nameable(ts[i]) && tags[i].id == ts[i].value.id;
      assert k == i;
      if i < |tags| {
        // `getName()` on a null tag throws; otherwise the bean's name is null
        r := Failure(if tags[i] == null then NullPointer else if tags[i].id != 0 then DetachedEntity else StorageFailure);
      } else {
        assert ts[..i] == ts;
        r := Success(());
      }
    }

    /**
     * `create`: resolve the tags when the set is non-null, then persist the
     * certificate, which takes the next id and writes one join row per tag.
     * A certificate whose id is already set is refused by `persist`. A
     * failure leaves the transaction uncommitted.
     */
    method Create(certificate: GiftCertificate) returns (r: Outcome<GiftCertificate>)
      requires db.Valid()
      modifies db, certificate, certificate.TagObjects()
      ensures db.Valid()
      ensures r.Success? <==> OrmLinkable(old(db.tagIds.Keys), old(certificate.TagStates())) && old(certificate.id) == 0
      ensures r.Success? ==> r.value == certificate && certificate.id == old(db.nextCertId)
      ensures r.Success? ==>
        db.Contents() == OrmCreated(old(db.Contents()), old(certificate.Record()), OrmNames(old(certificate.TagStates())))
      ensures r.Failure? ==> db.Contents() == old(db.Contents()) && certificate.id == old(certificate.id)
      ensures r.Failure? ==>
        r.error == (if OrmLinkable(old(db.tagIds.Keys), old(certificate.TagStates())) then DetachedEntity
                    else OrmLinkError(old(db.tagIds.Keys), old(certificate.TagStates())))
      ensures certificate.Record() == old(certificate.Record()) && certificate.tags == old(certificate.tags)
      ensures r.Success? && certificate.tags.Some? ==>
        DaoImpl.NamesKept(certificate.tags.value, old(StatesOf(certificate.tags.value))) &&
        DaoImpl.IdsResolved(certificate.tags.value, |certificate.tags.value|, db.tagIds)
      ensures r.Failure? && certificate.tags.Some? ==>
        var ts := old(StatesOf(certificate.tags.value));
        var k := OrmPrefix(old(db.tagIds.Keys), ts);
        DaoImpl.NamesKept(certificate.tags.value, ts) &&
        DaoImpl.IdsResolved(certificate.tags.value, k, ResolveTags(old(db.Contents()), NamesOf(ts[..k])).tagIds)
    {
      var saved := db.Contents();
      ghost var ts := certificate.TagStates();
      if certificate.tags.Some? {
        var resolved := CreateOrReferenceTags(certificate);
        if resolved.Failure? {
          db.Rollback(saved);
          return Failure(resolved.error);
        }
        assert ts.value[..|ts.value|] == ts.value;
      }
      ghost var names := OrmNames(ts);
      assert db.Contents() == ResolveTags(saved, names);
      ghost var rec := certificate.Record();
      var persisted := Persist(certificate, ts);
      if persisted.Failure? {
        db.Rollback(saved);
        return Failure(persisted.error);
      }
      ResolveTagsKeepsRows(saved, names);
      CreatesAgree(saved, rec, names);
      r := Success(certificate);
    }

    /**
     * `session.persist`: a bean whose id is already set is detached and
     * refused; otherwise the row takes the next id, and the cascade writes
     * the join rows of the resolved set.
     */
    method Persist(certificate: GiftCertificate, ghost ts: Option<seq<Option<TagState>>>) returns (r: Outcome<()>)
      requires OrmNameable(ts) && (ts.None? <==> certificate.tags.None?)
      requires certificate.tags.Some? ==>
        DaoImpl.NamesKept(certificate.tags.value, ts.value) &&
        DaoImpl.IdsResolved(certificate.tags.value, |certificate.tags.value|, db.tagIds)
      modifies db, certificate
      ensures r.Success? <==> old(certificate.id) == 0
      ensures r.Failure? ==> r.error == DetachedEntity && db.Contents() == old(db.Contents()) && certificate.id == old(certificate.id)
      ensures r.Success? ==>
        var p := Inserted(old(db.Contents()), old(certificate.Record()));
        db.Contents() == p.(links := p.links + LinksFor(p, old(db.nextCertId), OrmNames(ts)))
      ensures r.Success? ==> certificate.id == old(db.nextCertId)
      ensures certificate.Record() == old(certificate.Record()) && certificate.tags == old(certificate.tags)
      ensures certificate.tags.Some? ==>
        DaoImpl.NamesKept(certificate.tags.value, ts.value) &&
        DaoImpl.IdsResolved(certificate.tags.value, |certificate.tags.value|, db.tagIds)
    {
      if certificate.id != 0 {
        return Failure(DetachedEntity);
      }
      var rec := certificate.Record();
      var id := db.InsertCertificate(rec);
      certificate.id := id;
      if certificate.tags.Some? {
        WriteJoinRows(certificate.tags.value, ts.value, id);
      } else {
        assert LinksFor(db.Contents(), id, OrmNames(ts)) == {};
        assert db.Contents() == db.Contents().(links := db.links + {});
      }
      r := Success(());
    }

    /** The cascade at flush: one join row from the certificate to each resolved tag of its set. */
    method WriteJoinRows(tags: seq<Tag?>, ghost ts: seq<Option<TagState>>, id: int)
      requires forall j :: 0 <= j < |ts| ==> Nameable(ts[j])
      requires DaoImpl.NamesKept(tags, ts) && DaoImpl.IdsResolved(tags, |tags|, db.tagIds)
      modifies db
      ensures db.Contents() == old(db.Contents()).(links := old(db.links) + LinksFor(old(db.Contents()), id, NamesOf(ts)))
    {
      var pairs := set t | t in tags && t != null :: (id, t.id);
      PairsAreLinks(tags, ts, db.Contents(), id);
      db.InsertLinks(pairs);
    }

    /** `findById`: the entity, or `DaoWrongIdException` for a missing id. */
    method FindById(id: int) returns (r: Outcome<CertificateState>)
      ensures r.Success? <==> id in db.certificates
      ensures r.Failure? ==> r.error == WrongId(id, RESOURCE_NAME)
      ensures r.Success? ==> r.value == CertificateOf(id, db.certificates[id])
    {
      if !db.Exists(id) {
        return Failure(WrongId(id, RESOURCE_NAME));
      }
      r := Success(CertificateOf(id, db.certificates[id]));
    }

    /**
     * `update`: load the entity (a missing id throws), copy onto it each
     * filled field, and, when a tag set is given, resolve it and make it the
     * entity's whole set.
     */
    method Update(certificate: GiftCertificate) returns (r: Outcome<CertificateState>)
      requires db.Valid()
      modifies db, certificate.TagObjects()
      ensures db.Valid()
      ensures r.Success? <==> certificate.id in old(db.certificates) && OrmLinkable(old(db.tagIds.Keys), old(certificate.TagStates()))
      ensures r.Failure? ==> db.Contents() == old(db.Contents())
      ensures r.Failure? && certificate.id !in old(db.certificates) ==> r.error == WrongId(certificate.id, RESOURCE_NAME)
      ensures r.Failure? && certificate.id in old(db.certificates) ==>
        r.error == OrmLinkError(old(db.tagIds.Keys), old(certificate.TagStates()))
      ensures r.Success? ==>
        db.Contents() == OrmUpdated(old(db.Contents()), certificate.id, old(certificate.Record()), OrmTagNames(old(certificate.TagStates())))
      ensures r.Success? ==>
        r.value == CertificateOf(certificate.id, OrmMerge(old(certificate.Record()), old(db.certificates[certificate.id])))
                     .(tags := certificate.TagStates())
      ensures r.Success? && certificate.tags.Some? ==>
        DaoImpl.NamesKept(certificate.tags.value, old(StatesOf(certificate.tags.value))) &&
        DaoImpl.IdsResolved(certificate.tags.value, |certificate.tags.value|, db.tagIds)
    {
      if !db.Exists(certificate.id) {
        return Failure(WrongId(certificate.id, RESOURCE_NAME));
      }
      var saved := db.Contents();
      ghost var ts := certificate.TagStates();
      var id := certificate.id;
      var given := certificate.Record();
      db.WriteRecord(id, OrmMerge(given, db.certificates[id]));
      if certificate.tags.Some? {
        var replaced := ReplaceTags(certificate);
        if replaced.Failure? {
          db.Rollback(saved);
          return Failure(replaced.error);
        }
      }
      assert db.Contents() == OrmUpdated(saved, id, given, OrmTagNames(ts));
      OrmUpdatedFacts(saved, id, given, OrmTagNames(ts));
      r := Success(CertificateOf(id, db.certificates[id]).(tags := certificate.TagStates()));
    }

    /** `update`'s tag half: resolve the given set, then make it the certificate's whole set of join rows. */
    method ReplaceTags(certificate: GiftCertificate) returns (r: Outcome<()>)
      requires certificate.tags.Some?
      modifies db, certificate.TagObjects()
      ensures r.Success? <==> OrmLinkable(old(db.tagIds.Keys), old(certificate.TagStates()))
      ensures r.Failure? ==> r.error == OrmLinkError(old(db.tagIds.Keys), old(certificate.TagStates()))
      ensures r.Success? ==>
        var names := DaoImpl.LinkedNames(old(certificate.TagStates()));
        var q := ResolveTags(WithoutLinks(old(db.Contents()), certificate.id), names);
        db.Contents() == q.(links := q.links + LinksFor(q, certificate.id, names))
      ensures r.Success? ==>
        DaoImpl.NamesKept(certificate.tags.value, old(StatesOf(certificate.tags.value))) &&
        DaoImpl.IdsResolved(certificate.tags.value, |certificate.tags.value|, db.tagIds)
    {
      ghost var ts := certificate.TagStates();
      ghost var written := db.Contents();
      var id := certificate.id;
      var resolved := CreateOrReferenceTags(certificate);
      if resolved.Failure? {
        return Failure(resolved.error);
      }
      assert ts.value[..|ts.value|] == ts.value;
      ghost var names := DaoImpl.LinkedNames(ts);
      assert db.Contents() == ResolveTags(written, names);
      db.DeleteLinks(id);
      ResolveTagsWithoutLinks(written, id, names);
      WriteJoinRows(certificate.tags.value, ts.value, id);
      r := Success(());
    }

    /** `updateDuration`: a missing id throws; otherwise only the duration and the last-update date change. */
    method UpdateDuration(id: int, duration: Int32, ldt: Option<Date>) returns (r: Outcome<CertificateState>)
      requires db.Valid()
      modifies db
      ensures db.Valid()
      ensures r.Success? <==> id in old(db.certificates)
      ensures r.Failure? ==> r.error == WrongId(id, RESOURCE_NAME) && db.Contents() == old(db.Contents())
      ensures r.Success? ==> db.Contents() == DurationUpdated(old(db.Contents()), id, duration, ldt)
      ensures r.Success? ==> r.value == CertificateOf(id, old(db.certificates[id]).(duration := Some(duration), lastUpdateDate := ldt))
    {
      if !db.Exists(id) {
        return Failure(WrongId(id, RESOURCE_NAME));
      }
      ghost var saved := db.Contents();
      db.WriteRecord(id, db.certificates[id].(duration := Some(duration), lastUpdateDate := ldt));
      DurationUpdatedFacts(saved, id, duration, ldt);
      r := Success(CertificateOf(id, db.certificates[id]));
    }

    /** `delete`: removing the `null` a missing id loads throws, which becomes a wrong-id error. */
    method Delete(id: int) returns (r: Outcome<()>)
      requires db.Valid()
      modifies db
      ensures db.Valid()
      ensures r.Success? <==> id in old(db.certificates)
      ensures r.Failure? ==> r.error == WrongId(id, RESOURCE_NAME) && db.Contents() == old(db.Contents())
      ensures r.Success? ==> db.Contents() == WithoutCertificate(old(db.Contents()), id)
    {
      if !db.Exists(id) {
        return Failure(WrongId(id, RESOURCE_NAME));
      }
      WithoutCertificateFacts(db.Contents(), id);
      db.DeleteCertificate(id);
      r := Success(());
    }
  }

  // ---- how far `createOrReferenceTags` gets ----

  /**
   * Whether `createOrReferenceTags` gets past tag `t` while the names in
   * `known` are stored. The tag and its name must be non-null. Then either
   * the name is stored and the bean takes its id, or the name is new and
   * `persist` accepts the bean only while its IDENTITY id is still the
   * unsaved value 0.
   */
  predicate Referable(known: set<string>, t: Option<TagState>) {
    Nameable(t) && (t.value.name.value in known || t.value.id == 0)
  }

  /**
   * How many tags, from the i-th on, the loop resolves before it throws,
   * given the names stored when it reaches the i-th: each tag it gets past
   * leaves its name stored.
   */
  function OrmPrefixFrom(known: set<string>, ts: seq<Option<TagState>>, i: nat): (k: nat)
    requires i <= |ts|
    ensures i <= k <= |ts| && forall j :: i <= j < k ==> Nameable(ts[j])
    ensures k < |ts| && ts[k].Some? && ts[k].value.id == 0 ==> !Nameable(ts[k])
    ensures k < |ts| && Nameable(ts[k]) ==> ts[k].value.id != 0 && ts[k].value.name.value !in known
    decreases |ts| - i
  {
    if i == |ts| || !Referable(known, ts[i]) then i
    else OrmPrefixFrom(known + {ts[i].value.name.value}, ts, i + 1)
  }

  /** How many tags, from the front, the loop resolves when the names in `stored` are stored before it. */
  function OrmPrefix(stored: set<string>, ts: seq<Option<TagState>>): (k: nat)
    ensures k <= GoodPrefix(ts) && forall j :: 0 <= j < k ==> Nameable(ts[j])
    ensures k < |ts| && ts[k].Some? && ts[k].value.id == 0 ==> !Nameable(ts[k])
    ensures k < |ts| && Nameable(ts[k]) ==> ts[k].value.id != 0 && ts[k].value.name.value !in stored
  {
    var k := OrmPrefixFrom(stored, ts, 0);
    GoodPrefixReaches(ts, k);
    k
  }

  /** The JDBC loop's reach covers every prefix of named tags. */
  lemma {:induction false} GoodPrefixReaches(ts: seq<Option<TagState>>, i: nat)
    requires i <= |ts| && forall j :: 0 <= j < i ==> Nameable(ts[j])
    ensures i <= GoodPrefix(ts)
    decreases i
  {
    if 0 < i {
      assert Nameable(ts[0]);
      assert forall j :: 0 <= j < i - 1 ==> ts[1..][j] == ts[j + 1];
      GoodPrefixReaches(ts[1..], i - 1);
    }
  }

  /**
   * Beans whose ids are unset, or whose names are all stored, get exactly as
   * far as the JDBC loop: only a null tag or a null name stops them.
   */
  lemma OrmPrefixIsGoodPrefix(stored: set<string>, ts: seq<Option<TagState>>)
    requires forall j :: 0 <= j < GoodPrefix(ts) ==> ts[j].value.id == 0 || ts[j].value.name.value in stored
    ensures OrmPrefix(stored, ts) == GoodPrefix(ts)
  {
    OrmPrefixFromGood(stored, stored, ts, 0);
  }

  lemma {:induction false} OrmPrefixFromGood(stored: set<string>, known: set<string>, ts: seq<Option<TagState>>, i: nat)
    requires i <= GoodPrefix(ts) && stored <= known
    requires forall j :: i <= j < GoodPrefix(ts) ==> ts[j].value.id == 0 || ts[j].value.name.value in stored
    ensures OrmPrefixFrom(known, ts, i) == GoodPrefix(ts)
    decreases |ts| - i
  {
    if i < GoodPrefix(ts) {
      assert Referable(known, ts[i]);
      OrmPrefixFromGood(stored, known + {ts[i].value.name.value}, ts, i + 1);
    }
  }

  /**
   * A bean from `i` on has lost its initial id only by being resolved as an
   * earlier tag of the set, so its name is stored.
   */
  predicate IdsUntouched(tags: seq<Tag?>, ts: seq<Option<TagState>>, i: nat, tagIds: map<string, int>)
    reads set t: Tag | t in tags
    requires |ts| == |tags|
  {
    forall j :: i <= j < |tags| && tags[j] != null && ts[j].Some? && tags[j].id != ts[j].value.id ==>
      tags[j].name.Some? && tags[j].name.value in tagIds
  }

  /** The repository resolves tags only when the set is non-null; a null set is no tags. */
  predicate OrmNameable(ts: Option<seq<Option<TagState>>>) {
    ts.None? || DaoImpl.Linkable(ts)
  }

  /** The tag loop, when it runs, gets through the whole set. */
  predicate OrmLinkable(stored: set<string>, ts: Option<seq<Option<TagState>>>) {
    ts.None? || OrmPrefix(stored, ts.value) == |ts.value|
  }

  /**
   * What the loop throws at the tag it stops on: dereferencing a null tag;
   * `persist` refusing a bean whose id is set; or, for a fresh bean, the
   * database refusing its null name.
   */
  function OrmTagError(t: Option<TagState>): Error {
    if t.None? then NullPointer else if t.value.id != 0 then DetachedEntity else StorageFailure
  }

  function OrmLinkError(stored: set<string>, ts: Option<seq<Option<TagState>>>): Error
    requires !OrmLinkable(stored, ts)
  {
    OrmTagError(ts.value[OrmPrefix(stored, ts.value)])
  }

  /** Once every tag of the set has a name, the loop can only fail on a new name whose bean has a preset id. */
  lemma NamedTagsFailDetached(stored: set<string>, ts: Option<seq<Option<TagState>>>)
    requires DaoImpl.Linkable(ts) && !OrmLinkable(stored, ts)
    ensures OrmLinkError(stored, ts) == DetachedEntity
    ensures var k := OrmPrefix(stored, ts.value);
      ts.value[k].value.id != 0 && ts.value[k].value.name.value !in stored
  {
    var k := OrmPrefix(stored, ts.value);
    assert Nameable(ts.value[k]);
  }

  /**
   * A new name on a bean with id 3 is refused at once; the same bean passes
   * when the name is stored, or when an earlier fresh bean of the set
   * persisted it.
   */
  lemma PresetIdRefused()
    ensures OrmPrefix({}, [Some(TagState(3, Some("fresh")))]) == 0
    ensures OrmPrefix({"fresh"}, [Some(TagState(3, Some("fresh")))]) == 1
    ensures OrmPrefix({}, [Some(TagState(0, Some("fresh"))), Some(TagState(3, Some("fresh")))]) == 2
  {
    assert !Referable({}, Some(TagState(3, Some("fresh"))));
    assert Referable({"fresh"}, Some(TagState(3, Some("fresh"))));
  }

  function OrmNames(ts: Option<seq<Option<TagState>>>): seq<string>
    requires OrmNameable(ts)
  {
    if ts.None? then [] else DaoImpl.LinkedNames(ts)
  }

  function OrmTagNames(ts: Option<seq<Option<TagState>>>): Option<seq<string>>
    requires OrmNameable(ts)
  {
    if ts.None? then None else Some(DaoImpl.LinkedNames(ts))
  }

  /** The join rows written for resolved tags are the store's associations of their names. */
  lemma PairsAreLinks(tags: seq<Tag?>, ts: seq<Option<TagState>>, p: Tables, id: int)
    requires forall j :: 0 <= j < |ts| ==> Nameable(ts[j])
    requires DaoImpl.NamesKept(tags, ts)
    requires DaoImpl.IdsResolved(tags, |tags|, p.tagIds)
    ensures (set t | t in tags && t != null :: (id, t.id)) == LinksFor(p, id, NamesOf(ts))
  {
    var names := NamesOf(ts);
    var lhs := set t | t in tags && t != null :: (id, t.id);
    forall l | l in lhs ensures l in LinksFor(p, id, names) {
      var t :| t in tags && t != null && l == (id, t.id);
      var j :| 0 <= j < |tags| && tags[j] == t;
      assert names[j] in names;
    }
    forall l | l in LinksFor(p, id, names) ensures l in lhs {
      var n :| n in names && n in p.tagIds && l == (id, p.tagIds[n]);
      var j :| 0 <= j < |names| && names[j] == n;
      assert tags[j] in tags;
    }
  }
}
