/**
 * `GiftCertificateDaoImpl`, the JDBC DAO: it assembles the search statement
 * from the request parameters (a tag filter, a search term, allow-listed
 * sort tokens and paging) and runs the statement sequences of create,
 * update, updateDuration and delete against the store.
 */
module DaoImpl {
  import opened Wrappers
  import opened Entities
  import opened JavaStrings
  import opened SortPatterns
  import opened Store
  import AbstractDao

  // ---- statement text, in the pieces the source concatenates ----

  const FIND_ALL_QUERY: string := "SELECT gc.id, gc.name " + "FROM gift_certificate gc "
  const TAGS_QUERY_FIRST_PART: string :=
    "gc.id IN (SELECT " + "gct.gift_certificate_id " + "FROM gift_certificate_tag gct "
    + "LEFT JOIN tag t " + "ON t.id = gct.tag_id " + "WHERE t.name IN "
  const TAGS_QUERY_LAST_PART: string := "GROUP BY gct.gift_certificate_id " + "HAVING COUNT(*) = " + "?" + ") "
  const SEARCH_QUERY: string := "(CONCAT(gc.name, ' ', " + "gc.description) LIKE " + "?" + ") "
  const WHERE_PREFIX: string := "WHERE "
  const AND_DELIMITER: string := "AND "
  const ORDER_BY_QUERY: string := "ORDER BY "
  const LIMIT_OFFSET: string := "LIMIT " + "?" + " OFFSET " + "?"
  const COMMA_SPACE_DELIMITER: string := ", "
  const QUESTION_MARK: string := "?"
  const TABLE_PREFIX: string := "gc."

  /** The message an invalid sort token carries: the pattern without `^(` and `){1}$`. */
  const SORT_MESSAGE: string := "(name|create_date|last_update_date).(asc|desc)"

  /** The parameters `findAll` reads from its holder. */
  datatype RequestParameters = RequestParameters(
    tags: Option<seq<Option<string>>>,
    search: Option<string>,
    sortList: Option<seq<Option<string>>>,
    page: Int32,
    size: Int32)
  {
    /** `getOffset()`: `page * size` in Java `int` arithmetic. */
    function Offset(): Int32 {
      AbstractDao.IntMul(page, size)
    }
  }

  // ---- the specification of the statement findAll assembles ----

  predicate ValidTagName(name: Option<string>) {
    name.Some? && name.value != ""
  }

  predicate TagFilterActive(p: RequestParameters) {
    p.tags.Some? && p.tags.value != []
  }

  predicate SearchActive(p: RequestParameters) {
    p.search.Some? && p.search.value != ""
  }

  predicate SortActive(p: RequestParameters) {
    p.sortList.Some? && p.sortList.value != []
  }

  predicate TagsValid(tags: seq<Option<string>>) {
    forall i :: 0 <= i < |tags| ==> ValidTagName(tags[i])
  }

  predicate SortsValid(sorts: seq<Option<string>>) {
    forall i :: 0 <= i < |sorts| ==> sorts[i].Some? && DaoSortTokenValid(sorts[i].value)
  }

  /** The tag filter throws when a name is bad, and the sort clause when a token is. */
  predicate Servable(p: RequestParameters) {
    && (TagFilterActive(p) ==> TagsValid(p.tags.value))
    && (SortActive(p) ==> SortsValid(p.sortList.value))
  }

  /** `gc.id IN (SELECT … WHERE t.name IN (?, …, ?) GROUP BY … HAVING COUNT(*) = ?) `. */
  function TagsFragment(n: nat): string {
    TAGS_QUERY_FIRST_PART + Joined("(", COMMA_SPACE_DELIMITER, ") ", Repeat(QUESTION_MARK, n)) + TAGS_QUERY_LAST_PART
  }

  function TagNameArgs(tags: seq<Option<string>>): (r: seq<SqlArg>)
    requires TagsValid(tags)
    ensures |r| == |tags| && forall i :: 0 <= i < |tags| ==> r[i] == TextArg(tags[i].value)
  {
    seq(|tags|, i requires 0 <= i < |tags| && ValidTagName(tags[i]) => TextArg(tags[i].value))
  }

  /** `argsList.add(SQL_ANY_SYMBOL + search + SQL_ANY_SYMBOL)`. */
  function SearchArg(search: string): SqlArg {
    TextArg("%" + search + "%")
  }

  /** One ORDER BY item: the table alias, then the token with its first `.` turned into a space. */
  function OrderItem(sort: string): string {
    TABLE_PREFIX + ReplaceFirst(sort, '.', ' ')
  }

  function OrderItems(sorts: seq<Option<string>>): (r: seq<string>)
    requires forall i :: 0 <= i < |sorts| ==> sorts[i].Some?
    ensures |r| == |sorts| && forall i :: 0 <= i < |sorts| ==> r[i] == OrderItem(sorts[i].value)
  {
    seq(|sorts|, i requires 0 <= i < |sorts| && sorts[i].Some? => OrderItem(sorts[i].value))
  }

  /** The ORDER BY clause: empty for no tokens, else `ORDER BY a, b ` (a trailing space). */
  function OrderByClause(sorts: seq<Option<string>>): string
    requires forall i :: 0 <= i < |sorts| ==> sorts[i].Some?
  {
    if sorts == [] then "" else Joined(ORDER_BY_QUERY, COMMA_SPACE_DELIMITER, " ", OrderItems(sorts))
  }

  /** The WHERE fragments, in the order findAll adds them. */
  function Fragments(p: RequestParameters): seq<string> {
    (if TagFilterActive(p) then [TagsFragment(|p.tags.value|)] else [])
    + (if SearchActive(p) then [SEARCH_QUERY] else [])
  }

  /** `new StringJoiner("AND ", "WHERE ", " ")` with the empty value `""`. */
  function WhereClause(fragments: seq<string>): string {
    if fragments == [] then "" else Joined(WHERE_PREFIX, AND_DELIMITER, " ", fragments)
  }

  function FilterArgs(p: RequestParameters): seq<SqlArg>
    requires Servable(p)
  {
    (if TagFilterActive(p) then TagNameArgs(p.tags.value) + [IntArg(|p.tags.value|)] else [])
    + (if SearchActive(p) then [SearchArg(p.search.value)] else [])
  }

  function SortTokens(p: RequestParameters): seq<Option<string>> {
    if SortActive(p) then p.sortList.value else []
  }

  /** The statement and arguments findAll hands to `jdbcTemplate.query`. */
  function SearchStatement(p: RequestParameters): SqlQuery
    requires Servable(p)
  {
    SqlQuery(
      FIND_ALL_QUERY + WhereClause(Fragments(p)) + OrderByClause(SortTokens(p)) + LIMIT_OFFSET,
      FilterArgs(p) + [IntArg(p.size), IntArg(p.Offset())])
  }

  /** The error findAll throws for unservable parameters: a tag-name error wins over a sort error. */
  function SearchError(p: RequestParameters): Error {
    if TagFilterActive(p) && !TagsValid(p.tags.value) then InvalidTagName
    else InvalidSortRequest(Some(SORT_MESSAGE))
  }

  // ---- placeholders of the assembled statement ----

  predicate QuestionSeparated(sort: Option<string>) {
    sort.Some? && DaoSortTokenValid(sort.value) && SeparatorOf(sort.value) == '?'
  }

  /** The character between a valid token's field and its direction. */
  function SeparatorOf(sort: string): char
    requires DaoSortTokenValid(sort)
  {
    var f :| f in DAO_SORT_FIELDS && FieldSepDirection(sort, f);
    sort[|f|]
  }

  /** How many sort tokens use `?` as their separator. */
  function QuestionSeparators(sorts: seq<Option<string>>): nat
    decreases |sorts|
  {
    if sorts == [] then 0
    else QuestionSeparators(sorts[..|sorts| - 1]) + (if QuestionSeparated(sorts[|sorts| - 1]) then 1 else 0)
  }

  lemma FieldsHaveNoMarks(f: string)
    requires f in DAO_SORT_FIELDS
    ensures '?' !in f && '.' !in f
  {
  }

  lemma DirectionsHaveNoMarks(d: string)
    requires IsDirection(d)
    ensures '?' !in d && '.' !in d && Placeholders(d) == 0
  {
    NoPlaceholders(d);
  }

  /**
   * The text an accepted token puts into ORDER BY is an allow-listed column,
   * one character (a space where the token had its `.`), and a direction.
   */
  lemma OrderItemShape(sort: string, f: string)
    requires f in DAO_SORT_FIELDS && FieldSepDirection(sort, f)
    ensures var c := sort[|f|]; var d := sort[|f| + 1..];
      OrderItem(sort) == TABLE_PREFIX + f + [if c == '.' then ' ' else c] + d
  {
    var c, d := sort[|f|], sort[|f| + 1..];
    var e := if c == '.' then ' ' else c;
    assert sort == f + ([c] + d);
    FieldsHaveNoMarks(f);
    DirectionsHaveNoMarks(d);
    ReplaceFirstAfter(f, [c] + d, '.', ' ');
    ReplaceAtSeparator(c, d);
    assert TABLE_PREFIX + (f + ([e] + d)) == TABLE_PREFIX + f + [e] + d;
  }

  /** The separator is the first character of the token's tail, and the direction after it has no `.`. */
  lemma ReplaceAtSeparator(c: char, d: string)
    requires '.' !in d
    ensures ReplaceFirst([c] + d, '.', ' ') == [if c == '.' then ' ' else c] + d
  {
    assert ([c] + d)[1..] == d;
    if c != '.' {
      ReplaceFirstAbsent(d, '.', ' ');
    }
  }

  /** An accepted token adds a placeholder to ORDER BY exactly when its separator is `?`. */
  lemma OrderItemPlaceholders(sort: string)
    requires DaoSortTokenValid(sort)
    ensures Placeholders(OrderItem(sort)) == if SeparatorOf(sort) == '?' then 1 else 0
  {
    var f :| f in DAO_SORT_FIELDS && FieldSepDirection(sort, f);
    var g :| g in DAO_SORT_FIELDS && FieldSepDirection(sort, g) && SeparatorOf(sort) == sort[|g|];
    FieldDetermined(sort, f, g);
    OrderItemShape(sort, f);
    var c, d := sort[|f|], sort[|f| + 1..];
    var e := if c == '.' then ' ' else c;
    FieldsHaveNoMarks(f);
    DirectionsHaveNoMarks(d);
    NoPlaceholders(TABLE_PREFIX);
    NoPlaceholders(f);
    PlaceholdersAppend(TABLE_PREFIX, f);
    PlaceholdersAppend(TABLE_PREFIX + f, [e]);
    PlaceholdersAppend(TABLE_PREFIX + f + [e], d);
    assert [e][..0] == [];
  }

  lemma {:induction false} OrderItemsPlaceholders(sorts: seq<Option<string>>)
    requires SortsValid(sorts)
    ensures SumPlaceholders(OrderItems(sorts)) == QuestionSeparators(sorts)
    decreases |sorts|
  {
    if sorts != [] {
      var init := sorts[..|sorts| - 1];
      assert OrderItems(sorts)[..|sorts| - 1] == OrderItems(init);
      OrderItemsPlaceholders(init);
      OrderItemPlaceholders(sorts[|sorts| - 1].value);
    }
  }

  lemma SelectPlaceholders()
    ensures Placeholders(FIND_ALL_QUERY) == 0
  {
    var a, b := "SELECT gc.id, gc.name ", "FROM gift_certificate gc ";
    NoPlaceholders(a); NoPlaceholders(b); PlaceholdersAppend(a, b);
  }

  /** The opening of the tag sub-select binds nothing. */
  lemma TagsSelectPlaceholders()
    ensures Placeholders("gc.id IN (SELECT " + "gct.gift_certificate_id ") == 0
  {
    NoPlaceholders("gc.id IN (SELECT ");
    CleanAppend("gc.id IN (SELECT ", "gct.gift_certificate_id ");
  }

  /** Nor do its tables. */
  lemma TagsJoinPlaceholders()
    ensures Placeholders("gc.id IN (SELECT " + "gct.gift_certificate_id " + "FROM gift_certificate_tag gct " + "LEFT JOIN tag t ") == 0
  {
    TagsSelectPlaceholders();
    CleanAppend("gc.id IN (SELECT " + "gct.gift_certificate_id ", "FROM gift_certificate_tag gct ");
    CleanAppend("gc.id IN (SELECT " + "gct.gift_certificate_id " + "FROM gift_certificate_tag gct ", "LEFT JOIN tag t ");
  }

  /** The tag sub-select up to its list of names binds nothing. */
  lemma TagsFirstPlaceholders()
    ensures Placeholders(TAGS_QUERY_FIRST_PART) == 0
  {
    TagsJoinPlaceholders();
    CleanAppend("gc.id IN (SELECT " + "gct.gift_certificate_id " + "FROM gift_certificate_tag gct " + "LEFT JOIN tag t ", "ON t.id = gct.tag_id ");
    CleanAppend("gc.id IN (SELECT " + "gct.gift_certificate_id " + "FROM gift_certificate_tag gct " + "LEFT JOIN tag t " + "ON t.id = gct.tag_id ", "WHERE t.name IN ");
  }

  lemma TagsLastPlaceholders()
    ensures Placeholders(TAGS_QUERY_LAST_PART) == 1
  {
    var l1, l2, l3 := "GROUP BY gct.gift_certificate_id ", "HAVING COUNT(*) = ", ") ";
    OnePlaceholder();
    NoPlaceholders(l1); NoPlaceholders(l2); NoPlaceholders(l3);
    PlaceholdersAppend(l1, l2);
    PlaceholdersAppend(l1 + l2, "?");
    PlaceholdersAppend(l1 + l2 + "?", l3);
  }

  lemma SearchPlaceholders()
    ensures Placeholders(SEARCH_QUERY) == 1
  {
    var s1, s2, s3 := "(CONCAT(gc.name, ' ', ", "gc.description) LIKE ", ") ";
    OnePlaceholder();
    NoPlaceholders(s1); NoPlaceholders(s2); NoPlaceholders(s3);
    PlaceholdersAppend(s1, s2);
    PlaceholdersAppend(s1 + s2, "?");
    PlaceholdersAppend(s1 + s2 + "?", s3);
  }

  lemma LimitOffsetPlaceholders()
    ensures Placeholders(LIMIT_OFFSET) == 2
  {
    var o1, o2 := "LIMIT ", " OFFSET ";
    OnePlaceholder();
    NoPlaceholders(o1); NoPlaceholders(o2);
    PlaceholdersAppend(o1, "?");
    PlaceholdersAppend(o1 + "?", o2);
    PlaceholdersAppend(o1 + "?" + o2, "?");
  }

  lemma JoinerPiecesPlaceholders()
    ensures Placeholders(WHERE_PREFIX) == 0 && Placeholders(AND_DELIMITER) == 0
    ensures Placeholders(ORDER_BY_QUERY) == 0 && Placeholders(COMMA_SPACE_DELIMITER) == 0
    ensures Placeholders(" ") == 0 && Placeholders("(") == 0 && Placeholders(") ") == 0
    ensures Placeholders(QUESTION_MARK) == 1
  {
    OnePlaceholder();
    NoPlaceholders(WHERE_PREFIX); NoPlaceholders(AND_DELIMITER); NoPlaceholders(ORDER_BY_QUERY);
    NoPlaceholders(COMMA_SPACE_DELIMITER); NoPlaceholders(" "); NoPlaceholders("("); NoPlaceholders(") ");
  }

  lemma SumPlaceholdersPair(a: string, b: string)
    ensures SumPlaceholders([a]) == Placeholders(a)
    ensures SumPlaceholders([a, b]) == Placeholders(a) + Placeholders(b)
  {
    assert [a][..0] == [];
    assert [a, b][..1] == [a];
  }

  /** Placeholders of a joiner's text: those of its parts, when the fixed pieces have none. */
  lemma JoinedPlaceholders(prefix: string, delim: string, suffix: string, parts: seq<string>)
    requires Placeholders(prefix) == 0 && Placeholders(delim) == 0 && Placeholders(suffix) == 0
    ensures Placeholders(Joined(prefix, delim, suffix, parts)) == SumPlaceholders(parts)
  {
    PlaceholdersJoin(delim, parts);
    PlaceholdersAppend(prefix, Join(delim, parts));
    PlaceholdersAppend(prefix + Join(delim, parts), suffix);
  }

  /** The tag fragment has one placeholder per name and one for the count guard. */
  lemma TagsFragmentPlaceholders(n: nat)
    ensures Placeholders(TagsFragment(n)) == n + 1
  {
    JoinerPiecesPlaceholders();
    TagsFirstPlaceholders();
    TagsLastPlaceholders();
    SumPlaceholdersRepeat(QUESTION_MARK, n);
    JoinedPlaceholders("(", COMMA_SPACE_DELIMITER, ") ", Repeat(QUESTION_MARK, n));
    var j := Joined("(", COMMA_SPACE_DELIMITER, ") ", Repeat(QUESTION_MARK, n));
    PlaceholdersAppend(TAGS_QUERY_FIRST_PART, j);
    PlaceholdersAppend(TAGS_QUERY_FIRST_PART + j, TAGS_QUERY_LAST_PART);
  }

  lemma WherePlaceholders(p: RequestParameters)
    requires Servable(p)
    ensures Placeholders(WhereClause(Fragments(p))) == |FilterArgs(p)|
  {
    var fr := Fragments(p);
    if fr != [] {
      JoinerPiecesPlaceholders();
      SearchPlaceholders();
      JoinedPlaceholders(WHERE_PREFIX, AND_DELIMITER, " ", fr);
      if TagFilterActive(p) {
        TagsFragmentPlaceholders(|p.tags.value|);
        SumPlaceholdersPair(TagsFragment(|p.tags.value|), SEARCH_QUERY);
      } else {
        SumPlaceholdersPair(SEARCH_QUERY, SEARCH_QUERY);
      }
    }
  }

  lemma OrderByPlaceholders(sorts: seq<Option<string>>)
    requires SortsValid(sorts)
    ensures Placeholders(OrderByClause(sorts)) == QuestionSeparators(sorts)
  {
    if sorts != [] {
      JoinerPiecesPlaceholders();
      JoinedPlaceholders(ORDER_BY_QUERY, COMMA_SPACE_DELIMITER, " ", OrderItems(sorts));
      OrderItemsPlaceholders(sorts);
    } else {
      assert Placeholders([]) == 0;
    }
  }

  /**
   * The statement has one `?` per argument, plus one for every sort token
   * whose separator, passing the unescaped `.` of the pattern, is itself `?`.
   */
  lemma SearchStatementPlaceholders(p: RequestParameters)
    requires Servable(p)
    ensures Placeholders(SearchStatement(p).text) == |SearchStatement(p).args| + QuestionSeparators(SortTokens(p))
  {
    SelectPlaceholders();
    LimitOffsetPlaceholders();
    WherePlaceholders(p);
    var w := WhereClause(Fragments(p));
    var o := OrderByClause(SortTokens(p));
    if SortActive(p) {
      OrderByPlaceholders(p.sortList.value);
    } else {
      OrderByPlaceholders([]);
    }
    PlaceholdersAppend(FIND_ALL_QUERY, w);
    PlaceholdersAppend(FIND_ALL_QUERY + w, o);
    PlaceholdersAppend(FIND_ALL_QUERY + w + o, LIMIT_OFFSET);
  }

  lemma {:induction false} NoQuestionSeparators(sorts: seq<Option<string>>)
    requires forall i :: 0 <= i < |sorts| ==> !QuestionSeparated(sorts[i])
    ensures QuestionSeparators(sorts) == 0
    decreases |sorts|
  {
    if sorts != [] {
      NoQuestionSeparators(sorts[..|sorts| - 1]);
    }
  }

  /**
   * With no `?` separators, the statement's `?` characters and its arguments
   * match one to one. This counts characters; whether the driver binds each
   * one also depends on quotes and comment markers in the text.
   */
  lemma PlaceholdersMatchArguments(p: RequestParameters)
    requires Servable(p)
    requires forall i :: 0 <= i < |SortTokens(p)| ==> !QuestionSeparated(SortTokens(p)[i])
    ensures Placeholders(SearchStatement(p).text) == |SearchStatement(p).args|
  {
    SearchStatementPlaceholders(p);
    NoQuestionSeparators(SortTokens(p));
  }

  /** The token `name?asc` passes the pattern and leaves an unbound placeholder behind. */
  lemma QuestionSeparatorUnbound()
    ensures var p := RequestParameters(None, None, Some([Some("name?asc")]), 0, 10);
      Servable(p) && Placeholders(SearchStatement(p).text) == |SearchStatement(p).args| + 1
  {
    var p := RequestParameters(None, None, Some([Some("name?asc")]), 0, 10);
    DaoTokenExamples();
    assert FieldSepDirection("name?asc", "name");
    assert SortTokens(p) == [Some("name?asc")];
    assert SortTokens(p)[..0] == [];
    assert QuestionSeparated(Some("name?asc")) by {
      var g :| g in DAO_SORT_FIELDS && FieldSepDirection("name?asc", g) && SeparatorOf("name?asc") == "name?asc"[|g|];
      FieldDetermined("name?asc", "name", g);
    }
    SearchStatementPlaceholders(p);
  }

  /** No filter, no WHERE: the statement is the select, the ORDER BY clause and the paging. */
  lemma NoFilterNoWhere(p: RequestParameters)
    requires Servable(p) && !TagFilterActive(p) && !SearchActive(p)
    ensures SearchStatement(p).text == FIND_ALL_QUERY + OrderByClause(SortTokens(p)) + LIMIT_OFFSET
    ensures SearchStatement(p).args == [IntArg(p.size), IntArg(p.Offset())]
  {
    assert Fragments(p) == [];
  }

  /** The arguments are the tag names, their count, the search pattern, the size and the offset. */
  lemma SearchStatementArgs(p: RequestParameters)
    requires Servable(p)
    ensures var a := SearchStatement(p).args;
      && |a| >= 2 && a[|a| - 2] == IntArg(p.size) && a[|a| - 1] == IntArg(p.Offset())
      && (TagFilterActive(p) ==> a[..|p.tags.value|] == TagNameArgs(p.tags.value) && a[|p.tags.value|] == IntArg(|p.tags.value|))
      && (SearchActive(p) ==> a[|a| - 3] == SearchArg(p.search.value))
  {
    var f := FilterArgs(p);
    var paging := [IntArg(p.size), IntArg(p.Offset())];
    var search := if SearchActive(p) then [SearchArg(p.search.value)] else [];
    assert SearchStatement(p).args == f + paging;
    if TagFilterActive(p) {
      var names := TagNameArgs(p.tags.value);
      assert f == names + [IntArg(|p.tags.value|)] + search;
      HeadOfSplit(names, IntArg(|p.tags.value|), search, paging);
    } else {
      assert f == search;
    }
  }

  /** Where a sequence built as `x`, `y`, the rest and a tail puts `x` and `y`. */
  lemma HeadOfSplit<T>(x: seq<T>, y: T, rest: seq<T>, tail: seq<T>)
    ensures var s := x + [y] + rest + tail; s[..|x|] == x && s[|x|] == y
  {
    var s := x + [y] + rest + tail;
    assert s == x + ([y] + rest + tail);
  }

  /** With both filters the WHERE clause is the tag fragment, `AND `, the search fragment. */
  lemma BothFiltersJoined(p: RequestParameters)
    requires Servable(p) && TagFilterActive(p) && SearchActive(p)
    ensures WhereClause(Fragments(p)) == WHERE_PREFIX + TagsFragment(|p.tags.value|) + AND_DELIMITER + SEARCH_QUERY + " "
  {
    var a := TagsFragment(|p.tags.value|);
    assert Fragments(p) == [a, SEARCH_QUERY];
    JoinedPair(WHERE_PREFIX, AND_DELIMITER, " ", a, SEARCH_QUERY);
  }

  // ---- what the statement sequences of create and update demand ----

  /** `setInt` unboxes price and duration and `Timestamp.valueOf` dereferences both dates. */
  predicate Insertable(rec: CertRecord) {
    rec.price.Some? && rec.duration.Some? && rec.createDate.Some? && rec.lastUpdateDate.Some?
  }

  /** The association loop gets through every tag: the set is non-null and so is every tag and name. */
  predicate Linkable(ts: Option<seq<Option<TagState>>>) {
    ts.Some? && GoodPrefix(ts.value) == |ts.value|
  }

  /** What the association loop throws when it does not get through. */
  function LinkError(ts: Option<seq<Option<TagState>>>): Error
    requires !Linkable(ts)
  {
    if ts.None? then NullPointer else TagError(ts.value[GoodPrefix(ts.value)])
  }

  /** The tag names of a certificate whose loop gets through. */
  function LinkedNames(ts: Option<seq<Option<TagState>>>): seq<string>
    requires Linkable(ts)
  {
    NamesOf(ts.value)
  }

  /** Tag `j` has the name its value had, and is null exactly when its value is. */
  predicate NamesKept(tags: seq<Tag?>, ts: seq<Option<TagState>>)
    reads set t: Tag | t in tags
  {
    && |tags| == |ts|
    && (forall j :: 0 <= j < |tags| ==> (tags[j] == null <==> ts[j].None?))
    && (forall j :: 0 <= j < |tags| && tags[j] != null ==> tags[j].name == ts[j].value.name)
  }

  /** The first `k` tags carry the ids the tag table holds for their names. */
  predicate IdsResolved(tags: seq<Tag?>, k: nat, tagIds: map<string, int>)
    reads set t: Tag | t in tags
  {
    forall j :: 0 <= j < k && j < |tags| ==>
      tags[j] != null && tags[j].name.Some? && tags[j].name.value in tagIds && tags[j].id == tagIds[tags[j].name.value]
  }

  lemma PrefixOfGood(ts: seq<Option<TagState>>, i: nat)
    requires i <= |ts| && forall j :: 0 <= j < i ==> Nameable(ts[j])
    requires i < |ts| ==> !Nameable(ts[i])
    ensures GoodPrefix(ts) == i
  {
    var k := GoodPrefix(ts);
    assert !(k < i);
    assert !(i < k);
  }

  lemma NamesOfSnoc(ts: seq<Option<TagState>>, i: nat)
    requires i < |ts| && forall j :: 0 <= j <= i ==> Nameable(ts[j])
    ensures NamesOf(ts[..i + 1]) == NamesOf(ts[..i]) + [ts[i].value.name.value]
  {
    var a, b := NamesOf(ts[..i + 1]), NamesOf(ts[..i]) + [ts[i].value.name.value];
    assert |a| == |b|;
    forall j | 0 <= j < |a| ensures a[j] == b[j] {
      assert ts[..i + 1][j] == ts[j];
      if j < i {
        assert ts[..i][j] == ts[j];
      }
    }
  }

  class GiftCertificateDaoImpl {
    const db: Database

    constructor (db: Database)
      ensures this.db == db
    {
      this.db := db;
    }

    // ---- findAll and its helpers ----

    method GetSearchQuery(search: string, args: seq<SqlArg>) returns (fragment: string, args': seq<SqlArg>)
      ensures fragment == SEARCH_QUERY && Placeholders(fragment) == 1
      ensures args' == args + [SearchArg(search)]
    {
      SearchPlaceholders();
      args' := args + [TextArg("%" + search + "%")];
      fragment := SEARCH_QUERY;
    }

    method PrepareTagsQuery(tags: seq<Option<string>>, args: seq<SqlArg>) returns (r: Outcome<string>, args': seq<SqlArg>)
      ensures r.Success? <==> TagsValid(tags)
      ensures r.Failure? ==> r.error == InvalidTagName
      ensures r.Success? ==> r.value == TagsFragment(|tags|) && args' == args + TagNameArgs(tags) + [IntArg(|tags|)]
    {
      var marks: seq<string> := [];
      args' := args;
      var i := 0;
      while i < |tags|
        invariant 0 <= i <= |tags|
        invariant TagsValid(tags[..i])
        invariant marks == Repeat(QUESTION_MARK, i)
        invariant args' == args + TagNameArgs(tags[..i])
      {
        if tags[i].None? || tags[i].value == "" {
          assert !ValidTagName(tags[i]);
          return Failure(InvalidTagName), args';
        }
        marks := marks + [QUESTION_MARK];
        args' := args' + [TextArg(tags[i].value)];
        assert tags[..i + 1] == tags[..i] + [tags[i]];
        i := i + 1;
      }
      assert tags[..i] == tags;
      args' := args' + [IntArg(|tags|)];
      r := Success(TAGS_QUERY_FIRST_PART + Joined("(", COMMA_SPACE_DELIMITER, ") ", marks) + TAGS_QUERY_LAST_PART);
    }

    method GetOrderByQuery(sortList: Option<seq<Option<string>>>) returns (r: Outcome<string>)
      ensures sortList.None? || sortList.value == [] ==> r == Success("")
      ensures sortList.Some? ==> (r.Success? <==> SortsValid(sortList.value))
      ensures r.Failure? ==> r.error == InvalidSortRequest(Some(SORT_MESSAGE))
      ensures r.Success? && sortList.Some? ==> r.value == OrderByClause(sortList.value)
    {
      if sortList.None? || sortList.value == [] {
        return Success("");
      }
      var sorts := sortList.value;
      var items: seq<string> := [];
      var i := 0;
      while i < |sorts|
        invariant 0 <= i <= |sorts|
        invariant SortsValid(sorts[..i])
        invariant items == OrderItems(sorts[..i])
      {
        var sort := sorts[i];
        if sort.None? || !DaoSortTokenValid(sort.value) {
          DaoPatternMessage();
          return Failure(InvalidSortRequest(Some(DAO_SORT_PATTERN[2..|DAO_SORT_PATTERN| - 5])));
        }
        items := items + [TABLE_PREFIX + ReplaceFirst(sort.value, '.', ' ')];
        assert sorts[..i + 1] == sorts[..i] + [sort];
        i := i + 1;
      }
      assert sorts[..i] == sorts;
      r := Success(Joined(ORDER_BY_QUERY, COMMA_SPACE_DELIMITER, " ", items));
    }

    /**
     * The statement findAll runs, or the exception it throws first. A null
     * holder is replaced by a default one with the given paging.
     */
    method FindAll(rph: Option<RequestParameters>, defaultPage: Int32, defaultSize: Int32) returns (r: Outcome<SqlQuery>)
      ensures var p := rph.GetOr(RequestParameters(None, None, None, defaultPage, defaultSize));
        && (r.Success? <==> Servable(p))
        && (r.Success? ==> r.value == SearchStatement(p))
        && (r.Failure? ==> r.error == SearchError(p))
    {
      var p := if rph.None? then RequestParameters(None, None, None, defaultPage, defaultSize) else rph.value;
      var where, args := FilterQuery(p);
      if where.Failure? {
        return Failure(where.error);
      }
      var orderBy := GetOrderByQuery(p.sortList);
      if orderBy.Failure? {
        return Failure(orderBy.error);
      }
      var query := FIND_ALL_QUERY + where.value + orderBy.value + LIMIT_OFFSET;
      args := args + [IntArg(p.size), IntArg(p.Offset())];
      r := Success(SqlQuery(query, args));
    }

    /** The tag half of findAll's filters: its fragment and arguments, none without tags, or the tag-name error. */
    method TagFilter(p: RequestParameters) returns (r: Outcome<seq<string>>, args: seq<SqlArg>)
      ensures r.Success? <==> (TagFilterActive(p) ==> TagsValid(p.tags.value))
      ensures r.Failure? ==> r.error == InvalidTagName
      ensures r.Success? ==> r.value == if TagFilterActive(p) then [TagsFragment(|p.tags.value|)] else []
      ensures r.Success? ==> args == if TagFilterActive(p) then TagNameArgs(p.tags.value) + [IntArg(|p.tags.value|)] else []
    {
      args := [];
      if p.tags.Some? && p.tags.value != [] {
        var tagsQuery;
        tagsQuery, args := PrepareTagsQuery(p.tags.value, args);
        if tagsQuery.Failure? {
          return Failure(tagsQuery.error), args;
        }
        return Success([tagsQuery.value]), args;
      }
      r := Success([]);
    }

    /** findAll's filters: the WHERE clause and the arguments of its placeholders, or the tag-name error. */
    method FilterQuery(p: RequestParameters) returns (r: Outcome<string>, args: seq<SqlArg>)
      ensures r.Success? <==> (TagFilterActive(p) ==> TagsValid(p.tags.value))
      ensures r.Failure? ==> r.error == InvalidTagName
      ensures r.Success? ==> r.value == WhereClause(Fragments(p))
      ensures r.Success? && Servable(p) ==> args == FilterArgs(p)
    {
      var tagFragments;
      tagFragments, args := TagFilter(p);
      if tagFragments.Failure? {
        return Failure(tagFragments.error), args;
      }
      var fragments := tagFragments.value;
      ghost var tagArgs := args;
      if p.search.Some? && p.search.value != "" {
        var searchQuery;
        searchQuery, args := GetSearchQuery(p.search.value, args);
        fragments := fragments + [searchQuery];
      }
      assert fragments == Fragments(p);
      assert args == tagArgs + if SearchActive(p) then [SearchArg(p.search.value)] else [];
      r := Success(if fragments == [] then "" else Joined(WHERE_PREFIX, AND_DELIMITER, " ", fragments));
    }

    // ---- the statement sequences that change the tables ----

    /** One turn of the association loop, for a tag with a name. */
    method AddTag(certificateId: int, tag: Tag, name: string)
      requires tag.name == Some(name)
      modifies db, tag
      ensures db.Contents() == WithLink(WithTag(old(db.Contents()), name), certificateId, WithTag(old(db.Contents()), name).tagIds[name])
      ensures tag.name == Some(name) && name in db.tagIds && tag.id == db.tagIds[name]
    {
      db.InsertTagIfAbsent(name);
      var tagId := db.TagIdByName(name);
      tag.id := tagId.value;
      db.InsertLink(certificateId, tag.id);
    }

    /** One turn of `addTags`' loop past its null checks: the i-th tag is linked and its id read back. */
    method AssociateAt(certificateId: int, tags: seq<Tag?>, ghost ts: seq<Option<TagState>>, i: nat, ghost t0: Tables)
      requires i < |tags| && tags[i] != null && tags[i].name.Some?
      requires NamesKept(tags, ts) && forall j :: 0 <= j < i ==> Nameable(ts[j])
      requires db.Contents() == LinkTags(t0, certificateId, NamesOf(ts[..i]))
      requires IdsResolved(tags, i, db.tagIds)
      modifies db, tags[i]
      ensures NamesKept(tags, ts) && forall j :: 0 <= j < i + 1 ==> Nameable(ts[j])
      ensures db.Contents() == LinkTags(t0, certificateId, NamesOf(ts[..i + 1]))
      ensures IdsResolved(tags, i + 1, db.tagIds)
    {
      var tag := tags[i];
      var name := tag.name.value;
      ghost var before := db.Contents();
      NamesOfSnoc(ts, i);
      ghost var names := NamesOf(ts[..i + 1]);
      assert names[..|names| - 1] == NamesOf(ts[..i]) && names[|names| - 1] == name;
      WithTagKeeps(before, name);
      AddTag(certificateId, tag, name);
      assert IdsResolved(tags, i + 1, db.tagIds) by {
        forall j | 0 <= j < i + 1 && tags[j] != tag
          ensures tags[j] != null && tags[j].name.Some? && tags[j].name.value in db.tagIds
            && tags[j].id == db.tagIds[tags[j].name.value]
        {
          assert j < i;
        }
      }
    }

    /**
     * `addTags`: for each tag in the set's order, insert its name unless the
     * table has it, read the id back into the tag, and associate it with the
     * certificate. A null set, a null tag or a null name stops the loop.
     */
    method AddTags(certificate: GiftCertificate) returns (r: Outcome<()>)
      modifies db, certificate.TagObjects()
      ensures certificate.tags.None? ==> r == Failure(NullPointer) && db.Contents() == old(db.Contents())
      ensures certificate.tags.Some? ==>
        var ts := old(StatesOf(certificate.tags.value));
        var k := GoodPrefix(ts);
        && db.Contents() == LinkTags(old(db.Contents()), certificate.id, NamesOf(ts[..k]))
        && (r.Success? <==> k == |ts|)
        && (r.Failure? ==> r.error == TagError(ts[k]))
        && NamesKept(certificate.tags.value, ts)
        && IdsResolved(certificate.tags.value, k, db.tagIds)
    {
      if certificate.tags.None? {
        return Failure(NullPointer);
      }
      var tags := certificate.tags.value;
      ghost var ts := StatesOf(tags);
      ghost var t0 := db.Contents();
      var i := 0;
      while i < |tags| && tags[i] != null && tags[i].name.Some?
        invariant 0 <= i <= |tags| && |ts| == |tags|
        invariant forall j :: 0 <= j < i ==> Nameable(ts[j])
        invariant NamesKept(tags, ts)
        invariant db.Contents() == LinkTags(t0, certificate.id, NamesOf(ts[..i]))
        invariant IdsResolved(tags, i, db.tagIds)
      {
        AssociateAt(certificate.id, tags, ts, i, t0);
        i := i + 1;
      }
      PrefixOfGood(ts, i);
      if i < |tags| {
        // `getName()` on a null tag throws; a null name fails the insert
        r := Failure(if tags[i] == null then NullPointer else StorageFailure);
      } else {
        assert ts[..i] == ts;
        r := Success(());
      }
    }

    /**
     * `create`: insert the row, take the generated key as the certificate's
     * id and associate its tags; a failure undoes the whole transaction but
     * leaves the ids already written into the beans.
     */
    method Create(certificate: GiftCertificate) returns (r: Outcome<GiftCertificate>)
      requires db.Valid()
      modifies db, certificate, certificate.TagObjects()
      ensures db.Valid()
      ensures r.Success? <==> Insertable(old(certificate.Record())) && Linkable(old(certificate.TagStates()))
      ensures r.Success? ==> r.value == certificate
      ensures r.Success? ==> db.Contents() == SqlCreated(old(db.Contents()), old(certificate.Record()), LinkedNames(old(certificate.TagStates())))
      ensures r.Failure? ==> db.Contents() == old(db.Contents())
      ensures r.Failure? ==> r.error == if !Insertable(old(certificate.Record())) then NullPointer else LinkError(old(certificate.TagStates()))
      ensures certificate.id == if Insertable(old(certificate.Record())) then old(db.nextCertId) else old(certificate.id)
      ensures certificate.Record() == old(certificate.Record()) && certificate.tags == old(certificate.tags)
      ensures r.Success? ==>
        NamesKept(certificate.tags.value, old(StatesOf(certificate.tags.value))) &&
        IdsResolved(certificate.tags.value, |certificate.tags.value|, db.tagIds)
      ensures !Insertable(old(certificate.Record())) ==> certificate.TagStates() == old(certificate.TagStates())
      ensures r.Failure? && Insertable(old(certificate.Record())) && certificate.tags.Some? ==>
        var ts := old(StatesOf(certificate.tags.value));
        var k := GoodPrefix(ts);
        NamesKept(certificate.tags.value, ts) &&
        IdsResolved(certificate.tags.value, k, ResolveTags(old(db.Contents()), NamesOf(ts[..k])).tagIds)
    {
      var rec := certificate.Record();
      if rec.price.None? || rec.duration.None? || rec.createDate.None? || rec.lastUpdateDate.None? {
        return Failure(NullPointer);
      }
      var added := InsertWithTags(certificate, rec);
      if added.Failure? {
        return Failure(added.error);
      }
      r := Success(certificate);
    }

    /** `create` past its null checks: the row insert and the association loop, undone together on failure. */
    method InsertWithTags(certificate: GiftCertificate, rec: CertRecord) returns (r: Outcome<()>)
      requires db.Valid() && rec == certificate.Record() && Insertable(rec)
      modifies db, certificate, certificate.TagObjects()
      ensures db.Valid()
      ensures certificate.id == old(db.nextCertId)
      ensures certificate.Record() == old(certificate.Record()) && certificate.tags == old(certificate.tags)
      ensures r.Success? <==> Linkable(old(certificate.TagStates()))
      ensures r.Success? ==> db.Contents() == SqlCreated(old(db.Contents()), rec, LinkedNames(old(certificate.TagStates())))
      ensures r.Success? ==>
        NamesKept(certificate.tags.value, old(StatesOf(certificate.tags.value))) &&
        IdsResolved(certificate.tags.value, |certificate.tags.value|, db.tagIds)
      ensures r.Failure? ==> db.Contents() == old(db.Contents()) && r.error == LinkError(old(certificate.TagStates()))
      ensures r.Failure? && certificate.tags.Some? ==>
        var ts := old(StatesOf(certificate.tags.value));
        var k := GoodPrefix(ts);
        NamesKept(certificate.tags.value, ts) &&
        IdsResolved(certificate.tags.value, k, ResolveTags(old(db.Contents()), NamesOf(ts[..k])).tagIds)
    {
      var saved := db.Contents();
      ghost var ts := certificate.TagStates();
      var id := db.InsertCertificate(rec);
      certificate.id := id;
      assert certificate.TagStates() == ts;
      r := AddTags(certificate);
      if r.Failure? {
        if ts.Some? {
          // the ids read back before the rollback stay in the beans
          ghost var names := NamesOf(ts.value[..GoodPrefix(ts.value)]);
          InsertedLinkIds(saved, rec, id, names);
          assert IdsResolved(certificate.tags.value, GoodPrefix(ts.value), ResolveTags(saved, names).tagIds);
        }
        db.Rollback(saved);
        return;
      }
      assert Linkable(ts) && ts.value[..|ts.value|] == ts.value;
      assert db.Contents() == SqlCreated(saved, rec, LinkedNames(ts));
      CreatesAgree(saved, rec, LinkedNames(ts));
    }

    /** `findById`: the row read back as a certificate, or `DaoWrongIdException` for a missing id. */
    method FindById(id: int) returns (r: Outcome<CertificateState>)
      ensures r.Success? <==> id in db.certificates
      ensures r.Failure? ==> r.error == WrongId(id, RESOURCE_NAME)
      ensures r.Success? ==> r.value.id == id && r.value.tags.None? && r.value == CertificateOf(id, db.certificates[id])
    {
      if !db.Exists(id) {
        return Failure(WrongId(id, RESOURCE_NAME));
      }
      r := Success(CertificateOf(id, db.certificates[id]));
    }

    /**
     * `update`: a missing id throws; otherwise COALESCE the row, replace the
     * associations when the set is non-empty, and read the row back.
     */
    method Update(certificate: GiftCertificate) returns (r: Outcome<CertificateState>)
      requires db.Valid()
      modifies db, certificate.TagObjects()
      ensures db.Valid()
      ensures r.Success? <==> certificate.id in old(db.certificates) && Linkable(old(certificate.TagStates()))
      ensures r.Failure? ==> db.Contents() == old(db.Contents())
      ensures r.Failure? && certificate.id !in old(db.certificates) ==> r.error == WrongId(certificate.id, RESOURCE_NAME)
      ensures r.Failure? && certificate.id in old(db.certificates) ==> r.error == LinkError(old(certificate.TagStates()))
      ensures r.Success? ==>
        db.Contents() == SqlUpdated(old(db.Contents()), certificate.id, old(certificate.Record()), LinkedNames(old(certificate.TagStates())))
      ensures r.Success? ==>
        r.value == CertificateOf(certificate.id, Coalesce(old(certificate.Record()), old(db.certificates[certificate.id])))
      ensures r.Success? ==>
        NamesKept(certificate.tags.value, old(StatesOf(certificate.tags.value))) &&
        IdsResolved(certificate.tags.value, |certificate.tags.value|, db.tagIds)
      ensures r.Failure? && certificate.id !in old(db.certificates) ==> certificate.TagStates() == old(certificate.TagStates())
      ensures r.Failure? && certificate.id in old(db.certificates) && certificate.tags.Some? ==>
        var ts := old(StatesOf(certificate.tags.value));
        var k := GoodPrefix(ts);
        NamesKept(certificate.tags.value, ts) &&
        IdsResolved(certificate.tags.value, k, ResolveTags(old(db.Contents()), NamesOf(ts[..k])).tagIds)
    {
      if !db.Exists(certificate.id) {
        return Failure(WrongId(certificate.id, RESOURCE_NAME));
      }
      var saved := db.Contents();
      ghost var ts := certificate.TagStates();
      var id := certificate.id;
      var rec := certificate.Record();
      db.WriteRecord(id, Coalesce(rec, db.certificates[id]));
      ghost var written := db.Contents();
      if certificate.tags.None? {
        db.Rollback(saved);
        return Failure(NullPointer);
      }
      if certificate.tags.value != [] {
        var relinked := Relink(certificate, saved);
        if relinked.Failure? {
          db.Rollback(saved);
          return Failure(relinked.error);
        }
        assert Linkable(ts) && ts.value[..|ts.value|] == ts.value;
      } else {
        assert Linkable(ts) && LinkedNames(ts) == [];
      }
      assert db.Contents() == SqlUpdated(saved, id, rec, LinkedNames(ts));
      SqlUpdatedLinks(saved, id, rec, LinkedNames(ts));
      r := FindById(id);
    }

    /**
     * `update`'s tag half for a non-empty set: delete the certificate's
     * association rows, then run the association loop. `base` is the tables
     * before the row update, whose tag table is the current one.
     */
    method Relink(certificate: GiftCertificate, ghost base: Tables) returns (r: Outcome<()>)
      requires certificate.tags.Some? && certificate.tags.value != []
      requires base.tagIds == db.tagIds && base.nextTagId == db.nextTagId
      modifies db, certificate.TagObjects()
      ensures r.Success? <==> Linkable(old(certificate.TagStates()))
      ensures r.Failure? ==> r.error == LinkError(old(certificate.TagStates()))
      ensures r.Success? ==>
        db.Contents() == LinkTags(WithoutLinks(old(db.Contents()), certificate.id), certificate.id, LinkedNames(old(certificate.TagStates())))
      ensures r.Success? ==>
        NamesKept(certificate.tags.value, old(StatesOf(certificate.tags.value))) &&
        IdsResolved(certificate.tags.value, |certificate.tags.value|, db.tagIds)
      ensures r.Failure? ==>
        var ts := old(StatesOf(certificate.tags.value));
        var k := GoodPrefix(ts);
        NamesKept(certificate.tags.value, ts) &&
        IdsResolved(certificate.tags.value, k, ResolveTags(base, NamesOf(ts[..k])).tagIds)
    {
      ghost var ts := certificate.TagStates();
      var id := certificate.id;
      db.DeleteLinks(id);
      ghost var cleared := db.Contents();
      assert certificate.TagStates() == ts;
      r := AddTags(certificate);
      if r.Failure? {
        LinkTagsIds(cleared, base, id, NamesOf(ts.value[..GoodPrefix(ts.value)]));
      } else {
        assert ts.value[..|ts.value|] == ts.value;
      }
    }

    /** `updateDuration`: a missing id throws; otherwise set the duration and the date, and read the row back. */
    method UpdateDuration(id: int, duration: Int32, currentDate: Option<Date>) returns (r: Outcome<CertificateState>)
      requires db.Valid()
      modifies db
      ensures db.Valid()
      ensures r.Success? <==> id in old(db.certificates)
      ensures r.Failure? ==> r.error == WrongId(id, RESOURCE_NAME) && db.Contents() == old(db.Contents())
      ensures r.Success? ==> db.Contents() == DurationUpdated(old(db.Contents()), id, duration, currentDate)
      ensures r.Success? ==> r.value == CertificateOf(id, old(db.certificates[id]).(duration := Some(duration), lastUpdateDate := currentDate))
    {
      if !db.Exists(id) {
        return Failure(WrongId(id, RESOURCE_NAME));
      }
      ghost var saved := db.Contents();
      db.WriteRecord(id, db.certificates[id].(duration := Some(duration), lastUpdateDate := currentDate));
      DurationUpdatedFacts(saved, id, duration, currentDate);
      r := FindById(id);
    }

    /** `delete`: remove the row, its associations with it by the assumed cascade; a missing id is not an error. */
    method Delete(id: int)
      requires db.Valid()
      modifies db
      ensures db.Valid()
      ensures db.Contents() == WithoutCertificate(old(db.Contents()), id)
    {
      WithoutCertificateFacts(db.Contents(), id);
      db.DeleteCertificate(id);
    }
  }
}
