/**
 * The sort-token regular expressions of the core, replaced by explicit
 * predicates. All three patterns have the shape `(f1|f2|…).(asc|desc)`,
 * matched against the whole token, where the `.` is NOT escaped: it is
 * Java's any-character class, which matches every character except the line
 * terminators. The direction alternatives are lower-case only.
 */
module SortPatterns {
  import opened JavaStrings

  /** The characters Java's `.` does not match (the pattern has no DOTALL flag). */
  predicate IsLineTerminator(c: char) {
    c == '\n' || c == '\r' || c == '\U{0085}' || c == '\U{2028}' || c == '\U{2029}'
  }

  predicate IsDirection(d: string) {
    d == "asc" || d == "desc"
  }

  /** `s` is `f`, then one character that `.` matches, then a direction. */
  predicate FieldSepDirection(s: string, f: string) {
    |f| < |s| && s[..|f|] == f && !IsLineTerminator(s[|f|]) && IsDirection(s[|f| + 1..])
  }

  /** A full match of `(f1|f2|…).(asc|desc)` where `fields` are the alternatives. */
  predicate MatchesSortPattern(fields: set<string>, s: string) {
    exists f {:trigger FieldSepDirection(s, f)} :: f in fields && FieldSepDirection(s, f)
  }

  /** The regex view of a token: a field, any one non-terminator character, a direction. */
  lemma SortTokenShape(fields: set<string>, f: string, c: char, d: string)
    requires f in fields && !IsLineTerminator(c) && IsDirection(d)
    ensures MatchesSortPattern(fields, f + [c] + d)
  {
    var s := f + [c] + d;
    assert s[..|f|] == f && s[|f|] == c && s[|f| + 1..] == d;
    assert FieldSepDirection(s, f);
  }

  /** The direction a token ends with: "desc" when its last four characters spell it. */
  function DirectionSuffix(s: string): string {
    if |s| >= 4 && s[|s| - 4..] == "desc" then "desc" else "asc"
  }

  lemma DirectionIsSuffix(s: string, f: string)
    requires FieldSepDirection(s, f)
    ensures s[|f| + 1..] == DirectionSuffix(s)
  {
    var d := s[|f| + 1..];
    if d == "asc" {
      assert s[|s| - 3] == d[0] == 'a';
      if |s| >= 4 {
        assert s[|s| - 4..][1] == 'a';
      }
    } else {
      assert s[|s| - 4..] == d;
    }
  }

  /** Only one alternative can match a token: its field and its direction are determined by it. */
  lemma FieldDetermined(s: string, f1: string, f2: string)
    requires FieldSepDirection(s, f1) && FieldSepDirection(s, f2)
    ensures f1 == f2
  {
    DirectionIsSuffix(s, f1);
    DirectionIsSuffix(s, f2);
    assert |f1| == |f2|;
    assert f1 == s[..|f1|] == f2;
  }

  // ---- GiftCertificateDaoImpl ----

  /** The columns the JDBC DAO lets callers sort by. */
  const DAO_SORT_FIELDS: set<string> := {"name", "create_date", "last_update_date"}

  const DAO_SORT_PATTERN_BODY: string := "(name|create_date|last_update_date)" + ".(asc|desc)"
  /** `^((name|create_date|last_update_date).(asc|desc)){1}$` */
  const DAO_SORT_PATTERN: string := "^(" + DAO_SORT_PATTERN_BODY + "){1}$"

  /** The pattern with the leading `^(` and the trailing `){1}$` cut off, as the exception carries it. */
  function StripAnchors(pattern: string): string
    requires |pattern| >= 7
  {
    pattern[2..|pattern| - 5]
  }

  lemma DaoPatternMessage()
    ensures StripAnchors(DAO_SORT_PATTERN) == "(name|create_date|last_update_date).(asc|desc)"
  {
    var a, c := "^(", "){1}$";
    assert DAO_SORT_PATTERN == a + DAO_SORT_PATTERN_BODY + c;
    assert |a| == 2 && |c| == 5;
    assert (a + DAO_SORT_PATTERN_BODY + c)[2..|DAO_SORT_PATTERN| - 5] == DAO_SORT_PATTERN_BODY;
  }

  /** A null token is refused; otherwise `sort.matches(SORT_PATTERN)`. */
  predicate DaoSortTokenValid(token: string) {
    MatchesSortPattern(DAO_SORT_FIELDS, token)
  }

  // ---- GiftCertificateRepositoryImpl ----

  /** The entity attributes the Hibernate repository lets callers sort by. */
  const REPOSITORY_SORT_FIELDS: set<string> := {"name", "createDate", "lastUpdateDate"}

  const REPOSITORY_SORT_PATTERN_BODY: string := "(name|createDate|lastUpdateDate)" + ".(asc|desc)"
  /** `^((name|createDate|lastUpdateDate).(asc|desc)){1}$` */
  const REPOSITORY_SORT_PATTERN: string := "^(" + REPOSITORY_SORT_PATTERN_BODY + "){1}$"

  lemma RepositoryPatternMessage()
    ensures StripAnchors(REPOSITORY_SORT_PATTERN) == "(name|createDate|lastUpdateDate).(asc|desc)"
  {
    var a, c := "^(", "){1}$";
    assert REPOSITORY_SORT_PATTERN == a + REPOSITORY_SORT_PATTERN_BODY + c;
    assert |a| == 2 && |c| == 5;
    assert (a + REPOSITORY_SORT_PATTERN_BODY + c)[2..|REPOSITORY_SORT_PATTERN| - 5] == REPOSITORY_SORT_PATTERN_BODY;
  }

  predicate RepositorySortTokenValid(token: string) {
    MatchesSortPattern(REPOSITORY_SORT_FIELDS, token)
  }

  // ---- GiftCertificateSortMap ----

  /**
   * The alternatives of `^((k1|k2|…).(asc|desc))?$` built from the
   * configured keys; with no keys the group is `()`, which matches the empty
   * field.
   */
  function ConfiguredFields(keys: set<string>): (r: set<string>)
    ensures r != {}
  {
    if keys == {} then {""} else keys
  }

  /** The configured pattern: the whole `(field.direction)` group is optional. */
  predicate MatchesConfiguredPattern(keys: set<string>, s: string) {
    s == "" || MatchesSortPattern(ConfiguredFields(keys), s)
  }

  // ---- how the three validators treat particular tokens ----

  /** Two tokens the DAO pattern accepts: instances of `SortTokenShape`. */
  lemma DaoTokenExamples()
    ensures DaoSortTokenValid("name.asc")
    ensures DaoSortTokenValid("create_date.desc")
  {
    SortTokenShape(DAO_SORT_FIELDS, "name", '.', "asc");
    assert "name.asc" == "name" + ['.'] + "asc";
    SortTokenShape(DAO_SORT_FIELDS, "create_date", '.', "desc");
    assert "create_date.desc" == "create_date" + ['.'] + "desc";
  }

  /** The separator is any character but a line terminator. */
  lemma DaoAnySeparator()
    ensures DaoSortTokenValid("name-asc")
    ensures DaoSortTokenValid("name?asc")
    ensures DaoSortTokenValid("name'asc")
  {
    SortTokenShape(DAO_SORT_FIELDS, "name", '-', "asc");
    assert "name-asc" == "name" + ['-'] + "asc";
    SortTokenShape(DAO_SORT_FIELDS, "name", '?', "asc");
    assert "name?asc" == "name" + ['?'] + "asc";
    SortTokenShape(DAO_SORT_FIELDS, "name", '\'', "asc");
    assert "name'asc" == "name" + ['\''] + "asc";
  }

  lemma DaoTokenCounterexamples()
    ensures !DaoSortTokenValid("name.ASC")         // directions are case-sensitive
    ensures !DaoSortTokenValid("bogus.asc")
    ensures !DaoSortTokenValid("createDate.asc")   // an attribute name, not a column
    ensures !DaoSortTokenValid("name\nasc")        // `.` does not match a line terminator
    ensures !DaoSortTokenValid("")
  {
    RejectedByDao("name.ASC");
    RejectedByDao("bogus.asc");
    RejectedByDao("createDate.asc");
    RejectedByDao("name\nasc");
  }

  lemma RejectedByDao(s: string)
    requires s in {"name.ASC", "bogus.asc", "createDate.asc", "name\nasc"}
    ensures !DaoSortTokenValid(s)
  {
    if f :| f in DAO_SORT_FIELDS && FieldSepDirection(s, f) {
      assert false;
    }
  }

  /** The repository pattern accepts attribute names, as instances of `SortTokenShape` over its field list, and rejects column names. */
  lemma RepositoryTokenExamples()
    ensures RepositorySortTokenValid("createDate.desc")
    ensures RepositorySortTokenValid("lastUpdateDate-asc")
    ensures !RepositorySortTokenValid("create_date.desc")
  {
    SortTokenShape(REPOSITORY_SORT_FIELDS, "createDate", '.', "desc");
    assert "createDate.desc" == "createDate" + ['.'] + "desc";
    SortTokenShape(REPOSITORY_SORT_FIELDS, "lastUpdateDate", '-', "asc");
    assert "lastUpdateDate-asc" == "lastUpdateDate" + ['-'] + "asc";
    var s := "create_date.desc";
    if f :| f in REPOSITORY_SORT_FIELDS && FieldSepDirection(s, f) {
      assert false;
    }
  }

  /** The configured pattern accepts the empty token and, with no keys, a bare separator and direction; `PatternAlternatives` is the general statement. */
  lemma ConfiguredPatternExamples()
    ensures MatchesConfiguredPattern({"name"}, "")
    ensures MatchesConfiguredPattern({}, ".asc")
    ensures MatchesConfiguredPattern({"name", "date"}, "date.desc")
    ensures !MatchesConfiguredPattern({"name", "date"}, "date")
  {
    SortTokenShape({""}, "", '.', "asc");
    assert ".asc" == "" + ['.'] + "asc";
    SortTokenShape({"name", "date"}, "date", '.', "desc");
    assert "date.desc" == "date" + ['.'] + "desc";
  }
}
