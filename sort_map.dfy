/**
 * `GiftCertificateSortMap`: a sort-token validator configured by a map from
 * request field names to columns. The constructor builds the pattern
 * `^((k1|k2|…).(asc|desc))?$` from the configuration keys; `getSortMap`
 * turns a list of tokens into a map from field to upper-cased direction.
 */
module SortMap {
  import opened Wrappers
  import opened Entities
  import opened JavaStrings
  import opened SortPatterns

  /** A `java.util.Map<String, String>` a caller holds and may keep changing. */
  class JavaMap {
    var entries: map<string, string>

    constructor (entries: map<string, string>)
      ensures this.entries == entries
    {
      this.entries := entries;
    }
  }

  const PATTERN_PREFIX: string := "^(("
  const PATTERN_DELIMITER: string := "|"
  const PATTERN_SUFFIX: string := ").(asc|desc))?$"

  /** The pattern text for the keys in the order they were added to the joiner. */
  function PatternOf(keys: seq<string>): string {
    Joined(PATTERN_PREFIX, PATTERN_DELIMITER, PATTERN_SUFFIX, keys)
  }

  /** The field alternatives written between the pattern's prefix and suffix. */
  function Alternatives(pattern: string): seq<string> {
    if |pattern| >= |PATTERN_PREFIX| + |PATTERN_SUFFIX|
    then SplitAll(pattern[|PATTERN_PREFIX|..|pattern| - |PATTERN_SUFFIX|], '|')
    else []
  }

  /** `order` is one iteration order of the keys of `m`: each key exactly once. */
  predicate ListsKeys(order: seq<string>, m: map<string, string>) {
    && (forall i, j :: 0 <= i < j < |order| ==> order[i] != order[j])
    && (forall k :: k in m ==> k in order)
    && (forall i :: 0 <= i < |order| ==> order[i] in m)
  }

  /** The alternatives of the built pattern are the keys, or the empty field when there are none. */
  lemma PatternAlternatives(order: seq<string>, m: map<string, string>)
    requires ListsKeys(order, m)
    requires forall k :: k in m ==> '|' !in k
    ensures Alternatives(PatternOf(order)) == (if order == [] then [""] else order)
    ensures (set a | a in Alternatives(PatternOf(order))) == ConfiguredFields(m.Keys)
  {
    var p := PatternOf(order);
    var body := Join(PATTERN_DELIMITER, order);
    assert p == PATTERN_PREFIX + body + PATTERN_SUFFIX;
    assert p[|PATTERN_PREFIX|..|p| - |PATTERN_SUFFIX|] == body;
    if order != [] {
      assert forall i :: 0 <= i < |order| ==> order[i] in m;
      assert PATTERN_DELIMITER == ['|'];
      SplitAllJoin(order, '|');
    }
    assert (set k | k in order) == m.Keys;
  }

  // ---- getSortMap, as a fold over the tokens ----

  /** The token fails the pattern, or passes it but does not split into two pieces at `.`. */
  predicate Rejected(keys: set<string>, s: Option<string>) {
    s.None? || !MatchesConfiguredPattern(keys, s.value) || (s.value != "" && |Split(s.value, '.')| < 2)
  }

  /** The token puts an entry into the result. */
  predicate Sets(keys: set<string>, s: Option<string>) {
    !Rejected(keys, s) && s.value != ""
  }

  function KeyOf(keys: set<string>, s: Option<string>): string
    requires Sets(keys, s)
  {
    Split(s.value, '.')[0]
  }

  function DirectionOf(keys: set<string>, s: Option<string>): string
    requires Sets(keys, s)
  {
    ToUpper(Split(s.value, '.')[1])
  }

  /** Token `i` sets an entry and no later token sets the same field. */
  predicate LastSetting(keys: set<string>, tokens: seq<Option<string>>, i: int) {
    && 0 <= i < |tokens| && Sets(keys, tokens[i])
    && forall j :: i < j < |tokens| && Sets(keys, tokens[j]) ==> KeyOf(keys, tokens[j]) != KeyOf(keys, tokens[i])
  }

  /** One iteration: throw on a rejected token, skip the empty one, else put `field -> DIRECTION`. */
  function Put(keys: set<string>, m: map<string, string>, s: Option<string>): Outcome<map<string, string>> {
    if s.None? || !MatchesConfiguredPattern(keys, s.value) then Failure(InvalidSortRequest(None))
    else if s.value == "" then Success(m)
    else
      var pair := Split(s.value, '.');
      if |pair| < 2 then Failure(IndexOutOfBounds) else Success(m[pair[0] := ToUpper(pair[1])])
  }

  /** The map `getSortMap` builds from `tokens`, or the first token's exception. */
  function SortMapOf(keys: set<string>, tokens: seq<Option<string>>): Outcome<map<string, string>>
    decreases |tokens|
  {
    if tokens == [] then Success(map[])
    else
      var prev := SortMapOf(keys, tokens[..|tokens| - 1]);
      if prev.Failure? then prev else Put(keys, prev.value, tokens[|tokens| - 1])
  }

  /** The exception a rejected token raises. */
  function RejectionOf(keys: set<string>, s: Option<string>): Error
    requires Rejected(keys, s)
  {
    if s.None? || !MatchesConfiguredPattern(keys, s.value) then InvalidSortRequest(None) else IndexOutOfBounds
  }

  /** No map is returned exactly when some token is rejected. */
  lemma {:induction false} SortMapFailure(keys: set<string>, tokens: seq<Option<string>>)
    ensures SortMapOf(keys, tokens).Failure? <==> exists i :: 0 <= i < |tokens| && Rejected(keys, tokens[i])
    decreases |tokens|
  {
    if tokens != [] {
      var n := |tokens|;
      var init := tokens[..n - 1];
      SortMapFailure(keys, init);
      assert forall i :: 0 <= i < n - 1 ==> init[i] == tokens[i];
      if exists i :: 0 <= i < n - 1 && Rejected(keys, tokens[i]) {
        var i :| 0 <= i < n - 1 && Rejected(keys, tokens[i]);
        assert Rejected(keys, init[i]);
      }
    }
  }

  /** The exception is the first rejected token's. */
  lemma SortMapFirstFailure(keys: set<string>, tokens: seq<Option<string>>, i: nat)
    requires i < |tokens| && Rejected(keys, tokens[i])
    requires forall j :: 0 <= j < i ==> !Rejected(keys, tokens[j])
    ensures SortMapOf(keys, tokens) == Failure(RejectionOf(keys, tokens[i]))
  {
    var init := tokens[..i];
    assert forall j :: 0 <= j < i ==> init[j] == tokens[j];
    SortMapFailure(keys, init);
    assert tokens[..i + 1] == init + [tokens[i]];
    SortMapSnoc(keys, init, tokens[i]);
    SortMapPrefixFailure(keys, tokens, i + 1);
  }

  /** A returned map holds exactly the fields of the entry-setting tokens. */
  lemma {:induction false} SortMapKeys(keys: set<string>, tokens: seq<Option<string>>)
    requires SortMapOf(keys, tokens).Success?
    ensures forall f :: f in SortMapOf(keys, tokens).value <==>
      exists i :: 0 <= i < |tokens| && Sets(keys, tokens[i]) && KeyOf(keys, tokens[i]) == f
    decreases |tokens|
  {
    if tokens != [] {
      var n := |tokens|;
      var init, last := tokens[..n - 1], tokens[n - 1];
      assert forall i :: 0 <= i < n - 1 ==> init[i] == tokens[i];
      SortMapKeys(keys, init);
      SortMapStep(keys, tokens);
      var m := SortMapOf(keys, init).value;
      var r := SortMapOf(keys, tokens).value;
      forall f | f in r ensures exists i :: 0 <= i < n && Sets(keys, tokens[i]) && KeyOf(keys, tokens[i]) == f {
        if !(Sets(keys, last) && f == KeyOf(keys, last)) {
          var i :| 0 <= i < n - 1 && Sets(keys, init[i]) && KeyOf(keys, init[i]) == f;
          assert tokens[i] == init[i];
        }
      }
      forall i | 0 <= i < n && Sets(keys, tokens[i]) ensures KeyOf(keys, tokens[i]) in r {
        if i < n - 1 {
          assert tokens[i] == init[i];
        }
      }
    }
  }

  lemma LastSettingInit(keys: set<string>, tokens: seq<Option<string>>, i: int)
    requires LastSetting(keys, tokens, i) && i < |tokens| - 1
    ensures LastSetting(keys, tokens[..|tokens| - 1], i)
  {
    var init := tokens[..|tokens| - 1];
    assert forall j :: 0 <= j < |init| ==> init[j] == tokens[j];
  }

  /** The last token of a returned map either set its field or was the empty token. */
  lemma SortMapStep(keys: set<string>, tokens: seq<Option<string>>)
    requires tokens != [] && SortMapOf(keys, tokens).Success?
    ensures var init, last := tokens[..|tokens| - 1], tokens[|tokens| - 1];
      && SortMapOf(keys, init).Success?
      && SortMapOf(keys, tokens).value ==
           if Sets(keys, last) then SortMapOf(keys, init).value[KeyOf(keys, last) := DirectionOf(keys, last)]
           else SortMapOf(keys, init).value
  {
  }

  /** Each field of a returned map has the direction of the last token that names it. */
  lemma {:induction false} SortMapLastWins(keys: set<string>, tokens: seq<Option<string>>)
    requires SortMapOf(keys, tokens).Success?
    ensures forall i :: LastSetting(keys, tokens, i) ==>
      && KeyOf(keys, tokens[i]) in SortMapOf(keys, tokens).value
      && SortMapOf(keys, tokens).value[KeyOf(keys, tokens[i])] == DirectionOf(keys, tokens[i])
    decreases |tokens|
  {
    if tokens != [] {
      var n := |tokens|;
      var init, last := tokens[..n - 1], tokens[n - 1];
      assert forall i :: 0 <= i < n - 1 ==> init[i] == tokens[i];
      SortMapLastWins(keys, init);
      SortMapStep(keys, tokens);
      var m := SortMapOf(keys, init).value;
      var r := SortMapOf(keys, tokens).value;
      forall i | LastSetting(keys, tokens, i)
        ensures KeyOf(keys, tokens[i]) in r && r[KeyOf(keys, tokens[i])] == DirectionOf(keys, tokens[i])
      {
        if i < n - 1 {
          LastSettingInit(keys, tokens, i);
          assert Sets(keys, last) ==> KeyOf(keys, last) != KeyOf(keys, tokens[i]);
        }
      }
    }
  }

  /** One more token: the fold goes on from the map so far, unless it already failed. */
  lemma SortMapSnoc(keys: set<string>, tokens: seq<Option<string>>, t: Option<string>)
    ensures SortMapOf(keys, tokens + [t]) ==
      if SortMapOf(keys, tokens).Failure? then SortMapOf(keys, tokens) else Put(keys, SortMapOf(keys, tokens).value, t)
  {
    assert (tokens + [t])[..|tokens|] == tokens;
  }

  /** Two token lists with the same outcome keep the same outcome after one more token. */
  lemma SortMapSnocCongruent(keys: set<string>, a: seq<Option<string>>, b: seq<Option<string>>, t: Option<string>)
    requires SortMapOf(keys, a) == SortMapOf(keys, b)
    ensures SortMapOf(keys, a + [t]) == SortMapOf(keys, b + [t])
  {
    SortMapSnoc(keys, a, t);
    SortMapSnoc(keys, b, t);
  }

  /** Splitting off the last element of `after`, with or without `x` in front of it. */
  lemma RegroupLast<T>(before: seq<T>, x: T, after: seq<T>)
    requires after != []
    ensures before + [x] + after == (before + [x] + after[..|after| - 1]) + [after[|after| - 1]]
    ensures before + after == (before + after[..|after| - 1]) + [after[|after| - 1]]
  {
    assert after == after[..|after| - 1] + [after[|after| - 1]];
  }

  /** An empty token matches the optional group and is skipped wherever it appears. */
  lemma {:induction false} EmptyTokenSkipped(keys: set<string>, before: seq<Option<string>>, after: seq<Option<string>>)
    ensures SortMapOf(keys, before + [Some("")] + after) == SortMapOf(keys, before + after)
    decreases |after|
  {
    if after == [] {
      assert before + [Some("")] + after == before + [Some("")];
      assert before + after == before;
      SortMapSnoc(keys, before, Some(""));
    } else {
      var n := |after|;
      var init, last := after[..n - 1], after[n - 1];
      EmptyTokenSkipped(keys, before, init);
      RegroupLast(before, Some(""), after);
      SortMapSnocCongruent(keys, before + [Some("")] + init, before + init, last);
    }
  }

  /** `field.direction` with a literal dot puts the field with its upper-cased direction. */
  lemma DotToken(keys: set<string>, m: map<string, string>, f: string, d: string)
    requires f in ConfiguredFields(keys) && '.' !in f && IsDirection(d)
    ensures Put(keys, m, Some(f + "." + d)) == Success(m[f := ToUpper(d)])
  {
    SortTokenShape(ConfiguredFields(keys), f, '.', d);
    assert f + "." + d == f + ['.'] + d;
    SplitPair(f, d, '.');
  }

  /** A separator other than `.` passes the pattern, but the split leaves no second piece: the index is out of bounds. */
  lemma OtherSeparatorToken(keys: set<string>, m: map<string, string>, f: string, c: char, d: string)
    requires f in ConfiguredFields(keys) && '.' !in f && c != '.' && !IsLineTerminator(c) && IsDirection(d)
    ensures Put(keys, m, Some(f + [c] + d)) == Failure(IndexOutOfBounds)
  {
    SortTokenShape(ConfiguredFields(keys), f, c, d);
    var s := f + [c] + d;
    assert forall x :: x in s ==> x in f || x == c || x in d;
    SplitAbsent(s, '.');
  }

  /** `getSortMap`'s validator with its configuration fixed at construction. */
  class GiftCertificateSortMap {
    /** A private copy of the configuration: changes to the caller's map never reach it. */
    const configMap: map<string, string>
    const sortPattern: string

    /**
     * `keyOrder` is the order in which the configuration's `keySet()` is
     * iterated; the pattern lists the keys in that order.
     */
    constructor (source: JavaMap, keyOrder: seq<string>)
      requires ListsKeys(keyOrder, source.entries)
      ensures configMap == source.entries
      ensures sortPattern == PatternOf(keyOrder)
      ensures (forall k :: k in configMap ==> '|' !in k) ==>
        (set a | a in Alternatives(sortPattern)) == ConfiguredFields(configMap.Keys)
    {
      configMap := source.entries;
      // `keySet().forEach(joiner::add)` adds every key to the joiner in iteration order
      sortPattern := Joined(PATTERN_PREFIX, PATTERN_DELIMITER, PATTERN_SUFFIX, keyOrder);
      if forall k :: k in source.entries ==> '|' !in k {
        PatternAlternatives(keyOrder, source.entries);
      }
    }

    /** `getConfigMap`: a new map with the configuration's entries. */
    method GetConfigMap() returns (r: JavaMap)
      ensures fresh(r) && r.entries == configMap
    {
      r := new JavaMap(configMap);
    }

    /** `getSortMap`: an empty map for a null list, else the fold of the tokens. */
    method GetSortMap(sortBy: Option<seq<Option<string>>>) returns (r: Outcome<map<string, string>>)
      ensures sortBy.None? ==> r == Success(map[])
      ensures sortBy.Some? ==> r == SortMapOf(configMap.Keys, sortBy.value)
    {
      var sortMap: map<string, string> := map[];
      if sortBy.None? {
        return Success(sortMap);
      }
      var tokens := sortBy.value;
      var keys := configMap.Keys;
      for i := 0 to |tokens|
        invariant SortMapOf(keys, tokens[..i]) == Success(sortMap)
      {
        assert tokens[..i + 1][..i] == tokens[..i];
        var s := tokens[i];
        if s.None? || !MatchesConfiguredPattern(keys, s.value) {
          SortMapPrefixFailure(keys, tokens, i + 1);
          return Failure(InvalidSortRequest(None));
        }
        if s.value != "" {
          var sortByPair := Split(s.value, '.');
          if |sortByPair| < 2 {
            SortMapPrefixFailure(keys, tokens, i + 1);
            return Failure(IndexOutOfBounds);
          }
          sortMap := sortMap[sortByPair[0] := ToUpper(sortByPair[1])];
        }
      }
      assert tokens[..|tokens|] == tokens;
      r := Success(sortMap);
    }
  }

  /** A failure on a prefix of the tokens is the failure of the whole list. */
  lemma {:induction false} SortMapPrefixFailure(keys: set<string>, tokens: seq<Option<string>>, k: nat)
    requires k <= |tokens| && SortMapOf(keys, tokens[..k]).Failure?
    ensures SortMapOf(keys, tokens) == SortMapOf(keys, tokens[..k])
    decreases |tokens| - k
  {
    if k < |tokens| {
      assert tokens[..k + 1][..k] == tokens[..k];
      SortMapPrefixFailure(keys, tokens, k + 1);
    } else {
      assert tokens[..k] == tokens;
    }
  }
}
