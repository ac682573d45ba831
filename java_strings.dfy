/**
 * The few `java.lang.String` and `java.util.StringJoiner` operations the core
 * relies on, written out over `seq<char>`: joining with a delimiter,
 * `replaceFirst` and `split` with the one-character pattern `\\.`,
 * upper-casing, and counting the `?` placeholders of statement text.
 */
module JavaStrings {

  /** `String.join(delim, parts)`: the parts with `delim` between neighbours. */
  function Join(delim: string, parts: seq<string>): string
    decreases |parts|
  {
    if |parts| == 0 then ""
    else if |parts| == 1 then parts[0]
    else Join(delim, parts[..|parts| - 1]) + delim + parts[|parts| - 1]
  }

  /** `new StringJoiner(delim, prefix, suffix)` after adding `parts` (at least one). */
  function Joined(prefix: string, delim: string, suffix: string, parts: seq<string>): string {
    prefix + Join(delim, parts) + suffix
  }

  /** A joiner over two parts: the prefix, the first part, the delimiter, the second part, the suffix. */
  lemma JoinedPair(prefix: string, delim: string, suffix: string, a: string, b: string)
    ensures Joined(prefix, delim, suffix, [a, b]) == prefix + a + delim + b + suffix
  {
    assert [a, b][..1] == [a];
    assert Join(delim, [a, b]) == a + delim + b;
  }

  /** `n` copies of `s`. */
  function Repeat(s: string, n: nat): (r: seq<string>)
    ensures |r| == n && forall i :: 0 <= i < n ==> r[i] == s
  {
    seq(n, _ => s)
  }

  /** The number of `?` characters in `s`: the placeholders JDBC will bind. */
  function Placeholders(s: string): nat
    decreases |s|
  {
    if s == [] then 0 else Placeholders(s[..|s| - 1]) + (if s[|s| - 1] == '?' then 1 else 0)
  }

  lemma {:induction false} PlaceholdersAppend(a: string, b: string)
    ensures Placeholders(a + b) == Placeholders(a) + Placeholders(b)
    decreases |b|
  {
    if b == [] {
      assert a + b == a;
    } else {
      var b' := b[..|b| - 1];
      assert (a + b)[..|a + b| - 1] == a + b';
      PlaceholdersAppend(a, b');
    }
  }

  lemma {:induction false} NoPlaceholders(s: string)
    requires '?' !in s
    ensures Placeholders(s) == 0
    decreases |s|
  {
    if s != [] {
      assert s[|s| - 1] in s;
      assert forall c :: c in s[..|s| - 1] ==> c in s;
      NoPlaceholders(s[..|s| - 1]);
    }
  }

  /** Two texts without a `?` make a text without placeholders. */
  lemma CleanPair(a: string, b: string)
    requires '?' !in a && '?' !in b
    ensures Placeholders(a + b) == 0
  {
    NoPlaceholders(a);
    CleanAppend(a, b);
  }

  /** Appending a text without a `?` to a text without placeholders keeps it without placeholders. */
  lemma CleanAppend(a: string, b: string)
    requires Placeholders(a) == 0 && '?' !in b
    ensures Placeholders(a + b) == 0
  {
    NoPlaceholders(b);
    PlaceholdersAppend(a, b);
  }

  lemma OnePlaceholder()
    ensures Placeholders("?") == 1
  {
    assert "?"[..0] == [];
  }

  /** The total number of placeholders over a list of fragments. */
  function SumPlaceholders(parts: seq<string>): nat
    decreases |parts|
  {
    if parts == [] then 0 else SumPlaceholders(parts[..|parts| - 1]) + Placeholders(parts[|parts| - 1])
  }

  /** A joined text has the placeholders of its parts, when the delimiter has none. */
  lemma {:induction false} PlaceholdersJoin(delim: string, parts: seq<string>)
    requires Placeholders(delim) == 0
    ensures Placeholders(Join(delim, parts)) == SumPlaceholders(parts)
    decreases |parts|
  {
    if |parts| == 1 {
      assert parts[..0] == [];
    } else if |parts| > 1 {
      var init := parts[..|parts| - 1];
      PlaceholdersJoin(delim, init);
      PlaceholdersAppend(Join(delim, init), delim);
      PlaceholdersAppend(Join(delim, init) + delim, parts[|parts| - 1]);
    }
  }

  /** Fragments without placeholders add up to none. */
  lemma {:induction false} SumPlaceholdersNone(parts: seq<string>)
    requires forall i :: 0 <= i < |parts| ==> Placeholders(parts[i]) == 0
    ensures SumPlaceholders(parts) == 0
    decreases |parts|
  {
    if parts != [] {
      var init := parts[..|parts| - 1];
      assert forall i :: 0 <= i < |init| ==> init[i] == parts[i];
      SumPlaceholdersNone(init);
    }
  }

  lemma {:induction false} SumPlaceholdersRepeat(s: string, n: nat)
    ensures SumPlaceholders(Repeat(s, n)) == n * Placeholders(s)
    decreases n
  {
    if n > 0 {
      assert Repeat(s, n)[..n - 1] == Repeat(s, n - 1);
      SumPlaceholdersRepeat(s, n - 1);
    }
  }

  /** `s.replaceFirst(from, to)` for a pattern that is one literal character. */
  function ReplaceFirst(s: string, from: char, to: char): (r: string)
    decreases |s|
  {
    if s == [] then []
    else if s[0] == from then [to] + s[1..]
    else [s[0]] + ReplaceFirst(s[1..], from, to)
  }

  /** Replacing skips over a prefix that does not contain the character. */
  lemma {:induction false} ReplaceFirstAfter(f: string, rest: string, from: char, to: char)
    requires from !in f
    ensures ReplaceFirst(f + rest, from, to) == f + ReplaceFirst(rest, from, to)
    decreases |f|
  {
    if f != [] {
      assert (f + rest)[0] == f[0] && f[0] in f;
      assert (f + rest)[1..] == f[1..] + rest;
      assert forall c :: c in f[1..] ==> c in f;
      ReplaceFirstAfter(f[1..], rest, from, to);
      assert [f[0]] + (f[1..] + ReplaceFirst(rest, from, to)) == f + ReplaceFirst(rest, from, to);
    } else {
      assert f + rest == rest;
    }
  }

  lemma {:induction false} ReplaceFirstAbsent(s: string, from: char, to: char)
    requires from !in s
    ensures ReplaceFirst(s, from, to) == s
    decreases |s|
  {
    if s != [] {
      assert forall c :: c in s[1..] ==> c in s;
      ReplaceFirstAbsent(s[1..], from, to);
    }
  }

  /** Every piece between occurrences of `sep`, empty pieces included. */
  function SplitAll(s: string, sep: char): (r: seq<string>)
    ensures |r| >= 1
    decreases |s|
  {
    if s == [] then [""]
    else if s[0] == sep then [""] + SplitAll(s[1..], sep)
    else var rest := SplitAll(s[1..], sep); [[s[0]] + rest[0]] + rest[1..]
  }

  /** Drops the trailing empty strings, as `String.split` with limit 0 does. */
  function DropTrailingEmpty(parts: seq<string>): (r: seq<string>)
    ensures |r| <= |parts| && r == parts[..|r|]
    decreases |parts|
  {
    if parts == [] then []
    else if parts[|parts| - 1] == "" then DropTrailingEmpty(parts[..|parts| - 1])
    else parts
  }

  /**
   * `s.split(regex)` for a regex that matches the single character `sep`:
   * the input itself when `sep` does not occur, otherwise the pieces with the
   * trailing empty ones removed.
   */
  function Split(s: string, sep: char): seq<string> {
    if sep !in s then [s] else DropTrailingEmpty(SplitAll(s, sep))
  }

  lemma {:induction false} SplitAllAbsent(s: string, sep: char)
    requires sep !in s
    ensures SplitAll(s, sep) == [s]
    decreases |s|
  {
    if s != [] {
      assert forall c :: c in s[1..] ==> c in s;
      SplitAllAbsent(s[1..], sep);
      assert [s[0]] + s[1..] == s;
    }
  }

  lemma {:induction false} SplitAllPair(f: string, d: string, sep: char)
    requires sep !in f && sep !in d
    ensures SplitAll(f + [sep] + d, sep) == [f, d]
    decreases |f|
  {
    if f == [] {
      assert f + [sep] + d == [sep] + d;
      assert ([sep] + d)[1..] == d;
      SplitAllAbsent(d, sep);
    } else {
      var s := f + [sep] + d;
      assert s[0] == f[0];
      assert s[1..] == f[1..] + [sep] + d;
      assert forall c :: c in f[1..] ==> c in f;
      SplitAllPair(f[1..], d, sep);
      assert [f[0]] + f[1..] == f;
    }
  }

  /** A token `f` + sep + `d` with no other separator splits into exactly `[f, d]`. */
  lemma SplitPair(f: string, d: string, sep: char)
    requires sep !in f && sep !in d && d != ""
    ensures Split(f + [sep] + d, sep) == [f, d]
  {
    assert (f + [sep] + d)[|f|] == sep;
    SplitAllPair(f, d, sep);
  }

  /** Without the separator the split is the whole token: there is no second piece. */
  lemma SplitAbsent(s: string, sep: char)
    requires sep !in s
    ensures Split(s, sep) == [s]
  {
  }

  /** One more character in front: a separator opens an empty piece, anything else extends the first piece. */
  lemma SplitAllCons(c: char, t: string, sep: char)
    ensures SplitAll([c] + t, sep) ==
      if c == sep then [""] + SplitAll(t, sep) else [[c] + SplitAll(t, sep)[0]] + SplitAll(t, sep)[1..]
  {
    assert ([c] + t)[0] == c && ([c] + t)[1..] == t;
  }

  /** An empty piece in front of some pieces followed by more pieces. */
  lemma OpenPiece(left: seq<string>, right: seq<string>)
    ensures [""] + (left + right) == ([""] + left) + right
  {
  }

  /** Extending the first of some pieces followed by more pieces touches only the first ones. */
  lemma ExtendFirstPiece(pre: string, left: seq<string>, right: seq<string>)
    requires left != []
    ensures [pre + (left + right)[0]] + (left + right)[1..] == ([pre + left[0]] + left[1..]) + right
  {
    var rest := left + right;
    assert rest[0] == left[0];
    assert rest[1..] == left[1..] + right;
  }

  /** Splitting at one separator splits each side independently. */
  lemma {:induction false} SplitAllAround(a: string, b: string, sep: char)
    ensures SplitAll(a + [sep] + b, sep) == SplitAll(a, sep) + SplitAll(b, sep)
    decreases |a|
  {
    if a == [] {
      assert a + [sep] + b == [sep] + b;
      SplitAllCons(sep, b, sep);
    } else {
      var c, tail := a[0], a[1..];
      assert a == [c] + tail;
      assert a + [sep] + b == [c] + (tail + [sep] + b);
      SplitAllAround(tail, b, sep);
      SplitAllCons(c, tail + [sep] + b, sep);
      SplitAllCons(c, tail, sep);
      var left, right := SplitAll(tail, sep), SplitAll(b, sep);
      if c == sep {
        OpenPiece(left, right);
      } else {
        ExtendFirstPiece([c], left, right);
      }
    }
  }

  /** Splitting a join at its one-character delimiter gives back the parts, when no part holds the delimiter. */
  lemma {:induction false} SplitAllJoin(parts: seq<string>, sep: char)
    requires parts != []
    requires forall i :: 0 <= i < |parts| ==> sep !in parts[i]
    ensures SplitAll(Join([sep], parts), sep) == parts
    decreases |parts|
  {
    var last := parts[|parts| - 1];
    SplitAllAbsent(last, sep);
    if |parts| > 1 {
      var init := parts[..|parts| - 1];
      SplitAllJoin(init, sep);
      SplitAllAround(Join([sep], init), last, sep);
    }
  }

  /** `Character.toUpperCase` on the ASCII letters. */
  function UpperChar(c: char): char {
    if 'a' <= c <= 'z' then (c as int - 32) as char else c
  }

  /** `String.toUpperCase`, letter by letter on ASCII. */
  function ToUpper(s: string): (r: string)
    ensures |r| == |s| && forall i :: 0 <= i < |s| ==> r[i] == UpperChar(s[i])
  {
    seq(|s|, i requires 0 <= i < |s| => UpperChar(s[i]))
  }

  /** `String.equalsIgnoreCase`, with ASCII case folding. */
  predicate EqualsIgnoreCase(a: string, b: string) {
    ToUpper(a) == ToUpper(b)
  }
}
