/**
 * The three operations of Go's `strings` package that the TXT-record parser
 * relies on: `SplitN` with a one-character separator, `HasPrefix` (Dafny's
 * sequence-prefix relation `p <= s`) and `EqualFold`, restricted to ASCII
 * case folding.
 */
module GoStrings {
  import opened Wrappers

  /** Index of the first occurrence of `c` in `s`, if any. */
  function IndexOf(s: string, c: char): (r: Option<nat>)
    ensures r.None? ==> c !in s
    ensures r.Some? ==> r.value < |s| && s[r.value] == c && c !in s[..r.value]
  {
    if s == [] then None
    else if s[0] == c then Some(0)
    else match IndexOf(s[1..], c)
      case None => None
      case Some(i) => assert s[1..][..i] == s[1..i + 1]; Some(i + 1)
  }

  /** The inverse of splitting: the parts glued back together with `sep`. */
  function Join(parts: seq<string>, sep: char): string
    requires |parts| >= 1
  {
    if |parts| == 1 then parts[0] else parts[0] + [sep] + Join(parts[1..], sep)
  }

  /**
   * `strings.SplitN(s, sep, n)` for n >= 1: at most n parts, cut at the first
   * n - 1 occurrences of `sep`; the last part keeps whatever remains,
   * separators included. A string without `sep` gives `[s]`.
   */
  function SplitN(s: string, sep: char, n: nat): (parts: seq<string>)
    requires n >= 1
    ensures 1 <= |parts| <= n
    decreases n
  {
    if n == 1 then [s]
    else match IndexOf(s, sep)
      case None => [s]
      case Some(i) => [s[..i]] + SplitN(s[i + 1..], sep, n - 1)
  }

  /**
   * What SplitN produces: parts that glue back to `s`, every part but the
   * last free of `sep`, and the last one too when fewer than n parts are made.
   */
  lemma SplitNShape(s: string, sep: char, n: nat)
    requires n >= 1
    ensures var parts := SplitN(s, sep, n);
      && Join(parts, sep) == s
      && (forall i :: 0 <= i < |parts| - 1 ==> sep !in parts[i])
      && (|parts| < n ==> sep !in parts[|parts| - 1])
  {
    SplitNJoin(s, sep, n);
    SplitNSepFree(s, sep, n);
  }

  /** One step of SplitN: the part before the first `sep`, then the split of the rest. */
  lemma SplitNCut(s: string, sep: char, n: nat, k: nat)
    requires n >= 2 && IndexOf(s, sep) == Some(k)
    ensures k < |s| && s == s[..k] + [sep] + s[k + 1..] && sep !in s[..k]
    ensures SplitN(s, sep, n) == [s[..k]] + SplitN(s[k + 1..], sep, n - 1)
  {
  }

  /** The parts of SplitN glue back to the string. */
  lemma {:induction false} SplitNJoin(s: string, sep: char, n: nat)
    requires n >= 1
    ensures Join(SplitN(s, sep, n), sep) == s
    decreases n
  {
    if n > 1 && IndexOf(s, sep).Some? {
      var k := IndexOf(s, sep).value;
      SplitNCut(s, sep, n, k);
      SplitNJoin(s[k + 1..], sep, n - 1);
      JoinCons(s[..k], SplitN(s[k + 1..], sep, n - 1), sep);
    }
  }

  /** Every part of SplitN but the last is free of `sep`, and the last too when fewer than n parts are made. */
  lemma {:induction false} SplitNSepFree(s: string, sep: char, n: nat)
    requires n >= 1
    ensures var parts := SplitN(s, sep, n);
      && (forall i :: 0 <= i < |parts| - 1 ==> sep !in parts[i])
      && (|parts| < n ==> sep !in parts[|parts| - 1])
    decreases n
  {
    if n > 1 && IndexOf(s, sep).Some? {
      var k := IndexOf(s, sep).value;
      SplitNCut(s, sep, n, k);
      var rest := SplitN(s[k + 1..], sep, n - 1);
      SplitNSepFree(s[k + 1..], sep, n - 1);
      var parts := [s[..k]] + rest;
      forall i | 0 <= i < |parts| - 1
        ensures sep !in parts[i]
      {
        if i > 0 { assert parts[i] == rest[i - 1]; }
      }
      assert parts[|parts| - 1] == rest[|rest| - 1];
    }
  }

  /** Gluing a part in front of a non-empty list of parts. */
  lemma JoinCons(a: string, rest: seq<string>, sep: char)
    requires |rest| >= 1
    ensures Join([a] + rest, sep) == a + [sep] + Join(rest, sep)
  {
    assert ([a] + rest)[1..] == rest;
  }

  /** Cutting `a + [sep] + b` at the first `sep` gives back `a` when `a` holds no `sep`. */
  lemma IndexOfGlued(a: string, sep: char, b: string)
    requires sep !in a
    ensures IndexOf(a + [sep] + b, sep) == Some(|a|)
  {
    var s := a + [sep] + b;
    assert s[|a|] == sep;
    assert s[..|a|] == a;
  }

  /**
   * SplitN is the only way of cutting `s` into at most n parts that keeps
   * every part but the last free of `sep` (and the last one too when fewer
   * than n parts are made): its result is determined by these properties.
   */
  lemma {:induction false} SplitNUnique(s: string, sep: char, n: nat, parts: seq<string>)
    requires n >= 1 && 1 <= |parts| <= n
    requires Join(parts, sep) == s
    requires forall i :: 0 <= i < |parts| - 1 ==> sep !in parts[i]
    requires |parts| < n ==> sep !in parts[|parts| - 1]
    ensures SplitN(s, sep, n) == parts
    decreases n
  {
    if n == 1 {
    } else if |parts| == 1 {
      SplitNNoSep(s, sep, n);
    } else {
      var head, rest := parts[0], parts[1..];
      forall i | 0 <= i < |rest| - 1
        ensures sep !in rest[i]
      {
        assert rest[i] == parts[i + 1];
      }
      assert rest[|rest| - 1] == parts[|parts| - 1];
      SplitNUnique(Join(rest, sep), sep, n - 1, rest);
      assert parts == [head] + rest;
      SplitNFromTail(head, rest, sep, n);
    }
  }

  /** A string without `sep` is split into itself alone. */
  lemma SplitNNoSep(s: string, sep: char, n: nat)
    requires n >= 1 && sep !in s
    ensures SplitN(s, sep, n) == [s]
  {
    if n > 1 {
      assert IndexOf(s, sep).None?;
    }
  }

  /** A sep-free part glued in front of parts SplitN reproduces is reproduced with them. */
  lemma SplitNFromTail(head: string, rest: seq<string>, sep: char, n: nat)
    requires n >= 2 && |rest| >= 1 && sep !in head
    requires SplitN(Join(rest, sep), sep, n - 1) == rest
    ensures SplitN(Join([head] + rest, sep), sep, n) == [head] + rest
  {
    JoinCons(head, rest, sep);
    SplitNStep(head, sep, Join(rest, sep), n);
  }

  /** Splitting `a + [sep] + tail`, with `a` free of `sep`, cuts off `a` first. */
  lemma SplitNStep(a: string, sep: char, tail: string, n: nat)
    requires sep !in a && n >= 2
    ensures SplitN(a + [sep] + tail, sep, n) == [a] + SplitN(tail, sep, n - 1)
  {
    var s := a + [sep] + tail;
    IndexOfGlued(a, sep, tail);
    assert s[..|a|] == a;
    assert s[|a| + 1..] == tail;
  }

  /** Three parts glued with `sep`. */
  lemma Join3(parts: seq<string>, sep: char)
    requires |parts| == 3
    ensures Join(parts, sep) == parts[0] + [sep] + parts[1] + [sep] + parts[2]
  {
    JoinCons(parts[0], parts[1..], sep);
    assert parts == [parts[0]] + parts[1..];
    JoinCons(parts[1], parts[2..], sep);
    assert parts[1..] == [parts[1]] + parts[2..];
  }

  /** Four parts glued with `sep`. */
  lemma Join4(parts: seq<string>, sep: char)
    requires |parts| == 4
    ensures Join(parts, sep) == parts[0] + [sep] + parts[1] + [sep] + parts[2] + [sep] + parts[3]
  {
    JoinCons(parts[0], parts[1..], sep);
    assert parts == [parts[0]] + parts[1..];
    Join3(parts[1..], sep);
  }

  /** The first part of a split is a prefix of the string that was split. */
  lemma FirstPartIsPrefix(parts: seq<string>, sep: char)
    requires |parts| >= 1
    ensures parts[0] <= Join(parts, sep)
  {
    if |parts| > 1 {
      var rest := [sep] + Join(parts[1..], sep);
      assert Join(parts, sep) == parts[0] + rest;
    }
  }

  /** ASCII lower-casing: 'A'..'Z' map to 'a'..'z', every other character is kept. */
  function Fold(c: char): (d: char)
    ensures !('A' <= d <= 'Z')
    ensures ('a' <= d <= 'z') <==> ('a' <= c <= 'z' || 'A' <= c <= 'Z')
  {
    if 'A' <= c <= 'Z' then (c as int + 32) as char else c
  }

  /** `strings.EqualFold` on ASCII: equal up to letter case. */
  predicate EqualFold(a: string, b: string): (r: bool)
    ensures a == b ==> r
    ensures r ==> |a| == |b|
  {
    |a| == |b| && forall i :: 0 <= i < |a| ==> Fold(a[i]) == Fold(b[i])
  }

  /** Folding is idempotent: a folded character folds to itself. */
  lemma FoldIdempotent(c: char)
    ensures Fold(Fold(c)) == Fold(c)
  {
  }

  /** Equality up to letter case is an equivalence: reflexive, symmetric and transitive. */
  lemma EqualFoldEquivalence(a: string, b: string, c: string)
    ensures EqualFold(a, a)
    ensures EqualFold(a, b) ==> EqualFold(b, a)
    ensures EqualFold(a, b) && EqualFold(b, c) ==> EqualFold(a, c)
  {
  }

  /**
   * When both strings are prefixes of one common string, the case-insensitive
   * test can only succeed on byte-identical strings.
   */
  lemma EqualFoldOfPrefixes(a: string, b: string, s: string)
    requires a <= s && b <= s
    ensures EqualFold(a, b) <==> a == b
  {
    if EqualFold(a, b) {
      assert a == s[..|a|] && b == s[..|b|];
    }
  }
}
