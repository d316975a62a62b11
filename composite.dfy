/**
 * The composite store `importStores` (pkg/handlers/import.go): an ordered
 * list of stores consulted in list order, the first hit winning.
 */
module Composite {
  import opened Imports
  import JsonStore
  import DnsStore

  /** The two store variants the server is built from. */
  datatype Store = JSON(json: JsonStore.JSONStore) | DNS(dns: DnsStore.DNSImportStore)
  {
    /** The `Lookup` of the `ImportStore` interface: dispatch to the variant's own lookup. */
    method Lookup(u: URL) returns (r: LookupResult)
      requires JSON? ==> json.src.Valid()
      modifies if JSON? then {json.src} else {}
      ensures r == Answer(this, u)
      ensures JSON? ==> json.src.Valid() && json.src.calls == old(json.src.calls) + 1
      ensures JSON? ==> json.src.acquired - json.src.released == old(json.src.acquired - json.src.released)
    {
      match this
      case JSON(j) => r := j.Lookup(u);
      case DNS(d) => r := d.Lookup(u);
    }
  }

  /** Every file-backed member of the list reads through one of `sources`. */
  predicate Covers(stores: seq<Store>, sources: set<JsonStore.Source>)
  {
    stores == [] || ((stores[0].JSON? ==> stores[0].json.src in sources) && Covers(stores[1..], sources))
  }

  /** Covers, member by member. */
  lemma {:induction false} CoversAt(stores: seq<Store>, sources: set<JsonStore.Source>, i: nat)
    requires Covers(stores, sources) && i < |stores| && stores[i].JSON?
    ensures stores[i].json.src in sources
  {
    if i > 0 {
      CoversAt(stores[1..], sources, i - 1);
    }
  }

  /** A larger set of sources still covers the list. */
  lemma {:induction false} CoversMore(stores: seq<Store>, sources: set<JsonStore.Source>, more: set<JsonStore.Source>)
    requires Covers(stores, sources) && sources <= more
    ensures Covers(stores, more)
  {
    if stores != [] {
      CoversMore(stores[1..], sources, more);
    }
  }

  /** The sources behind the file-backed members of a store list. */
  function Sources(stores: seq<Store>): (r: set<JsonStore.Source>)
    ensures Covers(stores, r)
  {
    if stores == [] then {}
    else
      var rest := Sources(stores[1..]);
      var r := (if stores[0].JSON? then {stores[0].json.src} else {}) + rest;
      CoversMore(stores[1..], rest, r);
      r
  }

  ghost predicate AllValid(sources: set<JsonStore.Source>)
    reads sources
  {
    forall s :: s in sources ==> s.Valid()
  }

  /** What one member answers for `u`: a hit on the key, a panic, or `(Import{}, false)`. */
  function Answer(s: Store, u: URL): (r: LookupResult)
    ensures r.Return? && r.ok ==> r.imp.prefix == Key(u)
    ensures r.Return? && !r.ok ==> r == Miss
  {
    match s
    case JSON(j) => JsonStore.Answer(j.src.data, u)
    case DNS(d) => DnsStore.Answer(d.resolver, u)
  }

  /** What every member answers for `u`, in list order. */
  function Answers(stores: seq<Store>, u: URL): (r: seq<LookupResult>)
    ensures |r| == |stores|
    ensures forall k :: 0 <= k < |stores| ==> r[k] == Answer(stores[k], u)
  {
    if stores == [] then []
    else [Answer(stores[0], u)] + Answers(stores[1..], u)
  }

  /** The first answer that settles (a hit or a panic), else a miss. */
  function FirstSettled(answers: seq<LookupResult>): (r: LookupResult)
    ensures r.Settles() ==> r in answers
    ensures !r.Settles() ==> r == Miss
  {
    if answers == [] then Miss
    else if answers[0].Settles() then answers[0]
    else FirstSettled(answers[1..])
  }

  /** How many answers are asked for: up to and including the first that settles. */
  function Asked(answers: seq<LookupResult>): (n: nat)
    ensures n <= |answers|
  {
    if answers == [] then 0
    else if answers[0].Settles() then 1
    else 1 + Asked(answers[1..])
  }

  /** The answer of the composite: the first member answer that is a hit (or a panic), else a miss. */
  function FirstHit(stores: seq<Store>, u: URL): (r: LookupResult)
    ensures r.Settles() ==> exists i :: 0 <= i < |stores| && Answer(stores[i], u) == r
    ensures !r.Settles() ==> r == Miss
    ensures r.Return? && r.ok ==> r.imp.prefix == Key(u)
  {
    FirstSettled(Answers(stores, u))
  }

  /**
   * `importStores.Lookup`: ask each member in order and return the first hit;
   * a member's panic unwinds out of the loop. `consulted` counts the members
   * called: exactly those up to the one that settles. No member leaves a
   * stream unreleased.
   */
  method Lookup(stores: seq<Store>, ghost sources: set<JsonStore.Source>, u: URL) returns (r: LookupResult, ghost consulted: nat)
    requires Covers(stores, sources) && AllValid(sources)
    modifies sources
    ensures r == FirstHit(stores, u)
    ensures consulted == Asked(Answers(stores, u))
    ensures AllValid(sources)
    ensures forall s :: s in sources ==> s.acquired - s.released == old(s.acquired - s.released)
  {
    var i := 0;
    while i < |stores|
      invariant 0 <= i <= |stores|
      invariant AllValid(sources)
      invariant forall s :: s in sources ==> s.acquired - s.released == old(s.acquired - s.released)
      invariant NoneSettles(stores, u, i)
    {
      if stores[i].JSON? {
        CoversAt(stores, sources, i);
      }
      var a := stores[i].Lookup(u);
      forall s | s in sources
        ensures s.Valid() && s.acquired - s.released == old(s.acquired - s.released)
      {
      }
      if a.Settles() {
        NoneSettlesAll(stores, u, i);
        FirstHitIsFirstSettling(stores, u, i);
        r, consulted := a, i + 1;
        return;
      }
      i := i + 1;
    }
    NoneSettleMiss(stores, u);
    r, consulted := Miss, |stores|;
  }

  /** None of the first n members settles. */
  predicate NoneSettles(stores: seq<Store>, u: URL, n: nat)
    requires n <= |stores|
  {
    n == 0 || (NoneSettles(stores, u, n - 1) && !Answer(stores[n - 1], u).Settles())
  }

  /** When no member settles, the composite misses after asking every member. */
  lemma NoneSettleMiss(stores: seq<Store>, u: URL)
    requires NoneSettles(stores, u, |stores|)
    ensures FirstHit(stores, u) == Miss && Asked(Answers(stores, u)) == |stores|
  {
    NoneSettlesAll(stores, u, |stores|);
    AllMiss(stores, u);
  }

  /** NoneSettles spelled out member by member. */
  lemma {:induction false} NoneSettlesAll(stores: seq<Store>, u: URL, n: nat)
    requires n <= |stores| && NoneSettles(stores, u, n)
    ensures forall j :: 0 <= j < n ==> !Answer(stores[j], u).Settles()
  {
    if n > 0 {
      NoneSettlesAll(stores, u, n - 1);
      forall j | 0 <= j < n
        ensures !Answer(stores[j], u).Settles()
      {
        if j < n - 1 {
        }
      }
    }
  }

  /** A member that does not settle answers exactly `(Import{}, false)`. */
  lemma MemberMissIsMiss(s: Store, u: URL)
    ensures !Answer(s, u).Settles() ==> Answer(s, u) == Miss
  {
    match s
    case JSON(j) =>
      if j.src.data.Stream? && j.src.data.decoded.Some? {
        JsonStore.ScanRecordsMiss(j.src.data.decoded.value, u);
      }
    case DNS(d) =>
      if u.host in d.resolver {
        DnsStore.ScanTxtMiss(d.resolver[u.host], Key(u));
      }
  }

  /** The first settling answer is the one returned, and the answers after it are not asked for. */
  lemma {:induction false} FirstSettledAt(answers: seq<LookupResult>, i: nat)
    requires i < |answers| && answers[i].Settles()
    requires forall j :: 0 <= j < i ==> !answers[j].Settles()
    ensures FirstSettled(answers) == answers[i]
    ensures Asked(answers) == i + 1
  {
    if i > 0 {
      assert !answers[0].Settles();
      var tail := answers[1..];
      forall j | 0 <= j < i - 1
        ensures !tail[j].Settles()
      {
        assert tail[j] == answers[j + 1];
      }
      FirstSettledAt(tail, i - 1);
    }
  }

  /**
   * When every answer that does not settle is a miss, the first settled
   * answer is a miss exactly when all answers are, and it is a miss whenever
   * it does not settle.
   */
  lemma {:induction false} FirstSettledMiss(answers: seq<LookupResult>)
    requires forall k :: 0 <= k < |answers| && !answers[k].Settles() ==> answers[k] == Miss
    ensures FirstSettled(answers) == Miss <==> forall j :: 0 <= j < |answers| ==> answers[j] == Miss
    ensures !FirstSettled(answers).Settles() ==> FirstSettled(answers) == Miss
  {
    if answers != [] {
      var tail := answers[1..];
      forall k | 0 <= k < |tail| && !tail[k].Settles()
        ensures tail[k] == Miss
      {
        assert tail[k] == answers[k + 1];
      }
      FirstSettledMiss(tail);
      if !answers[0].Settles() {
        forall j | 0 < j < |answers|
          ensures answers[j] == tail[j - 1]
        {
        }
      }
    }
  }

  /** Answers appended behind a list that already settles change nothing. */
  lemma {:induction false} FirstSettledIgnoresLater(answers: seq<LookupResult>, later: seq<LookupResult>)
    requires FirstSettled(answers).Settles()
    ensures FirstSettled(answers + later) == FirstSettled(answers)
  {
    assert answers != [];
    assert (answers + later)[0] == answers[0];
    if !answers[0].Settles() {
      assert (answers + later)[1..] == answers[1..] + later;
      FirstSettledIgnoresLater(answers[1..], later);
    }
  }

  /**
   * The composite answers what the first settling member answers, and asks
   * exactly the members up to it.
   */
  lemma FirstHitIsFirstSettling(stores: seq<Store>, u: URL, i: nat)
    requires i < |stores| && Answer(stores[i], u).Settles()
    requires forall j :: 0 <= j < i ==> !Answer(stores[j], u).Settles()
    ensures FirstHit(stores, u) == Answer(stores[i], u)
    ensures Asked(Answers(stores, u)) == i + 1
  {
    FirstSettledAt(Answers(stores, u), i);
  }

  /**
   * The composite misses exactly when every member misses; an empty list
   * always misses, and a miss is always `(Import{}, false)`.
   */
  lemma FirstHitMiss(stores: seq<Store>, u: URL)
    ensures FirstHit(stores, u) == Miss <==> forall j :: 0 <= j < |stores| ==> Answer(stores[j], u) == Miss
    ensures !FirstHit(stores, u).Settles() ==> FirstHit(stores, u) == Miss
  {
    forall k | 0 <= k < |stores| {
      MemberMissIsMiss(stores[k], u);
    }
    FirstSettledMiss(Answers(stores, u));
  }

  /** When no member settles, the composite misses after asking every member. */
  lemma AllMiss(stores: seq<Store>, u: URL)
    requires forall j :: 0 <= j < |stores| ==> !Answer(stores[j], u).Settles()
    ensures FirstHit(stores, u) == Miss && Asked(Answers(stores, u)) == |stores|
  {
    FirstHitMiss(stores, u);
    forall j | 0 <= j < |stores| {
      MemberMissIsMiss(stores[j], u);
    }
    AskedAll(Answers(stores, u));
  }

  /** An answer list none of whose answers settles is asked in full. */
  lemma {:induction false} AskedAll(answers: seq<LookupResult>)
    requires forall j :: 0 <= j < |answers| ==> !answers[j].Settles()
    ensures Asked(answers) == |answers|
  {
    if answers != [] {
      AskedAll(answers[1..]);
    }
  }

  /** Members appended behind a list that already settles change nothing. */
  lemma FirstHitIgnoresLater(stores: seq<Store>, later: seq<Store>, u: URL)
    requires FirstHit(stores, u).Settles()
    ensures FirstHit(stores + later, u) == FirstHit(stores, u)
  {
    AnswersAppend(stores, later, u);
    FirstSettledIgnoresLater(Answers(stores, u), Answers(later, u));
  }

  /** The answers of two lists one after the other are the answers of the joined list. */
  lemma {:induction false} AnswersAppend(stores: seq<Store>, later: seq<Store>, u: URL)
    ensures Answers(stores + later, u) == Answers(stores, u) + Answers(later, u)
  {
    if stores != [] {
      var all := stores + later;
      assert all[0] == stores[0] && all[1..] == stores[1..] + later;
      AnswersAppend(stores[1..], later, u);
      assert Answers(all, u) == [Answer(stores[0], u)] + Answers(all[1..], u);
    }
  }
}
