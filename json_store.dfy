/**
 * The file-backed store (pkg/handlers/json_store.go): on every lookup it asks
 * its source function for a stream, decodes a JSON array of Import records
 * from it, releases the stream, and returns the first record whose prefix is
 * the key `host + path`.
 */
module JsonStore {
  import opened Wrappers
  import opened Imports

  /**
   * What one call of the source function yields: an open error, or a stream
   * (with its release action) whose JSON decodes to an array of records or
   * fails to decode.
   */
  datatype Yield = OpenError | Stream(decoded: Option<seq<Import>>)

  /** 1 when the call acquires a stream that must be released, 0 otherwise. */
  function Acquires(y: Yield): nat
  {
    if y.Stream? then 1 else 0
  }

  /**
   * The source function `src` together with the streams it hands out. What it
   * yields is fixed for the source's lifetime; the counters record how often
   * it was called, how many streams it handed out and how many release
   * actions ran.
   */
  class Source {
    const data: Yield
    var calls: nat
    var acquired: nat
    var released: nat

    /** No stream is released more often than one was handed out. */
    ghost predicate Valid()
      reads this
    {
      released <= acquired
    }

    constructor (data: Yield)
      ensures Valid() && this.data == data
      ensures calls == 0 && acquired == 0 && released == 0
    {
      this.data := data;
      calls, acquired, released := 0, 0, 0;
    }

    /** One call of `src`: it yields its data and, on success, hands out a stream. */
    method Open() returns (y: Yield)
      requires Valid()
      modifies this
      ensures Valid() && y == data
      ensures calls == old(calls) + 1
      ensures acquired == old(acquired) + Acquires(y)
      ensures released == old(released)
    {
      y := data;
      calls := calls + 1;
      acquired := acquired + Acquires(y);
    }

    /** The release action returned with a stream. */
    method Cleanup()
      requires Valid() && released < acquired
      modifies this
      ensures Valid() && calls == old(calls) && acquired == old(acquired)
      ensures released == old(released) + 1
    {
      released := released + 1;
    }
  }

  /**
   * `matchRecord`: exact, case-sensitive equality of the prefix with
   * `host + path`. A `{}` hole matches exactly the URL with empty host and path.
   */
  predicate MatchRecord(u: URL, rec: Import): (r: bool)
    ensures rec.prefix == "" ==> (r <==> u.host == "" && u.path == "")
  {
    rec.prefix == Key(u)
  }

  /** The answer of the record loop: the first matching record, unmodified, in array order. */
  function ScanRecords(recs: seq<Import>, u: URL): (r: LookupResult)
    ensures r.Return?
    ensures r.ok ==> r.imp in recs && r.imp.prefix == Key(u)
    ensures !r.ok ==> r == Miss
  {
    if recs == [] then Miss
    else if MatchRecord(u, recs[0]) then Hit(recs[0])
    else ScanRecords(recs[1..], u)
  }

  /** The answer of a lookup against what the source yields: a miss on any open or decode error. */
  function Answer(y: Yield, u: URL): (r: LookupResult)
    ensures y.OpenError? || y.decoded.None? ==> r == Miss
    ensures r.Return?
    ensures r.ok ==> r.imp.prefix == Key(u)
    ensures !r.ok ==> r == Miss
  {
    match y
    case OpenError => Miss
    case Stream(None) => Miss
    case Stream(Some(recs)) => ScanRecords(recs, u)
  }

  class JSONStore {
    const src: Source

    /** `NewJSONStore`: a store reading through `src` on every lookup. */
    constructor NewJSONStore(src: Source)
      ensures this.src == src
    {
      this.src := src;
    }

    /**
     * `Lookup`: call the source once; on an open error return a miss without
     * releasing anything; otherwise decode and scan, and release the stream
     * exactly once on each of the three ways out (decode error, match, no
     * match), as the deferred `cleanup` does.
     */
    method Lookup(u: URL) returns (r: LookupResult)
      requires src.Valid()
      modifies src
      ensures r == Answer(src.data, u)
      ensures r.Return? && (r.ok ==> r.imp.prefix == Key(u)) && (!r.ok ==> r == Miss)
      ensures src.Valid() && src.calls == old(src.calls) + 1
      ensures src.acquired == old(src.acquired) + Acquires(src.data)
      ensures src.released == old(src.released) + Acquires(src.data)
    {
      var y := src.Open();
      if y.OpenError? {
        return Miss;
      }
      // from here on every return runs the deferred release first
      if y.decoded.None? {
        src.Cleanup();
        return Miss;
      }
      var recs := y.decoded.value;
      for i := 0 to |recs|
        invariant src.Valid() && src.calls == old(src.calls) + 1
        invariant src.acquired == old(src.acquired) + 1 && src.released == old(src.released)
        invariant ScanRecords(recs, u) == ScanRecords(recs[i..], u)
      {
        assert recs[i..][0] == recs[i] && recs[i..][1..] == recs[i + 1..];
        if MatchRecord(u, recs[i]) {
          src.Cleanup();
          return Hit(recs[i]);
        }
      }
      src.Cleanup();
      return Miss;
    }
  }

  /**
   * Two lookups with the same key against unchanged source data give the same
   * answer; each one calls the source again and leaves nothing unreleased.
   */
  method RepeatedLookup(store: JSONStore, u: URL) returns (first: LookupResult, second: LookupResult)
    requires store.src.Valid()
    modifies store.src
    ensures first == second
    ensures store.src.calls == old(store.src.calls) + 2
    ensures store.src.acquired - store.src.released == old(store.src.acquired - store.src.released)
  {
    first := store.Lookup(u);
    second := store.Lookup(u);
  }

  /** The scan returns the first matching record, unmodified. */
  lemma {:induction false} ScanRecordsFirst(recs: seq<Import>, u: URL, i: nat)
    requires i < |recs| && MatchRecord(u, recs[i])
    requires forall j :: 0 <= j < i ==> !MatchRecord(u, recs[j])
    ensures ScanRecords(recs, u) == Hit(recs[i])
  {
    if i > 0 {
      assert !MatchRecord(u, recs[0]);
      forall j | 0 <= j < i - 1
        ensures !MatchRecord(u, recs[1..][j])
      {
        assert recs[1..][j] == recs[j + 1];
      }
      ScanRecordsFirst(recs[1..], u, i - 1);
    }
  }

  /**
   * The scan misses exactly when no record matches; any hit is a record of
   * the array whose prefix is the key, and a miss is always `(Import{}, false)`.
   */
  lemma {:induction false} ScanRecordsMiss(recs: seq<Import>, u: URL)
    ensures ScanRecords(recs, u) == Miss <==> forall j :: 0 <= j < |recs| ==> !MatchRecord(u, recs[j])
    ensures ScanRecords(recs, u).Return?
    ensures ScanRecords(recs, u).ok ==> ScanRecords(recs, u).imp in recs && ScanRecords(recs, u).imp.prefix == Key(u)
    ensures !ScanRecords(recs, u).ok ==> ScanRecords(recs, u) == Miss
  {
    if recs != [] {
      ScanRecordsMiss(recs[1..], u);
      if !MatchRecord(u, recs[0]) {
        forall j | 0 < j < |recs|
          ensures recs[j] == recs[1..][j - 1]
        {
        }
      }
    }
  }

  /** The records that are not `{}` holes, i.e. whose prefix is not empty. */
  function WithoutHoles(recs: seq<Import>): (r: seq<Import>)
    ensures forall rec :: rec in r ==> rec in recs && rec.prefix != ""
  {
    if recs == [] then []
    else if recs[0].prefix == "" then WithoutHoles(recs[1..])
    else [recs[0]] + WithoutHoles(recs[1..])
  }

  /**
   * A record with an empty prefix (a `{}` entry) matches only the empty key:
   * for every non-empty key the scan answers as if the holes were absent.
   */
  lemma {:induction false} HolesSkippedForNonEmptyKey(recs: seq<Import>, u: URL)
    requires Key(u) != ""
    ensures ScanRecords(recs, u) == ScanRecords(WithoutHoles(recs), u)
  {
    if recs != [] {
      HolesSkippedForNonEmptyKey(recs[1..], u);
      if recs[0].prefix != "" {
        var r := [recs[0]] + WithoutHoles(recs[1..]);
        assert r[0] == recs[0] && r[1..] == WithoutHoles(recs[1..]);
      }
    }
  }

  /** Only host and path take part in matching: scheme and query never change the answer. */
  lemma AnswerIgnoresSchemeAndQuery(y: Yield, u: URL, scheme: string, goGet: string)
    ensures Answer(y, u.(scheme := scheme, goGet := goGet)) == Answer(y, u)
  {
    assert Key(u.(scheme := scheme, goGet := goGet)) == Key(u);
    if y.Stream? && y.decoded.Some? {
      ScanSameKey(y.decoded.value, u, u.(scheme := scheme, goGet := goGet));
    }
  }

  /** The scan depends on the URL only through its key. */
  lemma {:induction false} ScanSameKey(recs: seq<Import>, u: URL, v: URL)
    requires Key(u) == Key(v)
    ensures ScanRecords(recs, u) == ScanRecords(recs, v)
  {
    if recs != [] {
      ScanSameKey(recs[1..], u, v);
    }
  }

  /** The records of pkg/handlers/import_test.go, including the trailing `{}` hole. */
  const TestRecords := [
    Import("example.org/tempusbreve/vanity", "git", "https://github.com/tempusbreve/vanity", ""),
    Import("example.org/tempusbreve/proxy", "git", "https://github.com/tempusbreve/proxy", "https://proxy.golang.org/"),
    Empty
  ]

  /**
   * The empty URL has the empty key, which equals the prefix of the `{}` hole:
   * against the test records the store answers with a hit on `Import{}`.
   */
  lemma EmptyKeyMatchesHole()
    ensures Answer(Stream(Some(TestRecords)), URL("", "", "", "")) == Hit(Empty)
  {
    ScanRecordsFirst(TestRecords, URL("", "", "", ""), 2);
  }
}
