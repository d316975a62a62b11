/**
 * The DNS-backed store (pkg/handlers/dns_store.go): TXT strings of the form
 * `go-import=<prefix> <vcs> <root>[ <proxy>]` published for the request's
 * host, matched against the key `host + path`.
 */
module DnsStore {
  import opened Wrappers
  import opened GoStrings
  import opened Imports

  /** Fewer fields than this after splitting the value on spaces make a record malformed. */
  const MinRecordLength := 3

  /**
   * A TXT resolver, as the strings it answers for each host, in the order it
   * answers them. A host without an entry is answered with an error (the
   * failure, timeout included, of `LookupTXT`).
   */
  type Resolver = map<string, seq<string>>

  /** What the parser makes of one TXT string: skip it, accept it, or panic on it. */
  datatype Verdict = Skip | Accept(imp: Import) | Crash

  /**
   * The checks applied to one TXT string, in the order the loop body applies
   * them. A string equal to `go-import` has no `=`: the split yields one part,
   * the first check passes and the read of the second part is out of range,
   * which panics (`Crash`).
   */
  function ParseTxt(record: string, key: string): (r: Verdict)
    ensures r == Crash ==> record == "go-import"
    ensures r.Accept? ==> r.imp.prefix == key
  {
    var pair := SplitN(record, '=', 2);
    if pair[0] != "go-import" then Skip
    else if |pair| < 2 then Crash
    else ParseValue(pair[1], key)
  }

  /**
   * The checks applied to the value after `go-import=`: it must start with the
   * key, split on spaces into three or four fields, and declare a prefix equal
   * to the key up to letter case. It never panics, and the prefix it accepts
   * is the key itself.
   */
  function ParseValue(value: string, key: string): (r: Verdict)
    ensures r != Crash
    ensures r.Accept? ==> r.imp.prefix == key
  {
    if !(key <= value) then Skip
    else
      var rec := SplitN(value, ' ', 4);
      if |rec| < MinRecordLength then Skip
      else if !EqualFold(rec[0], key) then Skip
      else
        SplitNJoin(value, ' ', 4);
        FirstPartIsPrefix(rec, ' ');
        EqualFoldOfPrefixes(rec[0], key, value);
        Accept(Import(rec[0], rec[1], rec[2], if |rec| > MinRecordLength then rec[3] else ""))
  }

  /** The answer of the record loop: the first string that is not skipped decides. */
  function ScanTxt(records: seq<string>, key: string): (r: LookupResult)
    ensures r.Return? && r.ok ==> r.imp.prefix == key
    ensures r.Return? && !r.ok ==> r == Miss
  {
    if records == [] then Miss
    else match ParseTxt(records[0], key)
      case Skip => ScanTxt(records[1..], key)
      case Accept(imp) => Hit(imp)
      case Crash => Panic
  }

  /** The answer of a DNS lookup: a miss when the resolver fails, else the record scan. */
  function Answer(resolver: Resolver, u: URL): (r: LookupResult)
    ensures u.host !in resolver ==> r == Miss
    ensures r.Return? && r.ok ==> r.imp.prefix == Key(u)
    ensures r.Return? && !r.ok ==> r == Miss
  {
    if u.host in resolver then ScanTxt(resolver[u.host], Key(u)) else Miss
  }

  class DNSImportStore {
    const resolver: Resolver

    /** `NewDNSStore`: a nil resolver is replaced by the platform's own. */
    constructor NewDNSStore(resolver: Option<Resolver>, platform: Resolver)
      ensures resolver.Some? ==> this.resolver == resolver.value
      ensures resolver.None? ==> this.resolver == platform
    {
      this.resolver := if resolver.Some? then resolver.value else platform;
    }

    /**
     * `Lookup`: query the TXT strings of `u.host` and return the first one
     * that passes every check, as an Import.
     */
    method Lookup(u: URL) returns (r: LookupResult)
      ensures r == Answer(resolver, u)
      ensures u.host !in resolver ==> r == Miss
      ensures r.Return? && r.ok ==> r.imp.prefix == Key(u)
      ensures r.Return? && !r.ok ==> r == Miss
    {
      if u.host !in resolver {
        return Miss;
      }
      var records := resolver[u.host];
      var key := u.host + u.path;
      for i := 0 to |records|
        invariant ScanTxt(records, key) == ScanTxt(records[i..], key)
      {
        ScanTxtAt(records, key, i);
        var pair := SplitN(records[i], '=', 2);
        if pair[0] != "go-import" {
          assert ParseTxt(records[i], key) == Skip;
          continue;
        }
        if |pair| < 2 {
          // pair[1] is out of range: the run-time panics
          assert ParseTxt(records[i], key) == Crash;
          return Panic;
        }
        var value := pair[1];
        assert ParseTxt(records[i], key) == ParseValue(value, key);
        if !(key <= value) {
          continue;
        }
        var rec := SplitN(value, ' ', 4);
        if |rec| < MinRecordLength {
          continue;
        }
        if !EqualFold(rec[0], key) {
          continue;
        }
        var imp := Import(rec[0], rec[1], rec[2], "");
        if |rec| > MinRecordLength {
          imp := imp.(proxy := rec[3]);
        }
        assert ParseValue(value, key) == Accept(imp);
        ValueAcceptShape(value, key);
        return Hit(imp);
      }
      return Miss;
    }
  }

  /** Splitting `go-import=` + rest at the first `=` gives the two halves back. */
  lemma SplitGoImport(rest: string)
    ensures SplitN("go-import=" + rest, '=', 2) == ["go-import", rest]
  {
    assert "go-import=" + rest == "go-import" + ['='] + rest;
    SplitNUnique("go-import=" + rest, '=', 2, ["go-import", rest]);
  }

  /** A string that starts with `go-import=` is judged by its value alone. */
  lemma ParseGoImport(rest: string, key: string)
    ensures ParseTxt("go-import=" + rest, key) == ParseValue(rest, key)
  {
    SplitGoImport(rest);
  }

  /**
   * Only the bare string `go-import` panics: it passes the name check but has
   * no value after an `=`.
   */
  lemma CrashExactlyOnBareName(record: string, key: string)
    ensures ParseTxt(record, key) == Crash <==> record == "go-import"
  {
    SplitNShape(record, '=', 2);
    if record == "go-import" {
      SplitNUnique(record, '=', 2, [record]);
    }
  }

  /**
   * A string whose text before the first `=` is not exactly `go-import` is
   * skipped: anything the parser does not skip is the bare name or is
   * `go-import=` followed by a value.
   */
  lemma NotSkippedNamesGoImport(record: string, key: string)
    requires ParseTxt(record, key) != Skip
    ensures record == "go-import" || (exists value :: record == "go-import=" + value && ParseTxt(record, key) == ParseValue(value, key))
  {
    var pair := SplitN(record, '=', 2);
    assert pair[0] == "go-import";
    if |pair| == 2 {
      SplitInTwo(record, '=');
      var value := pair[1];
      assert record == "go-import=" + value && ParseTxt(record, key) == ParseValue(value, key);
    } else {
      assert ParseTxt(record, key) == Crash;
    }
  }

  /** A string cut into two parts is the first part, the separator and the second part. */
  lemma SplitInTwo(s: string, sep: char)
    requires |SplitN(s, sep, 2)| == 2
    ensures var pair := SplitN(s, sep, 2); s == pair[0] + [sep] + pair[1]
  {
    var pair := SplitN(s, sep, 2);
    SplitNJoin(s, sep, 2);
    assert pair == [pair[0]] + pair[1..] && pair[1..] == [pair[1]];
    JoinCons(pair[0], pair[1..], sep);
  }

  /**
   * An accepted value is exactly `<key> <vcs> <root>` or
   * `<key> <vcs> <root> <proxy>`: the declared prefix equals the key byte for
   * byte, it and VCS and root hold no space, and the proxy is empty when the
   * fourth field is absent.
   */
  lemma ValueAcceptShape(value: string, key: string)
    requires ParseValue(value, key).Accept?
    ensures var imp := ParseValue(value, key).imp;
      && imp.prefix == key
      && ' ' !in imp.prefix && ' ' !in imp.vcs && ' ' !in imp.root
      && ((imp.proxy == "" && value == key + " " + imp.vcs + " " + imp.root)
          || value == key + " " + imp.vcs + " " + imp.root + " " + imp.proxy)
  {
    var rec := SplitN(value, ' ', 4);
    SplitNShape(value, ' ', 4);
    if |rec| == 4 {
      Join4(rec, ' ');
    } else {
      Join3(rec, ' ');
    }
    assert rec[0] <= value;
    EqualFoldOfPrefixes(rec[0], key, value);
  }

  /**
   * An accepted TXT string is exactly `go-import=<key> <vcs> <root>` or
   * `go-import=<key> <vcs> <root> <proxy>`, with space-free key, VCS and root.
   */
  lemma AcceptShape(record: string, key: string)
    requires ParseTxt(record, key).Accept?
    ensures var imp := ParseTxt(record, key).imp;
      && imp.prefix == key
      && ' ' !in imp.prefix && ' ' !in imp.vcs && ' ' !in imp.root
      && ((imp.proxy == "" && record == "go-import=" + (key + " " + imp.vcs + " " + imp.root))
          || record == "go-import=" + (key + " " + imp.vcs + " " + imp.root + " " + imp.proxy))
  {
    NotSkippedNamesGoImport(record, key);
    CrashExactlyOnBareName(record, key);
    var value :| record == "go-import=" + value && ParseTxt(record, key) == ParseValue(value, key);
    ValueAcceptShape(value, key);
  }

  /**
   * Round trip on the value: space-free key, VCS and root joined by spaces
   * parse back to the Import they make.
   */
  lemma ValueRoundTrip3(key: string, vcs: string, root: string)
    requires ' ' !in key && ' ' !in vcs && ' ' !in root
    ensures ParseValue(key + " " + vcs + " " + root, key) == Accept(Import(key, vcs, root, ""))
  {
    var value := key + " " + vcs + " " + root;
    Join3([key, vcs, root], ' ');
    SplitNUnique(value, ' ', 4, [key, vcs, root]);
    FirstPartIsPrefix([key, vcs, root], ' ');
    ParseValueOfFields(value, key, [key, vcs, root]);
  }

  /** The same with a fourth field, which becomes the proxy verbatim, spaces included. */
  lemma ValueRoundTrip4(key: string, vcs: string, root: string, proxy: string)
    requires ' ' !in key && ' ' !in vcs && ' ' !in root
    ensures ParseValue(key + " " + vcs + " " + root + " " + proxy, key) == Accept(Import(key, vcs, root, proxy))
  {
    var value := key + " " + vcs + " " + root + " " + proxy;
    Join4([key, vcs, root, proxy], ' ');
    SplitNUnique(value, ' ', 4, [key, vcs, root, proxy]);
    FirstPartIsPrefix([key, vcs, root, proxy], ' ');
    ParseValueOfFields(value, key, [key, vcs, root, proxy]);
  }

  /** A value that starts with the key and splits into the key and two or three more fields is accepted. */
  lemma ParseValueOfFields(value: string, key: string, rec: seq<string>)
    requires SplitN(value, ' ', 4) == rec && 3 <= |rec| && rec[0] == key && key <= value
    ensures ParseValue(value, key) == Accept(Import(key, rec[1], rec[2], if |rec| > 3 then rec[3] else ""))
  {
    assert EqualFold(key, key);
  }

  /**
   * Round trip: for a space-free key and space-free VCS and root, the TXT
   * string `go-import=<key> <vcs> <root>` parses to `Import{key, vcs, root, ""}`,
   * and appending ` <proxy>` sets the proxy.
   */
  lemma RoundTrip(key: string, vcs: string, root: string, proxy: string)
    requires ' ' !in key && ' ' !in vcs && ' ' !in root
    ensures ParseTxt("go-import=" + (key + " " + vcs + " " + root), key)
            == Accept(Import(key, vcs, root, ""))
    ensures ParseTxt("go-import=" + (key + " " + vcs + " " + root + " " + proxy), key)
            == Accept(Import(key, vcs, root, proxy))
  {
    ValueRoundTrip3(key, vcs, root);
    ValueRoundTrip4(key, vcs, root, proxy);
    ParseGoImport(key + " " + vcs + " " + root, key);
    ParseGoImport(key + " " + vcs + " " + root + " " + proxy, key);
  }

  /** A value with fewer than three space-separated fields never matches. */
  lemma {:induction false} TooFewFieldsSkipped(a: string, b: string, key: string)
    requires ' ' !in a && ' ' !in b
    ensures ParseTxt("go-import=" + a, key) == Skip
    ensures ParseTxt("go-import=" + (a + " " + b), key) == Skip
  {
    ParseGoImport(a, key);
    SplitNUnique(a, ' ', 4, [a]);
    ParseGoImport(a + " " + b, key);
    JoinCons(a, [b], ' ');
    SplitNUnique(a + " " + b, ' ', 4, [a, b]);
  }

  /**
   * A record for a longer path (`example.org/one/sub` when the key is
   * `example.org/one`) passes the byte-prefix check but is rejected by the
   * case-insensitive comparison of the declared prefix.
   */
  lemma {:induction false} LongerPrefixSkipped(key: string, more: string, vcs: string, root: string)
    requires more != [] && ' ' !in key + more && ' ' !in vcs && ' ' !in root
    ensures ParseTxt("go-import=" + (key + more + " " + vcs + " " + root), key) == Skip
  {
    var value := key + more + " " + vcs + " " + root;
    ParseGoImport(value, key);
    ValueRoundTrip3(key + more, vcs, root);
    assert key <= value;
  }

  /** The scan returns the first string that is not skipped, in resolver order. */
  lemma {:induction false} ScanTxtFirst(records: seq<string>, key: string, i: nat)
    requires i < |records| && ParseTxt(records[i], key) != Skip
    requires forall j :: 0 <= j < i ==> ParseTxt(records[j], key) == Skip
    ensures ScanTxt(records, key) == match ParseTxt(records[i], key)
      case Accept(imp) => Hit(imp)
      case _ => Panic
  {
    if i > 0 {
      var tail := records[1..];
      assert ScanTxt(records, key) == ScanTxt(tail, key) by {
        assert ParseTxt(records[0], key) == Skip;
      }
      forall j | 0 <= j < i - 1
        ensures ParseTxt(tail[j], key) == Skip
      {
        assert tail[j] == records[j + 1];
      }
      assert tail[i - 1] == records[i];
      ScanTxtFirst(tail, key, i - 1);
    }
  }

  /** The scan from position i is decided by the string at i, or moves on past it when that one is skipped. */
  lemma ScanTxtAt(records: seq<string>, key: string, i: nat)
    requires i < |records|
    ensures ScanTxt(records[i..], key) == match ParseTxt(records[i], key)
      case Skip => ScanTxt(records[i + 1..], key)
      case Accept(imp) => Hit(imp)
      case Crash => Panic
  {
    assert records[i..][0] == records[i] && records[i..][1..] == records[i + 1..];
  }


  /** The scan misses exactly when every string is skipped; it never returns another miss. */
  lemma {:induction false} ScanTxtMiss(records: seq<string>, key: string)
    ensures ScanTxt(records, key) == Miss <==> forall j :: 0 <= j < |records| ==> ParseTxt(records[j], key) == Skip
    ensures ScanTxt(records, key).Return? && !ScanTxt(records, key).ok ==> ScanTxt(records, key) == Miss
  {
    if records != [] {
      ScanTxtMiss(records[1..], key);
      if ParseTxt(records[0], key) == Skip {
        forall j | 0 < j < |records|
          ensures ParseTxt(records[j], key) == ParseTxt(records[1..][j - 1], key)
        {
        }
      }
    }
  }

  /** Strings after the first one that decides the scan are never looked at. */
  lemma {:induction false} ScanTxtIgnoresLater(records: seq<string>, later: seq<string>, key: string)
    requires ScanTxt(records, key) != Miss
    ensures ScanTxt(records + later, key) == ScanTxt(records, key)
  {
    var all := records + later;
    assert all[0] == records[0] && all[1..] == records[1..] + later;
    if ParseTxt(records[0], key) == Skip {
      ScanTxtIgnoresLater(records[1..], later, key);
    }
  }

  /** A TXT string that does not begin with `go-import` is skipped whatever the key. */
  lemma OtherNamesSkipped(record: string, key: string)
    requires !("go-import" <= record)
    ensures ParseTxt(record, key) == Skip
  {
    if ParseTxt(record, key) != Skip {
      NotSkippedNamesGoImport(record, key);
    }
  }

  /**
   * The resolver of pkg/handlers/dns_store_test.go, its go-import strings
   * written as `go-import=` followed by the space-joined fields.
   */
  const TestResolver: Resolver := map[
    "example.org" := [
      "go-import=" + ("example.org/one" + " " + "git" + " " + "https://example.com/org/one"),
      "go-import=" + ("example.org/two" + " " + "git" + " " + "https://example.com/org/two"),
      "foo=bar"],
    "example.com" := ["baz=quux"]]

  /** A well-formed string for the key at the head of the answer decides the lookup. */
  lemma FirstRecordHit(records: seq<string>, key: string, vcs: string, root: string)
    requires |records| >= 1 && records[0] == "go-import=" + (key + " " + vcs + " " + root)
    requires ' ' !in key && ' ' !in vcs && ' ' !in root
    ensures ScanTxt(records, key) == Hit(Import(key, vcs, root, ""))
  {
    RoundTrip(key, vcs, root, "");
  }

  /**
   * A well-formed three-field string declares one prefix: for every other key
   * it is skipped, whether that key is shorter, longer or different.
   */
  lemma OnlyDeclaredPrefixAccepted(declared: string, vcs: string, root: string, key: string)
    requires ' ' !in declared && ' ' !in vcs && ' ' !in root && key != declared
    ensures ParseTxt("go-import=" + (declared + " " + vcs + " " + root), key) == Skip
  {
    var value := declared + " " + vcs + " " + root;
    assert SplitN(value, ' ', 4)[0] == declared by {
      Join3([declared, vcs, root], ' ');
      SplitNUnique(value, ' ', 4, [declared, vcs, root]);
    }
    FirstFieldDecides(value, key);
    ParseGoImport(value, key);
  }

  /** An accepted value's first space-separated field is the key. */
  lemma FirstFieldDecides(value: string, key: string)
    ensures ParseValue(value, key).Accept? ==> SplitN(value, ' ', 4)[0] == key
  {
    // an accepted value declares its first field, and ParseValue accepts only the key
    assert ParseValue(value, key).Accept? ==> ParseValue(value, key).imp.prefix == SplitN(value, ' ', 4)[0];
  }

  /** The first string published for example.org declares `example.org/one` and nothing else. */
  lemma TestRecordOne(key: string)
    ensures key != "example.org/one" ==> ParseTxt(TestResolver["example.org"][0], key) == Skip
    ensures key == "example.org/one" ==>
      ParseTxt(TestResolver["example.org"][0], key) == Accept(Import("example.org/one", "git", "https://example.com/org/one", ""))
  {
    if key != "example.org/one" {
      OnlyDeclaredPrefixAccepted("example.org/one", "git", "https://example.com/org/one", key);
    } else {
      RoundTrip(key, "git", "https://example.com/org/one", "");
    }
  }

  /** The second string published for example.org declares `example.org/two` and nothing else. */
  lemma TestRecordTwo(key: string)
    ensures key != "example.org/two" ==> ParseTxt(TestResolver["example.org"][1], key) == Skip
    ensures key == "example.org/two" ==>
      ParseTxt(TestResolver["example.org"][1], key) == Accept(Import("example.org/two", "git", "https://example.com/org/two", ""))
  {
    if key != "example.org/two" {
      OnlyDeclaredPrefixAccepted("example.org/two", "git", "https://example.com/org/two", key);
    } else {
      RoundTrip(key, "git", "https://example.com/org/two", "");
    }
  }

  /** `/one` on example.org is a hit on the first record. */
  lemma TestResolverOne(scheme: string, goGet: string)
    ensures Answer(TestResolver, URL(scheme, "example.org", "/one", goGet))
      == Hit(Import("example.org/one", "git", "https://example.com/org/one", ""))
  {
    var key := Key(URL(scheme, "example.org", "/one", goGet));
    assert key == "example.org/one";
    TestRecordOne(key);
  }

  /** `/two` on example.org is a hit on the second record: the first one declares another prefix. */
  lemma TestResolverTwo(scheme: string, goGet: string)
    ensures Answer(TestResolver, URL(scheme, "example.org", "/two", goGet))
      == Hit(Import("example.org/two", "git", "https://example.com/org/two", ""))
  {
    var records, key := TestResolver["example.org"], Key(URL(scheme, "example.org", "/two", goGet));
    assert key == "example.org/two";
    TestRecordOne(key);
    TestRecordTwo(key);
    assert ScanTxt(records, key) == ScanTxt(records[1..], key);
    assert records[1..][0] == records[1];
  }

  /**
   * On example.org every path other than `/one` and `/two` (such as
   * `/authsvc`, `/`, or `/one/sub`) is a miss: each go-import string declares
   * another prefix, and `foo=bar` carries another name.
   */
  lemma TestResolverOtherPaths(scheme: string, path: string, goGet: string)
    requires path != "/one" && path != "/two"
    ensures Answer(TestResolver, URL(scheme, "example.org", path, goGet)) == Miss
  {
    var records, key := TestResolver["example.org"], "example.org" + path;
    assert key != "example.org/one" && key != "example.org/two" by {
      assert key[|"example.org"|..] == path;
    }
    TestRecordOne(key);
    TestRecordTwo(key);
    assert ParseTxt(records[2], key) == Skip by {
      assert records[2][0] != 'g';
      OtherNamesSkipped(records[2], key);
    }
    assert records[1..][0] == records[1] && records[2..][0] == records[2] && records[3..] == [];
    assert ScanTxt(records, key) == ScanTxt(records[1..], key);
    assert ScanTxt(records[1..], key) == ScanTxt(records[2..], key) by {
      assert records[1..][1..] == records[2..];
    }
    assert ScanTxt(records[2..], key) == ScanTxt(records[3..], key) by {
      assert records[2..][1..] == records[3..];
    }
  }

  /** example.com publishes only `baz=quux`, so every path there is a miss. */
  lemma TestResolverOtherHost(scheme: string, path: string, goGet: string)
    ensures Answer(TestResolver, URL(scheme, "example.com", path, goGet)) == Miss
  {
    var records := TestResolver["example.com"];
    OtherNamesSkipped(records[0], "example.com" + path);
    ScanTxtMiss(records, "example.com" + path);
  }
}
