/**
 * The HTML document the handler renders for a hit (the template built in
 * `NewImportHandler`, pkg/handlers/import.go). The document is kept as its
 * structure: which elements appear and what text they carry, before HTML
 * escaping.
 */
module Render {
  import opened GoStrings
  import opened Imports
  import DnsStore

  /** The parts of the template that carry data or depend on a condition. */
  datatype Element =
    | GoImportMeta(content: string)          // <meta name="go-import" content="...">
    | ContentTypeMeta                        // <meta http-equiv="Content-Type" content="text/html; charset=utf-8" />
    | RefreshMeta(seconds: nat, url: string) // <meta http-equiv="refresh" content="<seconds>; url=<url>" />
    | FoundBanner(heading: string, docHref: string, docText: string)
      // <div><h1>heading</h1><p>Documentation at <a href=docHref>docText</a></p><p>Redirecting . . .</p></div>

  datatype Document = Document(head: seq<Element>, body: seq<Element>)

  /** The documentation viewer the browser form redirects to. */
  const DocHost := "godoc.org/"

  /** The delay before the browser form redirects, in seconds. */
  const RefreshSeconds := 10

  /**
   * The go-import meta content: `<prefix> mod <proxy>` when a proxy is set
   * (a non-empty string is true in a template condition), otherwise
   * `<prefix> <vcs> <root>`. Either way it opens with the prefix and a space.
   */
  function MetaContent(imp: Import): (r: string)
    ensures imp.prefix + " " <= r
  {
    if imp.proxy != "" then imp.prefix + " mod " + imp.proxy
    else imp.prefix + " " + imp.vcs + " " + imp.root
  }

  /**
   * The template executed on `importData{Import: imp, FromGO: fromGo}`: the
   * head opens with the go-import tag; tool mode has nothing else.
   */
  function Render(imp: Import, fromGo: bool): (r: Document)
    ensures |r.head| >= 1 && r.head[0] == GoImportMeta(MetaContent(imp))
    ensures fromGo <==> |r.head| == 1
    ensures fromGo <==> r.body == []
  {
    var docUrl := "https://" + DocHost + imp.prefix;
    Document(
      [GoImportMeta(MetaContent(imp))]
        + (if fromGo then [] else [ContentTypeMeta, RefreshMeta(RefreshSeconds, docUrl)]),
      if fromGo then [] else [FoundBanner(imp.prefix + " Found", docUrl, DocHost + imp.prefix)])
  }

  /**
   * Both modes open the head with the one go-import meta tag. Tool mode has
   * nothing else: no refresh, no body. Browser mode adds a 10-second refresh
   * to `https://godoc.org/<prefix>` and the body banner linking there.
   */
  lemma ModeSelectsSections(imp: Import, fromGo: bool)
    ensures var doc := Render(imp, fromGo);
      && doc.head[0] == GoImportMeta(MetaContent(imp))
      && (forall k :: 1 <= k < |doc.head| ==> !doc.head[k].GoImportMeta?)
      && (fromGo <==> doc.head == [GoImportMeta(MetaContent(imp))])
      && (fromGo <==> doc.body == [])
      && (!fromGo <==> RefreshMeta(10, "https://godoc.org/" + imp.prefix) in doc.head)
      && (!fromGo ==> doc.body == [FoundBanner(imp.prefix + " Found", "https://godoc.org/" + imp.prefix, "godoc.org/" + imp.prefix)])
  {
    var doc := Render(imp, fromGo);
    if !fromGo {
      assert doc.head[2] == RefreshMeta(10, "https://godoc.org/" + imp.prefix);
    }
  }

  /**
   * What a client reads back from the meta content when it splits it on
   * spaces: with space-free fields, `[prefix, "mod", proxy]` when a proxy is
   * set and `[prefix, vcs, root]` otherwise. The proxy form never carries the
   * VCS or the root.
   */
  lemma {:induction false} MetaContentFields(imp: Import)
    requires ' ' !in imp.prefix && ' ' !in imp.vcs && ' ' !in imp.root && ' ' !in imp.proxy
    ensures imp.proxy != "" ==> SplitN(MetaContent(imp), ' ', 4) == [imp.prefix, "mod", imp.proxy]
    ensures imp.proxy == "" ==> SplitN(MetaContent(imp), ' ', 4) == [imp.prefix, imp.vcs, imp.root]
  {
    if imp.proxy != "" {
      Join3([imp.prefix, "mod", imp.proxy], ' ');
      SplitNUnique(MetaContent(imp), ' ', 4, [imp.prefix, "mod", imp.proxy]);
    } else {
      Join3([imp.prefix, imp.vcs, imp.root], ' ');
      SplitNUnique(MetaContent(imp), ' ', 4, [imp.prefix, imp.vcs, imp.root]);
    }
  }

  /**
   * A proxy-free record taken from a DNS TXT string is advertised as the TXT
   * value itself: the TXT string is `go-import=` followed by the meta content,
   * or by the meta content and one space when it carried an empty fourth
   * field, which the advertised content drops.
   */
  lemma DnsRecordAdvertisedVerbatim(record: string, key: string)
    requires DnsStore.ParseTxt(record, key).Accept? && DnsStore.ParseTxt(record, key).imp.proxy == ""
    ensures var m := MetaContent(DnsStore.ParseTxt(record, key).imp);
      record == "go-import=" + m || record == "go-import=" + m + " "
  {
    var imp := DnsStore.ParseTxt(record, key).imp;
    DnsStore.AcceptShape(record, key);
    var m := key + " " + imp.vcs + " " + imp.root;
    assert m == MetaContent(imp);
    EmptyLastField(m);
  }

  /** A last field that is empty leaves only its separating space behind. */
  lemma EmptyLastField(m: string)
    ensures "go-import=" + (m + " " + "") == "go-import=" + m + " "
  {
    assert m + " " + "" == m + " ";
  }
}
