/**
 * The resolution handler `ImportHandler.ServeHTTP` (pkg/handlers/import.go):
 * it keys the lookup on the request's Host, asks the composite store, and
 * renders a hit, delegates a miss to the fallback, or answers 404.
 */
module Handler {
  import opened Wrappers
  import opened Imports
  import Composite
  import JsonStore
  import Render

  /** One thing done to the response, in the order it is done. */
  datatype Effect =
    | Header(code: int)          // ResponseWriter.WriteHeader
    | Text(text: string)         // a plain-text body write
    | Page(doc: Render.Document) // the rendered template
    | Abort                      // the handler panicked; the server drops the response

  const StatusOK := 200
  const StatusUnauthorized := 401
  const StatusNotFound := 404
  const StatusInternalServerError := 500

  /** `http.StatusText` for the codes this system produces. */
  function StatusText(code: int): string
  {
    if code == StatusOK then "OK"
    else if code == StatusUnauthorized then "Unauthorized"
    else if code == StatusNotFound then "Not Found"
    else if code == StatusInternalServerError then "Internal Server Error"
    else ""
  }

  /** The writes of `http.Error(w, StatusText(code), code)`: the status, then the text and a newline. */
  function ErrorWrites(code: int): seq<Effect>
  {
    [Header(code), Text(StatusText(code) + "\n")]
  }

  /**
   * The status the client receives: the first write decides it. A header
   * commits its code; a body write first commits 200; a later header is
   * ignored. No write at all gives 200; a response dropped first has none.
   */
  function Status(writes: seq<Effect>): Option<int>
  {
    if writes == [] then Some(StatusOK)
    else match writes[0]
      case Header(code) => Some(code)
      case Abort => None
      case _ => Some(StatusOK)
  }

  /** The response writer, as the sequence of writes made to it. */
  class ResponseWriter {
    var writes: seq<Effect>

    constructor ()
      ensures writes == []
    {
      writes := [];
    }

    method WriteHeader(code: int)
      modifies this
      ensures writes == old(writes) + [Header(code)]
    {
      writes := writes + [Header(code)];
    }

    method Write(part: Effect)
      requires !part.Header?
      modifies this
      ensures writes == old(writes) + [part]
    {
      writes := writes + [part];
    }
  }

  /** `http.Error`: write the status, then the message and a newline. */
  method Error(w: ResponseWriter, text: string, code: int)
    modifies w
    ensures w.writes == old(w.writes) + [Header(code), Text(text + "\n")]
  {
    w.WriteHeader(code);
    w.Write(Text(text + "\n"));
  }

  /**
   * Executing the template into `w`: the rendered document is written, unless
   * execution fails (`fails`, decided by the environment), which writes nothing.
   */
  method Execute(w: ResponseWriter, imp: Import, fromGo: bool, fails: bool) returns (err: bool)
    modifies w
    ensures err == fails
    ensures w.writes == old(w.writes) + (if fails then [] else [Page(Render.Render(imp, fromGo))])
  {
    if fails {
      return true;
    }
    w.Write(Page(Render.Render(imp, fromGo)));
    return false;
  }

  /** Handing the writer to the fallback: its writes follow whatever was written before. */
  method ServeFallback(f: Fallback, w: ResponseWriter, r: Request)
    modifies w
    ensures w.writes == old(w.writes) + f(r.url)
  {
    w.writes := w.writes + f(r.url);
  }

  /**
   * The inbound request: its URL, which the handler rewrites, and the Host
   * it was addressed to.
   */
  class Request {
    var url: URL
    const host: string

    constructor (url: URL, host: string)
      ensures this.url == url && this.host == host
    {
      this.url := url;
      this.host := host;
    }
  }

  /** A fallback handler, as the writes it makes for the request URL it is given. */
  type Fallback = URL -> seq<Effect>

  /** Tool mode: the `go-get` query parameter equals "1". */
  predicate FromGo(u: URL)
  {
    u.goGet == "1"
  }

  /**
   * The writes of one request: `res` is what the store answered for the
   * rewritten URL `u`, `renderFails` whether executing the template fails.
   */
  function Reply(res: LookupResult, u: URL, fallback: Option<Fallback>, renderFails: bool): (ws: seq<Effect>)
    ensures res.Panic? ==> Status(ws) == None
    ensures res.Return? && res.ok ==> Status(ws) == Some(StatusOK)
    ensures res.Return? && !res.ok && fallback.Some? ==> ws == fallback.value(u)
    ensures res.Return? && !res.ok && fallback.None? ==> Status(ws) == Some(StatusNotFound)
  {
    match res
    case Panic => [Abort]
    case Return(imp, ok) =>
      if ok then
        [Header(StatusOK)]
          + (if renderFails then ErrorWrites(StatusInternalServerError)
             else [Page(Render.Render(imp, FromGo(u)))])
      else if fallback.Some? then fallback.value(u)
      else ErrorWrites(StatusNotFound)
  }

  class ImportHandler {
    const fallback: Option<Fallback>
    const stores: seq<Composite.Store>
    /** The sources the file-backed stores read through. */
    ghost const sources: set<JsonStore.Source>

    /** The stores' sources are covered and none has released more streams than it handed out. */
    ghost predicate Valid()
      reads this, sources
    {
      Composite.Covers(stores, sources) && Composite.AllValid(sources)
    }

    /** `NewImportHandler`: the fallback (possibly none) and the stores in priority order. */
    constructor NewImportHandler(fallback: Option<Fallback>, stores: seq<Composite.Store>)
      requires Composite.AllValid(Composite.Sources(stores))
      ensures Valid() && this.fallback == fallback && this.stores == stores
      ensures sources == Composite.Sources(stores)
    {
      this.fallback := fallback;
      this.stores := stores;
      this.sources := Composite.Sources(stores);
    }

    /**
     * `ServeHTTP`: overwrite the request URL's host with the request's Host
     * (the lookup URL is the request's own URL object, so the fallback sees
     * the rewrite too), look it up, and answer. A hit writes 200 before the
     * template runs; a failing template then appends a 500 error to the
     * committed response.
     */
    method ServeHTTP(w: ResponseWriter, r: Request, renderFails: bool)
      requires Valid()
      modifies w, r, sources
      ensures r.url == old(r.url).(host := r.host)
      ensures w.writes == old(w.writes) + Reply(Composite.FirstHit(stores, r.url), r.url, fallback, renderFails)
      ensures Valid()
      ensures forall s :: s in sources ==> s.acquired - s.released == old(s.acquired - s.released)
    {
      r.url := r.url.(host := r.host);
      var lookup := r.url;
      var res, _ := Composite.Lookup(stores, sources, lookup);
      Respond(w, r, res, renderFails);
    }

    /**
     * The answering part of `ServeHTTP`, given what the store answered for
     * the rewritten URL: a panic unwinds, a hit is rendered, a miss goes to
     * the fallback or is answered 404.
     */
    method Respond(w: ResponseWriter, r: Request, res: LookupResult, renderFails: bool)
      modifies w
      ensures w.writes == old(w.writes) + Reply(res, r.url, fallback, renderFails)
    {
      if res.Panic? {
        // the panic unwinds out of ServeHTTP and the server drops the response
        w.Write(Abort);
        return;
      }
      if res.ok {
        var fromGo := FromGo(r.url);
        w.WriteHeader(StatusOK);
        var err := Execute(w, res.imp, fromGo, renderFails);
        if err {
          Error(w, StatusText(StatusInternalServerError), StatusInternalServerError);
        }
        return;
      }
      if fallback.Some? {
        ServeFallback(fallback.value, w, r);
        return;
      }
      Error(w, StatusText(StatusNotFound), StatusNotFound);
    }
  }

  /**
   * On a hit the status is 200 and is written first, whatever the template
   * does; a successful render follows it with the document for the record in
   * the mode the `go-get` parameter selects, and a failed one only appends a
   * 500 error that cannot change the status.
   */
  lemma HitCommits200(imp: Import, u: URL, fallback: Option<Fallback>, renderFails: bool)
    ensures var ws := Reply(Hit(imp), u, fallback, renderFails);
      && ws[0] == Header(200)
      && Status(ws) == Some(200)
      && (!renderFails ==> ws == [Header(200), Page(Render.Render(imp, FromGo(u)))])
      && (renderFails ==> ws[1..] == [Header(500), Text("Internal Server Error\n")])
  {
    assert StatusText(500) + "\n" == "Internal Server Error\n";
  }

  /** On a miss with a fallback, the response is exactly the fallback's: the handler writes nothing itself. */
  lemma MissDelegates(u: URL, f: Fallback, renderFails: bool)
    ensures Reply(Miss, u, Some(f), renderFails) == f(u)
    ensures Status(Reply(Miss, u, Some(f), renderFails)) == Status(f(u))
  {
  }

  /** On a miss without a fallback, the response is 404 with the status text as its body. */
  lemma MissWithoutFallback404(u: URL, renderFails: bool)
    ensures Reply(Miss, u, None, renderFails) == [Header(404), Text("Not Found\n")]
    ensures Status(Reply(Miss, u, None, renderFails)) == Some(404)
  {
    assert StatusText(404) + "\n" == "Not Found\n";
  }

  /** A panic in a store leaves the client without a status. */
  lemma PanicDropsResponse(u: URL, fallback: Option<Fallback>, renderFails: bool)
    ensures Status(Reply(Panic, u, fallback, renderFails)) == None
  {
  }

  /** The fallback of pkg/handlers/import_test.go: 401 for host example.com, 404 otherwise. */
  function TestFallback(u: URL): seq<Effect>
  {
    if u.host == "example.com" then ErrorWrites(StatusUnauthorized) else ErrorWrites(StatusNotFound)
  }

  /**
   * A miss for a request addressed to example.com is answered 401 by the
   * test fallback, because the fallback sees the URL after its host was
   * overwritten with the request's Host.
   */
  lemma ProtectedHostUnauthorized(u: URL, host: string, renderFails: bool)
    requires host == "example.com"
    ensures Status(Reply(Miss, u.(host := host), Some(TestFallback), renderFails)) == Some(401)
  {
  }

  /**
   * A request with the empty URL, addressed to the empty Host, against a
   * store over the test records: the key is empty, the `{}` hole matches, and
   * the handler answers 200 rather than the 404 the test table expects.
   */
  lemma EmptyRequestHitsHole(fallback: Option<Fallback>, renderFails: bool)
    ensures var res := JsonStore.Answer(JsonStore.Stream(Some(JsonStore.TestRecords)), URL("", "", "", ""));
      && res == Hit(Empty)
      && Status(Reply(res, URL("", "", "", ""), fallback, renderFails)) == Some(200)
  {
    JsonStore.EmptyKeyMatchesHole();
    HitCommits200(Empty, URL("", "", "", ""), fallback, renderFails);
  }

  /**
   * Once anything is written the status is fixed: later writes, the 500
   * error after a failed render included, cannot change it.
   */
  lemma StatusFixedByFirstWrite(writes: seq<Effect>, later: seq<Effect>)
    requires writes != []
    ensures Status(writes + later) == Status(writes)
  {
    assert (writes + later)[0] == writes[0];
  }

  /**
   * Only the exact query value `1` selects tool mode: an absent `go-get`,
   * `go-get=true` and `go-get=01` all get the browser page.
   */
  lemma ToolModeOnlyForOne(u: URL)
    ensures FromGo(u.(goGet := "1"))
    ensures !FromGo(u.(goGet := "")) && !FromGo(u.(goGet := "true")) && !FromGo(u.(goGet := "01"))
  {
  }
}
