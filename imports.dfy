/**
 * The values shared by every store: the import record, the request URL as the
 * stores see it, and the `(Import, bool)` answer of `ImportStore.Lookup`.
 */
module Imports {

  /** One go-import record: the import prefix, its VCS, the repository root and an optional module proxy. */
  datatype Import = Import(prefix: string, vcs: string, root: string, proxy: string)

  /** The zero value `Import{}` that every miss returns. */
  const Empty := Import("", "", "", "")

  /**
   * The parts of a request URL the core reads. `goGet` is what
   * `Query().Get("go-get")` yields: the first value of that parameter, or ""
   * when the parameter is absent.
   */
  datatype URL = URL(scheme: string, host: string, path: string, goGet: string)

  /** The lookup key `u.Host + u.Path`; scheme and query play no part in it. */
  function Key(u: URL): string
  {
    u.host + u.path
  }

  /**
   * What a call to `Lookup` ends in: the `(Import, bool)` pair it returns, or
   * a run-time panic that unwinds out of it.
   */
  datatype LookupResult = Return(imp: Import, ok: bool) | Panic
  {
    /** True when a composite search stops at this answer: a hit or a panic. */
    predicate Settles()
    {
      Panic? || ok
    }
  }

  /** The `(Import{}, false)` answer of a miss. */
  const Miss := Return(Empty, false)

  /** The `(imp, true)` answer of a hit. */
  function Hit(imp: Import): LookupResult
  {
    Return(imp, true)
  }
}
