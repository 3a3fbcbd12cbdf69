/** Where the renderer gets a package's direct dependencies (the
    `get_deps_func` / `test_graph` pair of main.py:83-112). */
module DepSource {

  import opened Options

  /** The two lookup modes. `TestGraph` is the JSON test graph read by
      `get_test_deps`; `Remote` stands for `fetch_and_parse_real_deps`, given as
      what each fetch would yield: `Some(deps)`, or `None` when the fetch or
      parse raises. A package absent from `Remote` also makes the fetch raise. */
  datatype Source =
    | TestGraph(graph: map<string, seq<string>>)
    | Remote(fetched: map<string, Option<seq<string>>>)

  /** The packages the source knows anything about. */
  function Keys(src: Source): set<string>
  {
    match src
    case TestGraph(graph) => graph.Keys
    case Remote(fetched) => fetched.Keys
  }

  /** `get_test_deps`: `graph.get(package, [])`. */
  function GetTestDeps(package: string, graph: map<string, seq<string>>): seq<string>
  {
    if package in graph then graph[package] else []
  }

  /** One call of `get_deps_func`; `None` means that it raised. */
  function Lookup(src: Source, package: string): (r: Option<seq<string>>)
    ensures r.Some? && r.value != [] ==> package in Keys(src)
    ensures src.TestGraph? ==> r.Some?
  {
    match src
    case TestGraph(graph) => Some(GetTestDeps(package, graph))
    case Remote(fetched) => if package in fetched then fetched[package] else None
  }

  /** The `try`/`except` around the lookup (main.py:106-112): a lookup that
      raises counts as no dependencies. */
  function DepsOrEmpty(src: Source, package: string): (r: seq<string>)
    ensures r != [] ==> package in Keys(src)
    ensures Lookup(src, package).None? ==> r == []
    ensures Lookup(src, package).Some? ==> r == Lookup(src, package).value
  {
    match Lookup(src, package)
    case None => []
    case Some(deps) => deps
  }

  /** In the test graph a package that is not a key has no dependencies, a key
      has exactly its listed ones, and the lookup never raises. */
  lemma TestGraphLookup(package: string, graph: map<string, seq<string>>)
    ensures Lookup(TestGraph(graph), package).Some?
    ensures package !in graph ==> DepsOrEmpty(TestGraph(graph), package) == []
    ensures package in graph ==> DepsOrEmpty(TestGraph(graph), package) == graph[package]
  {
  }

  /** In live mode a fetch that succeeds gives its dependencies, and a fetch
      that raises, or a package the repository does not have, gives none. */
  lemma RemoteLookup(package: string, fetched: map<string, Option<seq<string>>>)
    ensures package in fetched && fetched[package].Some? ==>
      DepsOrEmpty(Remote(fetched), package) == fetched[package].value
    ensures package !in fetched || fetched[package].None? ==>
      DepsOrEmpty(Remote(fetched), package) == []
  {
  }

}
