# Dependency tree renderer — Dafny model

This project models the core of a small Maven dependency visualiser (`main.py`).
Given a root package, it prints the package's transitive dependencies as an
ASCII tree. Its lookups come either from a JSON test graph or from POM files
fetched from Maven Central. The model covers:

- the renderer `print_ascii_tree`. A filtered-out package prints nothing. A
  package already on the ancestor path prints one line ending in ` (.cycle.)`.
  Any other package prints its own line, then its filtered children in lookup
  order, and only the final child gets `└── `.
- the filter predicate `filter_sub and filter_sub in x` and the list
  comprehension that removes filtered dependencies.
- the test-graph lookup `get_test_deps`, plus the `try`/`except` that turns a
  failed lookup into "no dependencies".
- `validate_real_package` and `build_pom_url`, including Python's `str.split`
  and `str.replace` for single characters.

Modules:

- `Options`: `Option`. `None` stands for "the call raised".
- `Coordinates` (`coordinates.dfy`): `Split`, `Join`, `ValidateRealPackage`,
  `BuildPomUrl`, and the split/join round trips.
- `FilterPolicy` (`filter.dfy`): `Contains` (Python's `in` on strings),
  `Excluded` and `FilterDeps`.
- `DepSource` (`source.dfy`): the lookup. `TestGraph(map)` is graph mode.
  `Remote(map)` is live mode, given as the outcome of each fetch.
- `AsciiTree` (`tree.dfy`): the specification functions `Render` and
  `RenderChildren`, which produce the printed lines as `Entry` values that
  `Lines` formats. It also holds the renderer method `PrintAsciiTree`, whose loop
  over the children is proved to print `Lines(Render(..))`.
- `TreeProperties` (`tree_properties.dfy`): what the renderer promises.
- `TreeExamples` (`tree_examples.dfy`): three small test graphs rendered in full.

Printing is modelled as returning the sequence of printed lines, in order.
Recursion terminates because every expanded package is a key of the source
that is not yet on the path, and it joins the path (`Unvisited` shrinks).

The top-level call at main.py:178-183 passes `prefix=""` and `is_last=True`.
By main.py:99-104 the root line is therefore `└── A`, and the root's children
are indented by four spaces. main.py renders the tree straight from the lookup;
there is no separate graph-building pass.

## Model

| member | source | states |
|---|---|---|
| `Coordinates.JoinSplit` | main.py:13 | joining the pieces of `s.split(sep)` with `sep` gives `s` back |
| `Coordinates.SplitJoin` | main.py:13 | splitting the join of separator-free pieces gives back exactly those pieces |
| `Coordinates.SplitPartsFree` | main.py:13 | no piece of a split contains the separator |
| `Coordinates.SplitCount` | main.py:13 | a split has one more piece than the text has separators |
| `Coordinates.ReplaceChar` | main.py:19 | `replace(".", "/")` keeps the length, keeps every other character in place and leaves no `.` behind |
| `Coordinates.GroupPathSegments` | main.py:19 | for a group id without `/`, the group path splits on `/` into exactly the group's dot-separated segments |
| `Coordinates.CoordinateUrl` | main.py:12-21 | for colon-free `g`, `a`, `v`: `g:a:v` is valid iff all three are non-empty; its URL is `MAVEN_CENTRAL_BASE/<g with . as />/a/v/a-v.pom` |
| `Coordinates.ValidPackageShape` | main.py:12-18 | a valid package is `g:a:v` with three non-empty colon-free parts, and `build_pom_url` succeeds on it |
| `Coordinates.PomUrlDefined` | main.py:17-18 | `build_pom_url` raises unless the name has exactly two colons; empty parts are accepted |
| `FilterPolicy.ContainsAt` | main.py:95 | `sub in s` holds iff `sub` occurs at some position of `s` |
| `FilterPolicy.FilterDeps` | main.py:114 | the filtered list is no longer than the input; it holds exactly the dependencies that are not excluded |
| `FilterPolicy.FilterDepsAppend` | main.py:114 | filtering keeps relative order: filtering `a + b` is filtering `a`, then filtering `b` |
| `FilterPolicy.EmptyFilterKeepsAll` | main.py:114 | with the empty filter every dependency is kept, in order |
| `FilterPolicy.FilterDepsIdempotent` | main.py:114 | filtering twice is filtering once |
| `DepSource.Lookup` | main.py:106-110 | a lookup that returns dependencies names a key of the source; the test-graph lookup never raises |
| `DepSource.DepsOrEmpty` | main.py:106-112 | a lookup that raises yields no dependencies; one that returns gives exactly its result; any dependency comes from a key of the source |
| `DepSource.TestGraphLookup` | main.py:79-80 | `get_test_deps` gives a key's list, `[]` for an unknown id, and never raises |
| `DepSource.RemoteLookup` | main.py:106-112 | in live mode a successful fetch gives its own dependencies; a fetch that raises, or an unknown package, gives none |
| `AsciiTree.UnvisitedShrinks` | main.py:98-116 | appending an expanded key to the path removes exactly one package from the unvisited keys |
| `AsciiTree.PrintAsciiTree` | main.py:83-128 | the renderer's printed lines are those of the specification `Render`, in order |
| `TreeProperties.RenderExcluded` | main.py:95-96 | a filtered-out package prints nothing, not even its own line |
| `TreeProperties.RenderCycle` | main.py:98-101 | a package on the path prints exactly `prefix + connector + package + " (.cycle.)"`, whatever the lookup would return |
| `TreeProperties.RenderFirstLine` | main.py:103-104 | otherwise the first line is `prefix + ("└── " if is_last else "├── ") + package` |
| `TreeProperties.RenderLeaf` | main.py:106-114 | a lookup that raises, or that leaves nothing after filtering, prints exactly the package's own line |
| `TreeProperties.TestGraphMissingKey` | main.py:79-80 | in graph mode a package that is not a key prints exactly its own line |
| `TreeProperties.RenderIndents` | main.py:116-126 | every line of a call starts with its prefix, then whole `"    "`/`"│   "` units, at most one per key not yet on the path |
| `TreeProperties.RenderChildrenIndents` | main.py:117-128 | the same holds for the lines of every child printed by the loop |
| `TreeProperties.RenderShown` | main.py:95-116 | no printed line names a filtered-out package; a package on the path is never expanded again |
| `TreeProperties.RenderChildrenShown` | main.py:114-128 | the same holds for the lines of every child printed by the loop |
| `TreeProperties.RenderBackEdges` | main.py:98-101 | every cycle-marked line names an ancestor of the call, or a package printed unmarked on one of its own ancestor lines (a line above it, indented less, with every line in between indented more) |
| `TreeProperties.RenderChildrenBackEdges` | main.py:117-128 | the same holds for the lines of every child printed by the loop |
| `TreeProperties.SiblingRepeatIsNoBackEdge` | main.py:98 | a repeat of a package on a sibling line, not an ancestor line, does not count as a back edge |
| `TreeProperties.RenderHeads` | main.py:99-104 | a package that is not filtered out prints exactly one line at its own prefix; every other line it prints is indented further |
| `TreeProperties.ChildrenHeads` | main.py:117-128 | the loop prints one line per child at the children's prefix, in list order, and only index `len(deps) - 1` is the last sibling |
| `TreeProperties.RenderChildOrder` | main.py:114-128 | an expanded package prints its own line, then the filtered dependencies in lookup order under `prefix + ("    " if is_last else "│   ")`; only the last remaining one gets `└── ` |
| `TreeProperties.TreeShape` | main.py:175-183 | the root's tree is empty when the root is filtered out, else starts with `└── root`; no line names a filtered package; depth is at most one more than the number of keys; every cycle marker names a package expanded on one of its ancestor lines |
| `TreeExamples.DiamondTree` | main.py:83-128 | graph `{A:[B,C], B:[C], C:[]}` prints `└── A`, `    ├── B`, `    │   └── C`, `    └── C` |
| `TreeExamples.LoopTree` | main.py:83-128 | graph `{A:[B], B:[A]}` prints `└── A`, `    └── B`, `        └── A (.cycle.)` |
| `TreeExamples.FilteredTree` | main.py:83-128 | with filter `C`, the first graph prints `└── A`, `    └── B` |

## Left out

- `fetch_and_parse_real_deps` (main.py:24-59) is not modelled. It does a network fetch and XML parsing. Live mode appears only as `Remote`: the result of each fetch, or `None` where it raises. The URL the fetch would use is not linked to `Remote`'s keys.
- `load_test_graph` (main.py:62-76) is not modelled. It does file and JSON I/O. Its type checks always hold for a Dafny `map<string, seq<string>>`.
- `main` (main.py:131-195) is not modelled. This covers argument parsing, the test-mode name check (`isalpha`/`isupper`), the repository URL check, the missing-root and error exits, the header and separator lines, and the non-tree "Direct dependencies" listing.
- Printing is not modelled as a side effect. The renderer returns its lines in print order instead of writing them to standard output.
- `AsciiTree.Render` runs its child loop only when the filtered list is non-empty. An empty loop prints nothing, so the printed lines are the same. The extra test lets the termination measure shrink only when a key joins the path.
- `Remote` gives one fixed outcome per package. main.py:110 fetches again at every visit, so a package reached along two paths could fail once and succeed once. The model cannot show that.
- Python's recursion limit is not modelled, so the model's depth is unbounded. In Python a chain of about 1000 nested calls raises `RecursionError`. Raised inside the `try` at main.py:106-111, it is swallowed and the node prints as a leaf. Raised at the recursive call at main.py:120, outside the `try`, it aborts the render.
