/** The ASCII tree renderer `print_ascii_tree` (main.py:83-128).

    Printing is modelled as producing the sequence of printed lines. The
    specification functions `Render` / `RenderChildren` give each line as an
    `Entry` (its indentation, its connector, the package and whether it carries
    the cycle marker); `Lines` formats entries exactly as the f-strings at
    main.py:100 and main.py:104 do. `PrintAsciiTree` is the renderer itself,
    with the loop over the filtered children, proved to print `Lines(Render(..))`. */
module AsciiTree {

  import opened Options
  import opened DepSource
  import opened FilterPolicy

  const Tee: string := "├── "
  const Corner: string := "└── "
  const Blank: string := "    "
  const Pipe: string := "│   "
  const CycleMark: string := " (.cycle.)"

  /** `"└── " if is_last else "├── "` */
  function Connector(isLast: bool): string
  {
    if isLast then Corner else Tee
  }

  /** `"    " if is_last else "│   "`: what a node adds to its children's prefix. */
  function Extension(isLast: bool): string
  {
    if isLast then Blank else Pipe
  }

  /** One printed line, before formatting. */
  datatype Entry = Entry(indent: string, last: bool, package: string, cycle: bool)

  function Format(e: Entry): string
  {
    e.indent + Connector(e.last) + e.package + (if e.cycle then CycleMark else "")
  }

  function Lines(es: seq<Entry>): seq<string>
  {
    seq(|es|, i requires 0 <= i < |es| => Format(es[i]))
  }

  /** The packages on `current_path`. */
  function Ancestors(path: seq<string>): set<string>
  {
    set p | p in path
  }

  /** Packages of the source not yet on the path: the termination measure. A
      node whose children are rendered is such a package, and it joins the path. */
  function Unvisited(src: Source, path: seq<string>): set<string>
  {
    Keys(src) - Ancestors(path)
  }

  lemma UnvisitedShrinks(src: Source, path: seq<string>, package: string)
    requires package in Keys(src) && package !in path
    ensures Unvisited(src, path + [package]) < Unvisited(src, path)
    ensures |Unvisited(src, path + [package])| == |Unvisited(src, path)| - 1
  {
    assert Ancestors(path + [package]) == Ancestors(path) + {package};
    assert Unvisited(src, path + [package]) == Unvisited(src, path) - {package};
  }

  // ---------------------------------------------------------------------------
  // The renderer, as specification functions

  /** The lines printed by one call of `print_ascii_tree`. */
  function Render(src: Source, package: string, prefix: string, isLast: bool,
                  path: seq<string>, filter: string): seq<Entry>
    decreases Unvisited(src, path), 0, 0
  {
    if Excluded(filter, package) then []
    else if package in path then [Entry(prefix, isLast, package, true)]
    else
      var kids := FilterDeps(DepsOrEmpty(src, package), filter);
      // an empty child list renders nothing; otherwise the package is a key
      // of the source that now joins the path
      [Entry(prefix, isLast, package, false)]
      + if kids == [] then []
        else
          UnvisitedShrinks(src, path, package);
          RenderChildren(src, kids, 0, prefix + Extension(isLast), path + [package], filter)
  }

  /** The loop at main.py:117-128 from child `i` on: only the final child of
      the (already filtered) list is rendered as the last sibling. */
  function RenderChildren(src: Source, kids: seq<string>, i: nat, prefix: string,
                          path: seq<string>, filter: string): seq<Entry>
    requires i <= |kids|
    decreases Unvisited(src, path), 1, |kids| - i
  {
    if i == |kids| then []
    else
      Render(src, kids[i], prefix, i == |kids| - 1, path, filter)
      + RenderChildren(src, kids, i + 1, prefix, path, filter)
  }

  /** The tree printed for a root package: `prefix=""`, `is_last=True`, no
      ancestors (main.py:178-183). */
  function Tree(src: Source, root: string, filter: string): seq<string>
  {
    Lines(Render(src, root, "", true, [], filter))
  }

  // ---------------------------------------------------------------------------
  // The renderer itself

  lemma LinesAppend(a: seq<Entry>, b: seq<Entry>)
    ensures Lines(a + b) == Lines(a) + Lines(b)
  {
  }

  /** An expanded package: its own line, then the blocks of its children. */
  lemma RenderExpands(src: Source, package: string, prefix: string, isLast: bool,
                      path: seq<string>, filter: string)
    requires !Excluded(filter, package) && package !in path
    ensures Render(src, package, prefix, isLast, path, filter)
         == [Entry(prefix, isLast, package, false)]
            + RenderChildren(src, FilterDeps(DepsOrEmpty(src, package), filter), 0,
                             prefix + Extension(isLast), path + [package], filter)
  {
  }

  /** One turn of the child loop: child `i`'s block, then those of the rest. */
  lemma ChildrenStep(src: Source, kids: seq<string>, i: nat, prefix: string,
                     path: seq<string>, filter: string, done: seq<Entry>)
    requires i < |kids|
    ensures done + RenderChildren(src, kids, i, prefix, path, filter)
         == (done + Render(src, kids[i], prefix, i == |kids| - 1, path, filter))
            + RenderChildren(src, kids, i + 1, prefix, path, filter)
  {
  }

  /** `print_ascii_tree`: returns the lines it prints, in order. */
  method PrintAsciiTree(src: Source, package: string, prefix: string, isLast: bool,
                        path: seq<string>, filter: string) returns (out: seq<string>)
    ensures out == Lines(Render(src, package, prefix, isLast, path, filter))
    decreases Unvisited(src, path)
  {
    if Excluded(filter, package) {
      return [];
    }
    var connector := Connector(isLast);
    if package in path {
      return [prefix + connector + package + CycleMark];
    }
    out := [prefix + connector + package];
    assert out == Lines([Entry(prefix, isLast, package, false)]) by {
      assert prefix + connector + package + "" == prefix + connector + package;
    }

    var deps := DepsOrEmpty(src, package);
    deps := FilterDeps(deps, filter);

    var newPath := path + [package];
    var extension := Extension(isLast);
    ghost var whole := Render(src, package, prefix, isLast, path, filter);
    RenderExpands(src, package, prefix, isLast, path, filter);
    ghost var done := [Entry(prefix, isLast, package, false)];
    var i := 0;
    while i < |deps|
      invariant 0 <= i <= |deps|
      invariant out == Lines(done)
      invariant done + RenderChildren(src, deps, i, prefix + extension, newPath, filter) == whole
    {
      // the package is a key of the source, so the path grows by a fresh key
      assert Unvisited(src, newPath) < Unvisited(src, path) by {
        UnvisitedShrinks(src, path, package);
      }
      var isLastChild := i == |deps| - 1;
      var lines := PrintAsciiTree(src, deps[i], prefix + extension, isLastChild, newPath, filter);
      ghost var child := Render(src, deps[i], prefix + extension, isLastChild, newPath, filter);
      ChildrenStep(src, deps, i, prefix + extension, newPath, filter, done);
      LinesAppend(done, child);
      out := out + lines;
      done := done + child;
      i := i + 1;
    }
    assert done == whole;
  }

}
