/** What `print_ascii_tree` promises (main.py:83-128), proved of the model. */
module TreeProperties {

  import opened Options
  import opened DepSource
  import opened FilterPolicy
  import opened AsciiTree

  // ---------------------------------------------------------------------------
  // The rule for a single node

  /** A filtered-out package prints nothing, not even its own line (main.py:95-96). */
  lemma RenderExcluded(src: Source, package: string, prefix: string, isLast: bool,
                       path: seq<string>, filter: string)
    requires Excluded(filter, package)
    ensures Render(src, package, prefix, isLast, path, filter) == []
  {
  }

  /** A package already on the path prints one line with the cycle marker; its
      dependencies are never looked up, so the source makes no difference
      (main.py:98-101). */
  lemma RenderCycle(src: Source, other: Source, package: string, prefix: string,
                    isLast: bool, path: seq<string>, filter: string)
    requires !Excluded(filter, package) && package in path
    ensures Lines(Render(src, package, prefix, isLast, path, filter))
         == [prefix + Connector(isLast) + package + " (.cycle.)"]
    ensures Render(src, package, prefix, isLast, path, filter)
         == Render(other, package, prefix, isLast, path, filter)
  {
  }

  /** Otherwise the first line is the package under its connector (main.py:103-104). */
  lemma RenderFirstLine(src: Source, package: string, prefix: string, isLast: bool,
                        path: seq<string>, filter: string)
    requires !Excluded(filter, package) && package !in path
    ensures var lines := Lines(Render(src, package, prefix, isLast, path, filter));
      lines != [] && lines[0] == prefix + Connector(isLast) + package
  {
    assert prefix + Connector(isLast) + package + "" == prefix + Connector(isLast) + package;
  }

  /** A lookup that raises, or that leaves nothing after filtering, gives the
      package's line alone (main.py:106-114). */
  lemma RenderLeaf(src: Source, package: string, prefix: string, isLast: bool,
                   path: seq<string>, filter: string)
    requires !Excluded(filter, package) && package !in path
    requires Lookup(src, package).None? || FilterDeps(DepsOrEmpty(src, package), filter) == []
    ensures Lines(Render(src, package, prefix, isLast, path, filter)) == [prefix + Connector(isLast) + package]
  {
    assert prefix + Connector(isLast) + package + "" == prefix + Connector(isLast) + package;
  }

  /** In graph mode a package that is not a key of the test graph is a leaf:
      `get_test_deps` returns `[]` (main.py:79-80). */
  lemma TestGraphMissingKey(graph: map<string, seq<string>>, package: string, prefix: string,
                            isLast: bool, path: seq<string>, filter: string)
    requires !Excluded(filter, package) && package !in path && package !in graph
    ensures Lines(Render(TestGraph(graph), package, prefix, isLast, path, filter))
         == [prefix + Connector(isLast) + package]
  {
    RenderLeaf(TestGraph(graph), package, prefix, isLast, path, filter);
  }

  // ---------------------------------------------------------------------------
  // Indentation: every line starts with the caller's prefix, followed by whole
  // indentation units, at most one unit per package not yet on the path

  /** A run of four-character units `"    "` and `"│   "`. */
  predicate IndentUnits(s: string)
    decreases |s|
  {
    s == [] || (|s| >= 4 && (s[..4] == Blank || s[..4] == Pipe) && IndentUnits(s[4..]))
  }

  predicate IndentedUnder(e: Entry, prefix: string, bound: nat)
  {
    prefix <= e.indent && IndentUnits(e.indent[|prefix|..]) && |e.indent| <= |prefix| + 4 * bound
  }

  lemma IndentStep(e: Entry, prefix: string, isLast: bool, bound: nat)
    requires IndentedUnder(e, prefix + Extension(isLast), bound)
    ensures IndentedUnder(e, prefix, bound + 1)
  {
    var ext := Extension(isLast);
    var rest := e.indent[|prefix|..];
    assert rest[..4] == ext;
    assert rest[4..] == e.indent[|prefix + ext|..];
  }

  lemma {:induction false} RenderIndents(src: Source, package: string, prefix: string, isLast: bool,
                                         path: seq<string>, filter: string)
    ensures forall e <- Render(src, package, prefix, isLast, path, filter) ::
      IndentedUnder(e, prefix, |Unvisited(src, path)|)
    decreases Unvisited(src, path), 0, 0
  {
    var bound := |Unvisited(src, path)|;
    assert prefix[|prefix|..] == [];
    if !Excluded(filter, package) && package !in path {
      var kids := FilterDeps(DepsOrEmpty(src, package), filter);
      if kids != [] {
        UnvisitedShrinks(src, path, package);
        var childPrefix := prefix + Extension(isLast);
        RenderChildrenIndents(src, kids, 0, childPrefix, path + [package], filter);
        forall e <- RenderChildren(src, kids, 0, childPrefix, path + [package], filter)
          ensures IndentedUnder(e, prefix, bound)
        {
          IndentStep(e, prefix, isLast, bound - 1);
        }
      }
    }
  }

  lemma {:induction false} RenderChildrenIndents(src: Source, kids: seq<string>, i: nat, prefix: string,
                                                 path: seq<string>, filter: string)
    requires i <= |kids|
    ensures forall e <- RenderChildren(src, kids, i, prefix, path, filter) ::
      IndentedUnder(e, prefix, |Unvisited(src, path)|)
    decreases Unvisited(src, path), 1, |kids| - i
  {
    if i < |kids| {
      RenderIndents(src, kids[i], prefix, i == |kids| - 1, path, filter);
      RenderChildrenIndents(src, kids, i + 1, prefix, path, filter);
    }
  }

  // ---------------------------------------------------------------------------
  // No printed line names a filtered-out package, and no ancestor is expanded
  // again: a package on the path only ever appears with the cycle marker

  predicate Shown(e: Entry, filter: string, path: seq<string>)
  {
    !Excluded(filter, e.package) && (e.cycle || e.package !in path)
  }

  lemma {:induction false} RenderShown(src: Source, package: string, prefix: string, isLast: bool,
                                       path: seq<string>, filter: string)
    ensures forall e <- Render(src, package, prefix, isLast, path, filter) :: Shown(e, filter, path)
    decreases Unvisited(src, path), 0, 0
  {
    if !Excluded(filter, package) && package !in path {
      var kids := FilterDeps(DepsOrEmpty(src, package), filter);
      if kids != [] {
        UnvisitedShrinks(src, path, package);
        RenderChildrenShown(src, kids, 0, prefix + Extension(isLast), path + [package], filter);
      }
    }
  }

  lemma {:induction false} RenderChildrenShown(src: Source, kids: seq<string>, i: nat, prefix: string,
                                               path: seq<string>, filter: string)
    requires i <= |kids|
    ensures forall e <- RenderChildren(src, kids, i, prefix, path, filter) :: Shown(e, filter, path)
    decreases Unvisited(src, path), 1, |kids| - i
  {
    if i < |kids| {
      RenderShown(src, kids[i], prefix, i == |kids| - 1, path, filter);
      RenderChildrenShown(src, kids, i + 1, prefix, path, filter);
    }
  }

  // ---------------------------------------------------------------------------
  // Every cycle marker is a back edge: it names an ancestor of the call, or a
  // package printed without the marker on an ancestor line of the marked one

  /** Line `j` is a tree ancestor of line `k`: it is indented less than line
      `k`, and every line between the two is indented more than line `j`. */
  predicate AncestorLine(es: seq<Entry>, j: nat, k: nat)
    requires j < k < |es|
  {
    && |es[j].indent| < |es[k].indent|
    && forall m :: j < m < k ==> |es[j].indent| < |es[m].indent|
  }

  predicate ExpandedAbove(es: seq<Entry>, k: nat, package: string)
    requires k < |es|
  {
    exists j :: 0 <= j < k && !es[j].cycle && es[j].package == package && AncestorLine(es, j, k)
  }

  predicate BackEdges(es: seq<Entry>, path: seq<string>)
  {
    forall k :: 0 <= k < |es| && es[k].cycle ==> es[k].package in path || ExpandedAbove(es, k, es[k].package)
  }

  lemma BackEdgesAppend(a: seq<Entry>, b: seq<Entry>, path: seq<string>)
    requires BackEdges(a, path) && BackEdges(b, path)
    ensures BackEdges(a + b, path)
  {
    var ab := a + b;
    forall k | 0 <= k < |ab| && ab[k].cycle && ab[k].package !in path
      ensures ExpandedAbove(ab, k, ab[k].package)
    {
      if k < |a| {
        var j :| 0 <= j < k && !a[j].cycle && a[j].package == a[k].package && AncestorLine(a, j, k);
        assert ab[j] == a[j] && ab[k] == a[k];
        forall m | j < m < k ensures |ab[j].indent| < |ab[m].indent| {
          assert ab[m] == a[m];
        }
        assert AncestorLine(ab, j, k);
      } else {
        var kb := k - |a|;
        assert ab[k] == b[kb];
        var j :| 0 <= j < kb && !b[j].cycle && b[j].package == b[kb].package && AncestorLine(b, j, kb);
        assert ab[j + |a|] == b[j];
        forall m | j + |a| < m < k ensures |ab[j + |a|].indent| < |ab[m].indent| {
          assert ab[m] == b[m - |a|];
        }
        assert AncestorLine(ab, j + |a|, k);
      }
    }
  }

  lemma BackEdgesUnder(head: Entry, rest: seq<Entry>, path: seq<string>)
    requires !head.cycle && BackEdges(rest, path + [head.package])
    requires forall e <- rest :: |head.indent| < |e.indent|
    ensures BackEdges([head] + rest, path)
  {
    var es := [head] + rest;
    forall k | 0 <= k < |es| && es[k].cycle && es[k].package !in path
      ensures ExpandedAbove(es, k, es[k].package)
    {
      assert es[k] == rest[k - 1];
      if es[k].package == head.package {
        assert es[0] == head;
        forall m | 0 < m < k ensures |es[0].indent| < |es[m].indent| {
          assert es[m] == rest[m - 1];
        }
        assert AncestorLine(es, 0, k);
      } else {
        var j :| 0 <= j < k - 1 && !rest[j].cycle && rest[j].package == rest[k - 1].package
                 && AncestorLine(rest, j, k - 1);
        assert es[j + 1] == rest[j];
        forall m | j + 1 < m < k ensures |es[j + 1].indent| < |es[m].indent| {
          assert es[m] == rest[m - 1];
        }
        assert AncestorLine(es, j + 1, k);
      }
    }
  }

  /** A repeated package on a sibling line is not a back edge: main.py:98
      marks only packages on the current path, not every package seen. */
  lemma SiblingRepeatIsNoBackEdge()
    ensures !BackEdges([Entry("", true, "A", false), Entry("    ", false, "C", false),
                        Entry("    ", true, "C", true)], [])
  {
    var es := [Entry("", true, "A", false), Entry("    ", false, "C", false), Entry("    ", true, "C", true)];
    assert es[0].package != "C" && !AncestorLine(es, 1, 2);
    assert !ExpandedAbove(es, 2, "C");
    assert es[2].cycle && es[2].package !in [];
  }

  lemma {:induction false} RenderBackEdges(src: Source, package: string, prefix: string, isLast: bool,
                                           path: seq<string>, filter: string)
    ensures BackEdges(Render(src, package, prefix, isLast, path, filter), path)
    decreases Unvisited(src, path), 0, 0
  {
    if !Excluded(filter, package) && package !in path {
      var kids := FilterDeps(DepsOrEmpty(src, package), filter);
      var head := Entry(prefix, isLast, package, false);
      if kids == [] {
        BackEdgesUnder(head, [], path);
        assert [head] + [] == [head];
      } else {
        UnvisitedShrinks(src, path, package);
        var childPrefix := prefix + Extension(isLast);
        var children := RenderChildren(src, kids, 0, childPrefix, path + [package], filter);
        RenderChildrenBackEdges(src, kids, 0, childPrefix, path + [package], filter);
        RenderChildrenIndents(src, kids, 0, childPrefix, path + [package], filter);
        assert forall e <- children :: childPrefix <= e.indent;
        BackEdgesUnder(head, children, path);
      }
    }
  }

  lemma {:induction false} RenderChildrenBackEdges(src: Source, kids: seq<string>, i: nat, prefix: string,
                                                   path: seq<string>, filter: string)
    requires i <= |kids|
    ensures BackEdges(RenderChildren(src, kids, i, prefix, path, filter), path)
    decreases Unvisited(src, path), 1, |kids| - i
  {
    if i < |kids| {
      RenderBackEdges(src, kids[i], prefix, i == |kids| - 1, path, filter);
      RenderChildrenBackEdges(src, kids, i + 1, prefix, path, filter);
      BackEdgesAppend(Render(src, kids[i], prefix, i == |kids| - 1, path, filter),
                      RenderChildren(src, kids, i + 1, prefix, path, filter), path);
    }
  }

  // ---------------------------------------------------------------------------
  // Children: in lookup order after filtering, only the last one as last sibling

  /** The lines printed at exactly the given indentation, in order. */
  function Heads(es: seq<Entry>, indent: string): seq<Entry>
  {
    if es == [] then []
    else (if es[0].indent == indent then [es[0]] else []) + Heads(es[1..], indent)
  }

  lemma {:induction false} HeadsAppend(a: seq<Entry>, b: seq<Entry>, indent: string)
    ensures Heads(a + b, indent) == Heads(a, indent) + Heads(b, indent)
  {
    if a == [] {
      assert a + b == b;
    } else {
      var ab := a + b;
      var first: seq<Entry> := if a[0].indent == indent then [a[0]] else [];
      assert ab[0] == a[0] && ab[1..] == a[1..] + b;
      HeadsAppend(a[1..], b, indent);
      assert Heads(ab, indent) == first + (Heads(a[1..], indent) + Heads(b, indent));
      assert Heads(a, indent) == first + Heads(a[1..], indent);
    }
  }

  lemma {:induction false} HeadsDeeper(es: seq<Entry>, indent: string)
    requires forall e <- es :: |e.indent| > |indent|
    ensures Heads(es, indent) == []
  {
    if es != [] {
      HeadsDeeper(es[1..], indent);
    }
  }

  /** A package that is not filtered out prints its own line at `prefix`, and
      everything else it prints is indented further. */
  lemma RenderHeads(src: Source, package: string, prefix: string, isLast: bool,
                    path: seq<string>, filter: string)
    requires !Excluded(filter, package)
    ensures Heads(Render(src, package, prefix, isLast, path, filter), prefix)
         == [Entry(prefix, isLast, package, package in path)]
  {
    var r := Render(src, package, prefix, isLast, path, filter);
    if package !in path {
      var kids := FilterDeps(DepsOrEmpty(src, package), filter);
      if kids != [] {
        UnvisitedShrinks(src, path, package);
        var childPrefix := prefix + Extension(isLast);
        RenderChildrenIndents(src, kids, 0, childPrefix, path + [package], filter);
        HeadsDeeper(RenderChildren(src, kids, 0, childPrefix, path + [package], filter), prefix);
        assert r[1..] == RenderChildren(src, kids, 0, childPrefix, path + [package], filter);
      }
    }
  }

  lemma {:induction false} ChildrenHeads(src: Source, kids: seq<string>, i: nat, prefix: string,
                                         path: seq<string>, filter: string)
    requires i <= |kids|
    requires forall k <- kids :: !Excluded(filter, k)
    ensures var hs := Heads(RenderChildren(src, kids, i, prefix, path, filter), prefix);
      && |hs| == |kids| - i
      && forall j :: 0 <= j < |hs| ==> hs[j].package == kids[i + j] && hs[j].last == (i + j == |kids| - 1)
    decreases |kids| - i
  {
    if i < |kids| {
      var isLastChild := i == |kids| - 1;
      var first := Render(src, kids[i], prefix, isLastChild, path, filter);
      var later := RenderChildren(src, kids, i + 1, prefix, path, filter);
      var hs := Heads(RenderChildren(src, kids, i, prefix, path, filter), prefix);
      var hl := Heads(later, prefix);
      assert hs == [Entry(prefix, isLastChild, kids[i], kids[i] in path)] + hl by {
        ChildrenStep(src, kids, i, prefix, path, filter, []);
        assert [] + RenderChildren(src, kids, i, prefix, path, filter) == first + later;
        assert [] + first == first;
        RenderHeads(src, kids[i], prefix, isLastChild, path, filter);
        HeadsAppend(first, later, prefix);
      }
      ChildrenHeads(src, kids, i + 1, prefix, path, filter);
      forall j | 0 <= j < |hs|
        ensures hs[j].package == kids[i + j] && hs[j].last == (i + j == |kids| - 1)
      {
        if j > 0 {
          assert hs[j] == hl[j - 1];
          assert i + 1 + (j - 1) == i + j;
        }
      }
    }
  }

  /** `ChildrenHeads` from the first child on. */
  lemma AllChildrenHeads(src: Source, kids: seq<string>, prefix: string,
                         path: seq<string>, filter: string)
    requires forall k <- kids :: !Excluded(filter, k)
    ensures var hs := Heads(RenderChildren(src, kids, 0, prefix, path, filter), prefix);
      && |hs| == |kids|
      && forall j :: 0 <= j < |hs| ==> hs[j].package == kids[j] && hs[j].last == (j == |kids| - 1)
  {
    ChildrenHeads(src, kids, 0, prefix, path, filter);
    var hs := Heads(RenderChildren(src, kids, 0, prefix, path, filter), prefix);
    forall j | 0 <= j < |hs|
      ensures hs[j].package == kids[j] && hs[j].last == (j == |kids| - 1)
    {
      assert 0 + j == j;
    }
  }

  /** An expanded package prints its line, then its children: one block per
      dependency left after filtering, in lookup order, each at the prefix
      extended by `"    "` or `"│   "`, the last one alone with `└── `
      (main.py:114-128). */
  lemma RenderChildOrder(src: Source, package: string, prefix: string, isLast: bool,
                         path: seq<string>, filter: string)
    requires !Excluded(filter, package) && package !in path
    ensures var r := Render(src, package, prefix, isLast, path, filter);
      var kids := FilterDeps(DepsOrEmpty(src, package), filter);
      var childPrefix := prefix + Extension(isLast);
      var hs := Heads(r[1..], childPrefix);
      && r[0] == Entry(prefix, isLast, package, false)
      && (forall e <- r[1..] :: childPrefix <= e.indent)
      && |hs| == |kids|
      && forall j :: 0 <= j < |hs| ==> hs[j].package == kids[j] && hs[j].last == (j == |kids| - 1)
  {
    var r := Render(src, package, prefix, isLast, path, filter);
    var kids := FilterDeps(DepsOrEmpty(src, package), filter);
    var childPrefix := prefix + Extension(isLast);
    var head := Entry(prefix, isLast, package, false);
    var children := RenderChildren(src, kids, 0, childPrefix, path + [package], filter);
    assert r[0] == head && r[1..] == children by {
      RenderExpands(src, package, prefix, isLast, path, filter);
      assert r == [head] + children;
    }
    if kids == [] {
      assert Heads(r[1..], childPrefix) == [] by {
        assert children == [];
      }
    } else {
      assert forall e <- children :: childPrefix <= e.indent by {
        RenderChildrenIndents(src, kids, 0, childPrefix, path + [package], filter);
      }
      assert forall k <- kids :: !Excluded(filter, k);
      AllChildrenHeads(src, kids, childPrefix, path + [package], filter);
    }
  }

  // ---------------------------------------------------------------------------
  // The whole tree

  /** The tree of a root: empty when the root is filtered out, else headed by
      `"└── " + root`; no line names a filtered-out package; every line is
      indented by whole units, at most one per key of the source, so the
      nesting is at most one level deeper than the number of keys; every cycle
      marker names a package expanded on one of its ancestor lines. */
  lemma TreeShape(src: Source, root: string, filter: string)
    ensures Excluded(filter, root) ==> Tree(src, root, filter) == []
    ensures !Excluded(filter, root) ==> Tree(src, root, filter) != [] && Tree(src, root, filter)[0] == "└── " + root
    ensures forall e <- Render(src, root, "", true, [], filter) ::
      && !Excluded(filter, e.package)
      && IndentUnits(e.indent)
      && |e.indent| <= 4 * |Keys(src)|
    ensures BackEdges(Render(src, root, "", true, [], filter), [])
  {
    RenderBackEdges(src, root, "", true, [], filter);
    RenderShown(src, root, "", true, [], filter);
    RenderIndents(src, root, "", true, [], filter);
    assert Unvisited(src, []) == Keys(src);
    if !Excluded(filter, root) {
      RenderFirstLine(src, root, "", true, [], filter);
    }
  }

}
