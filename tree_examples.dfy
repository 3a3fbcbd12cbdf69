/** The renderer on small test graphs, as main.py prints them below its header
    and separator lines. */
module TreeExamples {

  import opened DepSource
  import opened FilterPolicy
  import opened AsciiTree

  const Diamond: map<string, seq<string>> := map["A" := ["B", "C"], "B" := ["C"], "C" := []]
  const Loop: map<string, seq<string>> := map["A" := ["B"], "B" := ["A"]]

  /** Siblings keep their order, only the last gets `└── `, and C is printed
      under both of its parents. */
  lemma DiamondTree()
    ensures Tree(TestGraph(Diamond), "A", "") == ["└── A", "    ├── B", "    │   └── C", "    └── C"]
  {
    var src := TestGraph(Diamond);
    var c2 := Render(src, "C", "    │   ", true, ["A", "B"], "");
    assert c2 == [Entry("    │   ", true, "C", false)] by {
      EmptyFilterKeepsAll([]);
      assert DepsOrEmpty(src, "C") == [];
      RenderExpands(src, "C", "    │   ", true, ["A", "B"], "");
    }
    var b := Render(src, "B", "    ", false, ["A"], "");
    assert b == [Entry("    ", false, "B", false)] + c2 by {
      EmptyFilterKeepsAll(["C"]);
      assert DepsOrEmpty(src, "B") == ["C"];
      assert ["A"] + ["B"] == ["A", "B"];
      assert "    " + Extension(false) == "    │   ";
      RenderExpands(src, "B", "    ", false, ["A"], "");
      assert RenderChildren(src, ["C"], 0, "    │   ", ["A", "B"], "") == c2;
    }
    var c1 := Render(src, "C", "    ", true, ["A"], "");
    assert c1 == [Entry("    ", true, "C", false)] by {
      EmptyFilterKeepsAll([]);
      assert DepsOrEmpty(src, "C") == [];
      RenderExpands(src, "C", "    ", true, ["A"], "");
    }
    var r := Render(src, "A", "", true, [], "");
    assert r == [Entry("", true, "A", false)] + b + c1 by {
      EmptyFilterKeepsAll(["B", "C"]);
      assert DepsOrEmpty(src, "A") == ["B", "C"];
      assert [] + ["A"] == ["A"];
      assert "" + Extension(true) == "    ";
      RenderExpands(src, "A", "", true, [], "");
      assert RenderChildren(src, ["B", "C"], 1, "    ", ["A"], "") == c1;
      assert RenderChildren(src, ["B", "C"], 0, "    ", ["A"], "") == b + c1;
    }
    DiamondLines();
  }

  lemma DiamondLines()
    ensures Lines([Entry("", true, "A", false), Entry("    ", false, "B", false),
                   Entry("    │   ", true, "C", false), Entry("    ", true, "C", false)])
         == ["└── A", "    ├── B", "    │   └── C", "    └── C"]
  {
    assert "" + Corner + "A" + "" == "└── A";
    assert "    " + Tee + "B" + "" == "    ├── B";
    assert "    │   " + Corner + "C" + "" == "    │   └── C";
    assert "    " + Corner + "C" + "" == "    └── C";
  }

  /** The edge back to the root is printed once, marked, and not followed. */
  lemma LoopTree()
    ensures Tree(TestGraph(Loop), "A", "") == ["└── A", "    └── B", "        └── A (.cycle.)"]
  {
    var src := TestGraph(Loop);
    var a2 := Render(src, "A", "        ", true, ["A", "B"], "");
    assert a2 == [Entry("        ", true, "A", true)];
    var b := Render(src, "B", "    ", true, ["A"], "");
    assert b == [Entry("    ", true, "B", false)] + a2 by {
      EmptyFilterKeepsAll(["A"]);
      assert DepsOrEmpty(src, "B") == ["A"];
      assert ["A"] + ["B"] == ["A", "B"];
      assert "    " + Extension(true) == "        ";
      RenderExpands(src, "B", "    ", true, ["A"], "");
      assert RenderChildren(src, ["A"], 0, "        ", ["A", "B"], "") == a2;
    }
    var r := Render(src, "A", "", true, [], "");
    assert r == [Entry("", true, "A", false)] + b by {
      EmptyFilterKeepsAll(["B"]);
      assert DepsOrEmpty(src, "A") == ["B"];
      assert [] + ["A"] == ["A"];
      assert "" + Extension(true) == "    ";
      RenderExpands(src, "A", "", true, [], "");
      assert RenderChildren(src, ["B"], 0, "    ", ["A"], "") == b;
    }
    assert r == [Entry("", true, "A", false), Entry("    ", true, "B", false), Entry("        ", true, "A", true)];
    LoopLines();
  }

  lemma LoopLines()
    ensures Lines([Entry("", true, "A", false), Entry("    ", true, "B", false), Entry("        ", true, "A", true)])
         == ["└── A", "    └── B", "        └── A (.cycle.)"]
  {
    assert "" + Corner + "A" + "" == "└── A";
    assert "    " + Corner + "B" + "" == "    └── B";
    assert "        " + Corner + "A" + CycleMark == "        └── A (.cycle.)";
  }

  /** Filtering out C removes it under both parents, and B becomes A's last child. */
  lemma FilteredTree()
    ensures Tree(TestGraph(Diamond), "A", "C") == ["└── A", "    └── B"]
  {
    var src := TestGraph(Diamond);
    assert DepsOrEmpty(src, "A") == ["B", "C"] && DepsOrEmpty(src, "B") == ["C"];
    assert [] + ["A"] == ["A"];
    assert "" + Extension(true) == "    ";
    assert !Contains("", "C");
    assert "A"[1..] == "" && "B"[1..] == "";
    assert !("C" <= "A") by { assert "A"[0] != "C"[0]; }
    assert !("C" <= "B") by { assert "B"[0] != "C"[0]; }
    assert !Contains("A", "C") && !Contains("B", "C") && Contains("C", "C");
    assert ["C"][1..] == [] && ["B", "C"][1..] == ["C"];
    assert FilterDeps(["C"], "C") == [];
    assert FilterDeps(["B", "C"], "C") == ["B"];
    var b := Render(src, "B", "    ", true, ["A"], "C");
    assert b == [Entry("    ", true, "B", false)];
    assert RenderChildren(src, ["B"], 0, "    ", ["A"], "C") == b;
    var r := Render(src, "A", "", true, [], "C");
    assert r == [Entry("", true, "A", false), Entry("    ", true, "B", false)];
    FilteredLines();
  }

  lemma FilteredLines()
    ensures Lines([Entry("", true, "A", false), Entry("    ", true, "B", false)]) == ["└── A", "    └── B"]
  {
    assert "" + Corner + "A" + "" == "└── A";
    assert "    " + Corner + "B" + "" == "    └── B";
  }

}
