/**
 * The import collector (pybryt/preprocessors/imports.py): a syntax-tree
 * visitor that gathers the module names of `import` and `from ... import`
 * statements, and a notebook preprocessor that runs it over every code cell.
 */
module Imports {
  import opened Wrappers

  /**
   * A parsed cell: an `import a, b` statement, a `from m import ...`
   * statement (`m` is `None` for `from . import x`), or any other node with
   * its children in field order.
   */
  datatype Node = Import(names: seq<string>) | ImportFrom(moduleName: Option<string>) | Other(children: seq<Node>)

  /** A notebook cell: its `cell_type` and the tree its source parses to. */
  datatype Cell = Cell(cellType: string, tree: Node)

  /** A notebook; only its `cells` are read. */
  datatype Notebook = Notebook(cells: seq<Cell>)

  /** The names an `import` statement imports. */
  function NamesOf(names: seq<string>): set<Option<string>>
  {
    set i | 0 <= i < |names| :: Some(names[i])
  }

  /** The module names of every import statement in `tree`. */
  function ImportsOf(tree: Node): set<Option<string>>
  {
    match tree
    case Import(names) => NamesOf(names)
    case ImportFrom(m) => {m}
    case Other(children) => ImportsOfAll(children)
  }

  /** The module names of every import statement in the given trees. */
  function ImportsOfAll(trees: seq<Node>): set<Option<string>>
  {
    if trees == [] then {}
    else
      assert trees[|trees| - 1] in trees;
      ImportsOfAll(trees[..|trees| - 1]) + ImportsOf(trees[|trees| - 1])
  }

  /** A module name comes from the children exactly when it comes from one of them. */
  lemma {:induction false} ImportsOfAllMeaning(trees: seq<Node>, m: Option<string>)
    ensures m in ImportsOfAll(trees) <==> exists i :: 0 <= i < |trees| && m in ImportsOf(trees[i])
  {
    if trees != [] {
      var init := trees[..|trees| - 1];
      ImportsOfAllMeaning(init, m);
      assert forall i :: 0 <= i < |init| ==> init[i] == trees[i];
    }
  }

  /** `ImportFinder`: an `ast.NodeVisitor` with the set of module names seen so far. */
  class ImportFinder {
    var imports: set<Option<string>>

    constructor ()
      ensures imports == {}
    {
      imports := {};
    }

    /** `visit_Import`: adds every alias name of the statement; nothing is removed. */
    method VisitImport(names: seq<string>)
      modifies this
      ensures imports == old(imports) + NamesOf(names)
    {
      var i := 0;
      while i < |names|
        invariant 0 <= i <= |names|
        invariant imports == old(imports) + NamesOf(names[..i])
      {
        assert NamesOf(names[..i + 1]) == NamesOf(names[..i]) + {Some(names[i])} by {
          assert forall j :: 0 <= j < i ==> names[..i + 1][j] == names[..i][j];
        }
        imports := imports + {Some(names[i])};
        i := i + 1;
      }
      assert names[..i] == names;
    }

    /** `visit_ImportFrom`: adds the statement's module, `None` included. */
    method VisitImportFrom(moduleName: Option<string>)
      modifies this
      ensures imports == old(imports) + {moduleName}
    {
      imports := imports + {moduleName};
    }

    /**
     * `visit`: an import statement goes to its visitor; any other node to
     * `generic_visit`, which visits its children in order.
     */
    method Visit(tree: Node)
      modifies this
      ensures imports == old(imports) + ImportsOf(tree)
      decreases tree
    {
      match tree
      case Import(names) =>
        VisitImport(names);
      case ImportFrom(m) =>
        VisitImportFrom(m);
      case Other(children) =>
        var i := 0;
        while i < |children|
          invariant 0 <= i <= |children|
          invariant imports == old(imports) + ImportsOfAll(children[..i])
        {
          assert children[i] in children;
          assert children[..i + 1][..i] == children[..i];
          Visit(children[i]);
          i := i + 1;
        }
        assert children[..i] == children;
    }
  }

  /** The module names imported by the code cells of `cells`; other cells are not parsed. */
  function CodeImports(cells: seq<Cell>): set<Option<string>>
  {
    if cells == [] then {}
    else
      var last := cells[|cells| - 1];
      CodeImports(cells[..|cells| - 1]) + (if last.cellType == "code" then ImportsOf(last.tree) else {})
  }

  /** Only code cells contribute, each with every import of its tree. */
  lemma {:induction false} CodeImportsMeaning(cells: seq<Cell>, m: Option<string>)
    ensures m in CodeImports(cells) <==>
              exists i :: 0 <= i < |cells| && cells[i].cellType == "code" && m in ImportsOf(cells[i].tree)
  {
    if cells != [] {
      var init := cells[..|cells| - 1];
      CodeImportsMeaning(init, m);
      assert forall i :: 0 <= i < |init| ==> init[i] == cells[i];
    }
  }

  /** `ImportFindingPreprocessor`: the module names collected over the notebooks it preprocessed. */
  class ImportFindingPreprocessor {
    var imports: set<Option<string>>

    constructor ()
      ensures imports == {}
    {
      imports := {};
    }

    /**
     * `preprocess` as written: each code cell is parsed and visited by a
     * fresh finder, but `self.imports.union(...)` builds a new set that is
     * thrown away, so the preprocessor itself is never changed. The notebook
     * is returned as it came.
     */
    method Preprocess(nb: Notebook) returns (r: Notebook)
      ensures r == nb
    {
      var i := 0;
      while i < |nb.cells|
        invariant 0 <= i <= |nb.cells|
      {
        var cell := nb.cells[i];
        if cell.cellType == "code" {
          var finder := new ImportFinder();
          finder.Visit(cell.tree);
          var discarded := imports + finder.imports;
        }
        i := i + 1;
      }
      return nb;
    }

    /**
     * `preprocess` as its documentation describes it: `self.imports` gains
     * the imports of every code cell, in place.
     */
    method PreprocessIntended(nb: Notebook) returns (r: Notebook)
      modifies this
      ensures r == nb
      ensures imports == old(imports) + CodeImports(nb.cells)
    {
      var i := 0;
      while i < |nb.cells|
        invariant 0 <= i <= |nb.cells|
        invariant imports == old(imports) + CodeImports(nb.cells[..i])
      {
        var cell := nb.cells[i];
        assert nb.cells[..i + 1][..i] == nb.cells[..i];
        if cell.cellType == "code" {
          var finder := new ImportFinder();
          finder.Visit(cell.tree);
          imports := imports + finder.imports;
        }
        i := i + 1;
      }
      assert nb.cells[..i] == nb.cells;
      return nb;
    }
  }

  /**
   * A notebook whose one code cell is `import os`: as written the
   * preprocessor still holds no import afterwards; as intended it holds `os`.
   */
  method ImportsLostExample() returns (asWritten: set<Option<string>>, intended: set<Option<string>>)
    ensures asWritten == {}
    ensures intended == {Some("os")}
  {
    var nb := Notebook([Cell("code", Import(["os"]))]);
    var p := new ImportFindingPreprocessor();
    var _ := p.Preprocess(nb);
    asWritten := p.imports;
    var q := new ImportFindingPreprocessor();
    var _ := q.PreprocessIntended(nb);
    intended := q.imports;
    assert NamesOf(["os"]) == {Some("os")} by {
      assert ["os"][0] == "os";
    }
    assert nb.cells[..0] == [];
  }
}
