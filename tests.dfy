/** The integration test of tests/tests.rs, on the model. */
module GraphTests {
  import opened Wrappers
  import Ast
  import Imports
  import PathDebug
  import opened EsmGraph

  /**
   * `parse_example_js`: a new graph with root "tests/data" and the single
   * entry "example.js", drained and collected, yields exactly the entry's
   * debug form, provided that file parses.
   */
  method ParseExampleJs(fs: FileSystem) returns (imports: seq<Item>)
    requires fs("example.js").Parsed?
    ensures imports == [Ok("\"example.js\"")]
  {
    var graph := new Graph();
    var g := graph.Root("tests/data");
    g := g.Add("example.js");
    assert graph.entries == ["example.js"];
    var it := graph.IntoIterator();
    imports := Collect(it, fs);
    SingleParsedEntry(fs, "example.js");
    PathDebug.DebugExample();
  }

  /** Draining one entry whose file parses yields that entry's debug form. */
  lemma SingleParsedEntry(fs: FileSystem, p: Path)
    requires fs(p).Parsed?
    ensures Drained(fs, [p]) == [Ok(PathDebug.Debug(p))]
  {
    assert [p][..0] == [];
  }

  /**
   * Entries added as a, b, c come out as c, b, a, each exactly once, an
   * unreadable file's error in its place.
   */
  method LastInFirstOut(fs: FileSystem, a: Path, b: Path, c: Path) returns (items: seq<Item>)
    requires !fs(a).Malformed? && !fs(b).Malformed? && !fs(c).Malformed?
    ensures items == [ItemFor(fs, c), ItemFor(fs, b), ItemFor(fs, a)]
  {
    var graph := new Graph.Default();
    var g := graph.Add(a);
    g := g.Add(b);
    g := g.Add(c);
    assert graph.entries == [a, b, c];
    assert Parsable(fs, [a, b, c]);
    var it := graph.IntoIterator();
    items := Collect(it, fs);
    DrainedReversesEntries(fs, [a, b, c]);
  }
}
