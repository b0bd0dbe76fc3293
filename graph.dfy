/**
 * The entry-point builder and iterator of core/src/lib.rs. A `Graph` collects
 * entry paths and an optional root; turning it into an iterator moves both
 * into an `IntoIter`, whose every `next` pops the last entry, parses that
 * file and yields the parse error or the path's debug form.
 */
module EsmGraph {
  import opened Wrappers
  import Imports
  import PathDebug

  type Path = string

  /** `GraphOptions`: the configured root directory, if any. */
  datatype GraphOptions = GraphOptions(root: Option<Path>)

  /** The iterator's item. */
  type Item = Result<string, Imports.Error>

  /** What reading and parsing the file at each path gives. */
  type FileSystem = Path -> Imports.Source

  /** No entry's file is one the parser rejects (on which the source panics). */
  predicate Parsable(fs: FileSystem, entries: seq<Path>) {
    forall i :: 0 <= i < |entries| ==> !fs(entries[i]).Malformed?
  }

  /** What `next` yields for the popped entry `path`. */
  function ItemFor(fs: FileSystem, path: Path): Item
    requires !fs(path).Malformed?
  {
    match Imports.ParseResult(fs(path))
    case Err(e) => Err(e)
    case Ok(_) => Ok(PathDebug.Debug(path))
  }

  /** Everything `next` yields, call after call, from `entries` until it returns None. */
  function Drained(fs: FileSystem, entries: seq<Path>): seq<Item>
    requires Parsable(fs, entries)
  {
    if entries == [] then []
    else [ItemFor(fs, entries[|entries| - 1])] + Drained(fs, entries[..|entries| - 1])
  }

  /**
   * The iterator yields exactly one item per entry, last-added entry first,
   * and no other items.
   */
  lemma {:induction false} DrainedReversesEntries(fs: FileSystem, entries: seq<Path>)
    requires Parsable(fs, entries)
    ensures |Drained(fs, entries)| == |entries|
    ensures forall k :: 0 <= k < |entries| ==> Drained(fs, entries)[k] == ItemFor(fs, entries[|entries| - 1 - k])
  {
    if entries != [] {
      var n := |entries|;
      var front := entries[..n - 1];
      assert Parsable(fs, front) by {
        forall i | 0 <= i < |front| ensures !fs(front[i]).Malformed? {
          assert front[i] == entries[i];
        }
      }
      DrainedReversesEntries(fs, front);
      var rest := Drained(fs, front);
      var d := Drained(fs, entries);
      assert d == [ItemFor(fs, entries[n - 1])] + rest;
      forall k | 0 < k < n
        ensures d[k] == ItemFor(fs, entries[n - 1 - k])
      {
        assert d[k] == rest[k - 1];
        assert front[|front| - 1 - (k - 1)] == entries[n - 1 - k];
      }
    }
  }

  /**
   * A parse that succeeds yields the entry's debug form, one that fails
   * yields its error: so the item tells which happened, and for which path.
   */
  lemma ItemForTellsOutcome(fs: FileSystem, path: Path)
    requires !fs(path).Malformed?
    ensures ItemFor(fs, path).Err? <==> fs(path).Unreadable?
    ensures ItemFor(fs, path).Err? ==> ItemFor(fs, path).error == fs(path).error
    ensures ItemFor(fs, path).Ok? ==> PathDebug.Unquote(ItemFor(fs, path).value) == Some(path)
  {
    if fs(path).Parsed? {
      PathDebug.DebugRoundTrip(path);
    }
  }

  /** `Graph`: the entries added so far and the options. */
  class Graph {
    var entries: seq<Path>
    var opts: GraphOptions

    /** `Graph::new`: no entries, no root. */
    constructor ()
      ensures entries == [] && opts == GraphOptions(None)
    {
      entries := [];
      opts := GraphOptions(None);
    }

    /** `Graph::default`, the same as `Graph::new`. */
    constructor Default()
      ensures entries == [] && opts == GraphOptions(None)
    {
      entries := [];
      opts := GraphOptions(None);
    }

    /** `add`: `p` goes to the end of the entries; returns the graph itself for chaining. */
    method Add(p: Path) returns (g: Graph)
      modifies this
      ensures entries == old(entries) + [p]
      ensures opts == old(opts)
      ensures g == this
    {
      entries := entries + [p];
      g := this;
    }

    /** `root`: sets the root, replacing any earlier one; returns the graph itself. */
    method Root(p: Path) returns (g: Graph)
      modifies this
      ensures opts == GraphOptions(Some(p))
      ensures entries == old(entries)
      ensures g == this
    {
      opts := opts.(root := Some(p));
      g := this;
    }

    /** `into_iter`: the entries and options move into a new iterator with an empty import list. */
    method IntoIterator() returns (it: IntoIter)
      ensures fresh(it)
      ensures it.entries == entries && it.opts == opts && it.imports == []
    {
      it := new IntoIter(opts, entries);
    }
  }

  /** `IntoIter`: the entries still to be visited. */
  class IntoIter {
    var opts: GraphOptions
    var entries: seq<Path>
    /** Never written after construction. */
    var imports: seq<string>

    constructor (opts: GraphOptions, entries: seq<Path>)
      ensures this.opts == opts && this.entries == entries && imports == []
    {
      this.opts := opts;
      this.entries := entries;
      imports := [];
    }

    /**
     * `next`: None when no entry is left; otherwise the last entry is
     * removed and parsed, and the parse error or the entry's debug form is
     * yielded; the entry is consumed either way.
     */
    method Next(fs: FileSystem) returns (item: Option<Item>)
      requires entries != [] ==> !fs(entries[|entries| - 1]).Malformed?
      modifies this
      ensures old(entries) == [] ==> item == None && entries == []
      ensures old(entries) != [] ==>
        && entries == old(entries)[..|old(entries)| - 1]
        && item == Some(ItemFor(fs, old(entries)[|old(entries)| - 1]))
      ensures opts == old(opts) && imports == old(imports)
    {
      // The source's `while !entries.is_empty()` returns on its first pass,
      // so it is the conditional below.
      if entries != [] {
        var path := entries[|entries| - 1];
        entries := entries[..|entries| - 1];
        var parsed := Imports.Parse(fs(path));
        match parsed {
          case Ok(_) =>
          case Err(err) => return Some(Err(err));
        }
        return Some(Ok(PathDebug.Debug(path)));
      }
      return None;
    }
  }

  /**
   * Pulls items from `it` until `next` returns None, as `collect` does: the
   * items are those `Drained` describes, and every entry is consumed.
   */
  method Collect(it: IntoIter, fs: FileSystem) returns (items: seq<Item>)
    requires Parsable(fs, it.entries)
    modifies it
    ensures items == Drained(fs, old(it.entries))
    ensures it.entries == [] && it.opts == old(it.opts) && it.imports == old(it.imports)
  {
    items := [];
    while true
      invariant Parsable(fs, it.entries)
      invariant it.entries == old(it.entries)[..|it.entries|]
      invariant items + Drained(fs, it.entries) == Drained(fs, old(it.entries))
      invariant it.opts == old(it.opts) && it.imports == old(it.imports)
      decreases |it.entries|
    {
      ghost var before := it.entries;
      var next := it.Next(fs);
      match next {
        case None =>
          assert items == Drained(fs, old(it.entries));
          return;
        case Some(x) =>
          items := items + [x];
          assert Parsable(fs, it.entries) by {
            forall i | 0 <= i < |it.entries| ensures !fs(it.entries[i]).Malformed? {
              assert it.entries[i] == before[i];
            }
          }
      }
    }
  }
}
