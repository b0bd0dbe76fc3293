# esm-graph core, modelled in Dafny

esm-graph builds a module dependency graph for JavaScript code. Its core
does two things.

- `ImportVisitor` walks a parsed module. It collects every
  `import … from "x"` source and every `require("x")` literal into a
  static list. It collects every `import("x")` literal into a dynamic list.
  The exception is a call inside the arguments of another `require`/`import`
  call: those arguments are not visited, so `require(f(require("x")))`
  yields nothing and `require("a", require("b"))` yields only `a`.
  `Parser::parse` reads a file, parses it, runs the visitor and returns the
  static list.
- `Graph` collects entry paths and an optional root. Turning it into an
  iterator moves both into an `IntoIter`. Each `next` pops the last entry,
  parses that file, and yields the parse error or the path's debug form
  (`"\"example.js\""` for `example.js`).

The Dafny project has five modules.

- `Wrappers` holds `Option` and `Result`.
- `Ast` is the part of the syntax tree the visitor looks at: import
  declarations, calls (callee and arguments, each argument with its spread
  flag), identifiers, literals, and every other node as a list of children in
  source order.
- `Imports` holds the visitor and the parser.
  - `Extract` is a pure specification of what a walk appends.
  - The class `ImportVisitor` has the two lists as fields. Its recursive
    methods are proved against `Extract`.
  - `Sites` is an independent reference walk. It has no short-circuit and
    lists every import site of the tree. Soundness and completeness lemmas
    relate `Extract` to `Sites`.
  - The module's two unit tests are modelled on the trees the parser gives
    for their sources.
- `PathDebug` is `format!("{:?}", path)` for a path that is valid text, with
  a proved inverse.
- `EsmGraph` holds the classes `Graph` and `IntoIter`. `Drained` specifies
  what the iterator yields, and `Collect` drains an iterator the way
  `collect` does.
- `GraphTests` is the integration test of tests/tests.rs.

Reading and parsing a file is a parameter. `Imports.Source` is what the file
system and the parser give for one file: `Unreadable(error)`, `Malformed`
(a syntax error) or `Parsed(tree)`. `EsmGraph.FileSystem` maps each path to
its `Source`.

## Model

| member | source | states |
|---|---|---|
| Imports.ImportVisitor.constructor | core/src/imports.rs:79-84 | a new visitor has both lists empty |
| Imports.ImportVisitor.VisitImportDecl | core/src/imports.rs:87-91 | the declaration's source goes to the end of the static list; the dynamic list is unchanged |
| Imports.ImportVisitor.VisitCallExpr | core/src/imports.rs:93-118 | each list grows by exactly what `Extract` gives for the call: a loader call adds its literal to the list of its kind or adds nothing, and any other call adds what its callee and then its arguments give |
| Imports.ImportVisitor.VisitCallChildren | core/src/imports.rs:113-115 | visiting a call's children appends the callee's specifiers and then the arguments', to both lists |
| Imports.ImportVisitor.VisitArgs | core/src/imports.rs:113-115 | the arguments are visited left to right, and each one's specifiers are appended in that order |
| Imports.ImportVisitor.Visit | core/src/imports.rs:87-118 | visiting any node appends `Extract` of it to each list; nothing already collected is changed |
| Imports.ImportVisitor.VisitChildren | core/src/imports.rs:65 | a node that is not an import declaration or a call has its children visited in order |
| Imports.ImportVisitor.VisitAll | core/src/imports.rs:65 | visiting a run of nodes appends their specifiers in order |
| Imports.ImportVisitor.VisitModule | core/src/imports.rs:65 | visiting a module appends `ExtractModule` of it to each list |
| Imports.Parse | core/src/imports.rs:29-69 | a read failure is returned as the error; otherwise the result is the static list of a fresh visitor run over the module, with the dynamic list dropped |
| Imports.ParseReturnsStaticSites | core/src/imports.rs:29-69 | every returned specifier is an `import … from` source or a `require` literal of the file, never an `import()` argument; none is returned more often than it is written, and the returned list keeps the sites' source order |
| Imports.ExtractAllAppend | core/src/imports.rs:87-118 | visiting two runs of nodes appends the first run's specifiers and then the second's: lists only grow at the end and nothing is reordered |
| Imports.ExtractArgsAppend | core/src/imports.rs:113-115 | the same for argument lists |
| Imports.ImportDeclsInOrder | core/src/imports.rs:87-91 | a run of import declarations yields exactly their sources, in order and with duplicates kept, and no dynamic specifier |
| Imports.ExtractWithinSites | core/src/imports.rs:93-118 | every specifier the walk yields of one kind is a site of that kind in the tree, counted with multiplicity, so an `import()` literal never lands in the static list |
| Imports.ExtractAllWithinSites | core/src/imports.rs:113-115 | the same soundness for a run of nodes |
| Imports.ExtractArgsWithinSites | core/src/imports.rs:113-115 | the same soundness for an argument list |
| Imports.ExtractOrderedWithinSites | core/src/imports.rs:93-118 | what the walk yields of one kind is the tree's sites of that kind in source order with some left out (those inside a loader call's arguments): nothing is added or reordered, nested sites included |
| Imports.ExtractAllOrderedWithinSites | core/src/imports.rs:113-115 | the same ordered soundness for a run of nodes |
| Imports.ExtractArgsOrderedWithinSites | core/src/imports.rs:113-115 | the same ordered soundness for an argument list |
| Imports.SubsequenceJoin | core/src/imports.rs:113-115 | joining two walks keeps each one's order against the joined sites, the step by which order is kept across children |
| Imports.ExtractMatchesSites | core/src/imports.rs:87-118 | when no `require`/`import` call has a site among its arguments, the walk yields every site of each kind, once per occurrence and in source order |
| Imports.ExtractAllMatchesSites | core/src/imports.rs:113-115 | the same completeness for a run of nodes |
| Imports.ExtractArgsMatchSites | core/src/imports.rs:113-115 | the same completeness for an argument list |
| Imports.RequireLiteralIsStatic | core/src/imports.rs:97-108 | `require` with a string-literal first argument (spread or not) yields that literal as static and nothing else; later arguments are not visited |
| Imports.ImportLiteralIsDynamic | core/src/imports.rs:97-105 | `import` with a string-literal first argument yields that literal as dynamic only |
| Imports.NonLiteralLoaderCallYieldsNothing | core/src/imports.rs:97-111 | a `require`/`import` call with no first argument, or a first argument that is not a string literal, yields nothing, even when its arguments hold import sites |
| Imports.CalledRequireIsFound | core/src/imports.rs:113-115 | in `require("x")(args)` the call in callee position is still found, before anything in `args` |
| Imports.ChainedImportIsFound | core/src/imports.rs:113-115 | in `import("x").then(handler)` the dynamic import inside the member chain is still found, before the handler's specifiers |
| Imports.PromiseStatementYields | core/src/imports.rs:189 | `const promise = import(x)` yields `x` as dynamic |
| Imports.ChainStatementYields | core/src/imports.rs:191-196 | the `import(x).then(…).catch(…)` statement yields `x` as dynamic and nothing else |
| Imports.ConsoleLogYieldsNothing | core/src/imports.rs:192 | `console.log("msg", v)` yields nothing |
| Imports.LogMessageYieldsNothing | core/src/imports.rs:235 | `console.log("msg")` yields nothing |
| Imports.LoggingArrowYieldsNothing | core/src/imports.rs:191-196 | an arrow function whose body only logs yields nothing |
| Imports.ImportsTreeYields | core/src/imports.rs:179-218 | the `parse_imports` module yields its six declaration sources as static and its two `import()` literals as dynamic, in source order |
| Imports.ParseImportsExample | core/src/imports.rs:205-217 | the same with the test's own strings |
| Imports.RequireHeadItems | core/src/imports.rs:223-226 | each of the first four statements of `parse_require` yields its one `require` literal |
| Imports.RequireTailItems | core/src/imports.rs:228-235 | the empty `if`, the `{State}` declaration, `require(x)()` and the log call yield nothing, one literal, one literal and nothing |
| Imports.RequireTreeYields | core/src/imports.rs:220-252 | the `parse_require` module yields its six `require` literals as static, in source order, and nothing dynamic |
| Imports.ParseRequireExample | core/src/imports.rs:244-251 | the same with the test's own strings |
| EsmGraph.Graph.constructor | core/src/lib.rs:27-32 | a new graph has no entries and no root |
| EsmGraph.Graph.Default | core/src/lib.rs:49-53 | the default graph is the new graph |
| EsmGraph.Graph.Add | core/src/lib.rs:34-39 | the path goes to the end of the entries; the options are unchanged; the graph itself is returned |
| EsmGraph.Graph.Root | core/src/lib.rs:41-46 | the root becomes the path, replacing any earlier root; the entries are unchanged; the graph itself is returned |
| EsmGraph.Graph.IntoIterator | core/src/lib.rs:65-72 | a new iterator carries the graph's entries and options and an empty import list |
| EsmGraph.IntoIter.constructor | core/src/lib.rs:66-71 | the iterator holds the given options and entries and no imports |
| EsmGraph.IntoIter.Next | core/src/lib.rs:85-103 | with no entries it yields None and changes nothing; otherwise the last entry is removed, and the item is the read error or the entry's debug form; options and imports never change |
| EsmGraph.DrainedReversesEntries | core/src/lib.rs:85-103 | draining the iterator yields one item per entry, the last-added entry first |
| EsmGraph.ItemForTellsOutcome | core/src/lib.rs:90-97 | an item is an error exactly when the file was unreadable, and then it is that error; a success reads back to the entry's path |
| EsmGraph.Collect | tests/tests.rs:11 | pulling until None yields exactly the drained sequence and leaves no entries |
| PathDebug.Debug | core/src/lib.rs:97 | the debug form starts and ends with a double quote and is at least two characters longer than the path |
| PathDebug.UnescapeEscape | core/src/lib.rs:97 | reading the escaped body back gives the path |
| PathDebug.DebugRoundTrip | core/src/lib.rs:97 | stripping the quotes and reading the escapes back gives the path |
| PathDebug.DebugInjective | core/src/lib.rs:97 | distinct paths have distinct debug forms |
| PathDebug.EscapePlain | core/src/lib.rs:97 | a path with no character to escape is written as itself |
| PathDebug.DebugPlain | core/src/lib.rs:97 | such a path's debug form is the path between double quotes |
| PathDebug.DebugExample | tests/tests.rs:13 | the debug form of `example.js` is `"example.js"` with the quotes |
| GraphTests.SingleParsedEntry | core/src/lib.rs:85-97 | draining one entry whose file parses yields that entry's debug form |
| GraphTests.ParseExampleJs | tests/tests.rs:5-16 | a graph with root `tests/data` and the entry `example.js`, drained and collected, yields exactly `["\"example.js\""]` when that file parses |
| GraphTests.LastInFirstOut | core/src/lib.rs:85-103 | entries added as a, b, c come out as c, b, a, each once, an unreadable file's error in its place |

## What the code does not do

The model follows the code as written. These gaps are in the code itself.

- Nothing resolves a specifier to a file, keeps a visited set, records a
  module or an edge, or traverses beyond the entries. `IntoIter::next` only
  pops the last entry, parses it and yields a string. The specifiers it gets
  back are printed and then dropped.
- `opts.root` is written by `root` (core/src/lib.rs:44) and never read. The
  entry path is parsed as given, so `ParseExampleJs` reads `example.js`, not
  `tests/data/example.js`.
- A syntax error makes the code panic (`expect("parser error")` at
  core/src/imports.rs:63). The model makes "the file is not `Malformed`" a
  precondition of `Parse` and `Next`.
- A read failure is returned from `next`, and that entry is consumed. The
  iterator stays usable, so a consumer that keeps pulling gets the remaining
  entries.
- A specifier keeps only its text, not where it was written.
- `parse` returns only the static list. The dynamic list is collected and
  then discarded.
- Specifiers inside the arguments of a `require`/`import` call are never
  found (core/src/imports.rs:97-111). `ExtractOrderedWithinSites` and
  `ExtractWithinSites` state what is found in that case; `ExtractMatchesSites`
  states that nothing is lost when no such nesting occurs.

## Left out

- The swc lexer, parser, `SourceMap`, `Handler` and `GLOBALS` are not modelled. `Ast` is the part of swc's tree the visitor matches on. All other node kinds are `Other` with their children in source order.
- `export … from "x"` is not an `ImportDecl` in swc, so re-exports are not collected. The model does the same: such nodes are `Other`.
- Reading a file is not modelled. It is the `Source` parameter, whose `Unreadable` case stands for a failure of `File::open` or `read_to_string`.
- Imports.Parse: a syntax error makes the source panic. The model excludes it by precondition instead of modelling the panic.
- EsmGraph.IntoIter.Next: the same precondition, for the same reason.
- The `debug!` and `println!` logging and `fmt::Debug for Graph` are output only. They are not modelled.
- The parser's `SourceMap` state, which grows with each parsed file, is not modelled, because it does not affect the result.
- EsmGraph.Graph.IntoIterator: Rust moves the graph into the iterator. The model copies the fields into a fresh object, and the graph is not used afterwards.
- EsmGraph.IntoIter.Next: the source's `while` loop returns on its first pass, so it is modelled as an `if`.
- PathDebug.Debug: `\u{…}` escapes for control and non-printable characters, and non-UTF-8 paths, are not modelled. Only tab, carriage return, line feed, backslash, double quote and single quote are escaped. Rust escaped the single quote when this code was written.
- The CLI binaries, src/lib.rs, src/parse.rs and src/main.rs are outside this model.
- Resolution, traversal, the visited set and the parallel mode do not exist in the code, so they are not modelled.
