/**
 * The import-specifier extractor of core/src/imports.rs: a visitor that walks
 * a parsed module and appends every `import … from "x"`, `require("x")` and
 * `import("x")` specifier to one of two ordered lists, except those inside
 * the arguments of another `require`/`import` call, which are not visited;
 * and `Parser::parse`, which reads a file, parses it and returns the static
 * list.
 */
module Imports {
  import opened Wrappers
  import opened Ast

  // ---------------------------------------------------------------------------
  // Specification of the walk
  // ---------------------------------------------------------------------------

  /** Static: loaded eagerly (`import` declaration, `require`); Dynamic: `import()`. */
  datatype Kind = Static | Dynamic

  /** The visitor's two lists, `static_imports` and `dynamic_imports`. */
  datatype Specifiers = Specifiers(statics: seq<string>, dynamics: seq<string>) {

    /** The list of one kind. */
    function Of(k: Kind): seq<string> {
      if k == Static then statics else dynamics
    }

    /** These specifiers followed by `other`'s, list by list. */
    function Then(other: Specifiers): Specifiers {
      Specifiers(statics + other.statics, dynamics + other.dynamics)
    }
  }

  const NoSpecifiers := Specifiers([], [])

  /** The single specifier `x` of kind `k`. */
  function Single(k: Kind, x: string): Specifiers {
    if k == Static then Specifiers([x], []) else Specifiers([], [x])
  }

  // ---------------------------------------------------------------------------
  // Helpers on lists and specifiers
  // ---------------------------------------------------------------------------

  /** Nothing is the unit of `Then`. */
  lemma ThenNothing(x: Specifiers)
    ensures x.Then(NoSpecifiers) == x
  {
    assert x.statics + [] == x.statics;
    assert x.dynamics + [] == x.dynamics;
  }

  /** Nothing in front of a list leaves it as it is. */
  lemma EmptyFront(x: seq<string>)
    ensures [] + x == x
  {
  }

  /** Appending to a list in two steps is appending the two parts at once. */
  lemma Grown(start: seq<string>, done: seq<string>, next: seq<string>)
    ensures start + done + next == start + (done + next)
  {
  }

  /** Four lists joined from the right, then regrouped from the left. */
  lemma Regrouped(s0: seq<string>, s1: seq<string>, s2: seq<string>, s3: seq<string>)
    ensures s0 + (s1 + (s2 + (s3 + []))) == s0 + s1 + s2 + s3
  {
    assert s3 + [] == s3;
  }

  /** Six items, regrouped as `RequireTree`'s head and tail yield them. */
  lemma SixRegrouped(r: seq<string>)
    requires |r| == 6
    ensures var q, t := r[..4], r[4..];
      ([q[0]] + [q[1]] + [q[2]] + [q[3]]) + ([] + [t[0]] + [t[1]] + []) == r
  {
  }

  /**
   * The kind a call contributes when its callee is the bare identifier
   * `require` (static) or `import` (dynamic); None for any other callee,
   * `super` included.
   */
  function LoaderKind(callee: Callee): Option<Kind> {
    match callee
    case ExprCallee(Ident(sym)) =>
      if sym == "require" then Some(Static)
      else if sym == "import" then Some(Dynamic)
      else None
    case _ => None
  }

  /** The value of the first argument when it is a string literal, spread or not. */
  function FirstStr(args: seq<Arg>): Option<string> {
    if |args| > 0 && args[0].expr.Literal? && args[0].expr.lit.Str? then Some(args[0].expr.lit.value)
    else None
  }

  /**
   * What visiting `n` appends to the two lists. An import declaration gives
   * its source; a `require`/`import` call gives its string-literal first
   * argument, or nothing, and is not descended into; any other call visits
   * its callee and then its arguments; other nodes visit their children.
   */
  function Extract(n: Node): Specifiers
    decreases n
  {
    match n
    case ImportDecl(src) => Specifiers([src], [])
    case CallExpr(callee, args) =>
      (match LoaderKind(callee)
       case Some(k) =>
         (match FirstStr(args)
          case Some(x) => Single(k, x)
          case None => NoSpecifiers)
       case None =>
         (if callee.ExprCallee? then Extract(callee.expr) else NoSpecifiers).Then(ExtractArgs(args)))
    case Other(children) => ExtractAll(children)
    case _ => NoSpecifiers
  }

  /** What visiting a call's children appends: its callee's specifiers, then its arguments'. */
  function CallChildren(call: Node): Specifiers
    requires call.CallExpr?
  {
    (if call.callee.ExprCallee? then Extract(call.callee.expr) else NoSpecifiers).Then(ExtractArgs(call.args))
  }

  /** What visiting the nodes `ns` in order appends. */
  function ExtractAll(ns: seq<Node>): Specifiers
    decreases ns
  {
    if ns == [] then NoSpecifiers else Extract(ns[0]).Then(ExtractAll(ns[1..]))
  }

  /** What visiting the argument expressions `args` in order appends. */
  function ExtractArgs(args: seq<Arg>): Specifiers
    decreases args
  {
    if args == [] then NoSpecifiers
    else
      assert args decreases to args[0];
      assert args[0] decreases to args[0].expr;
      Extract(args[0].expr).Then(ExtractArgs(args[1..]))
  }

  /** What visiting a whole module appends. */
  function ExtractModule(m: Module): Specifiers {
    ExtractAll(m.body)
  }

  // ---------------------------------------------------------------------------
  // An independent reference: every import site of the tree, in pre-order,
  // without the visitor's short-circuit on matched calls.
  // ---------------------------------------------------------------------------

  /**
   * Every specifier of kind `k` written in `n`: the sources of all import
   * declarations, and the string-literal first arguments of all
   * `require`/`import` calls, however deeply nested, in source order.
   */
  function Sites(n: Node, k: Kind): seq<string>
    decreases n
  {
    match n
    case ImportDecl(src) => if k == Static then [src] else []
    case CallExpr(callee, args) =>
      (if LoaderKind(callee) == Some(k) && FirstStr(args).Some? then [FirstStr(args).value] else [])
      + (if callee.ExprCallee? then Sites(callee.expr, k) else [])
      + SitesArgs(args, k)
    case Other(children) => SitesAll(children, k)
    case _ => []
  }

  function SitesAll(ns: seq<Node>, k: Kind): seq<string>
    decreases ns
  {
    if ns == [] then [] else Sites(ns[0], k) + SitesAll(ns[1..], k)
  }

  function SitesArgs(args: seq<Arg>, k: Kind): seq<string>
    decreases args
  {
    if args == [] then []
    else
      assert args decreases to args[0];
      assert args[0] decreases to args[0].expr;
      Sites(args[0].expr, k) + SitesArgs(args[1..], k)
  }

  /**
   * No `require`/`import` call in `n` holds an import site inside its
   * arguments: the case in which the visitor's short-circuit loses nothing.
   */
  predicate NoNestedSites(n: Node)
    decreases n
  {
    match n
    case CallExpr(callee, args) =>
      if LoaderKind(callee).Some? then
        SitesArgs(args, Static) == [] && SitesArgs(args, Dynamic) == []
      else
        (callee.ExprCallee? ==> NoNestedSites(callee.expr)) && NoNestedSitesArgs(args)
    case Other(children) => NoNestedSitesAll(children)
    case _ => true
  }

  predicate NoNestedSitesAll(ns: seq<Node>)
    decreases ns
  {
    ns == [] || (NoNestedSites(ns[0]) && NoNestedSitesAll(ns[1..]))
  }

  predicate NoNestedSitesArgs(args: seq<Arg>)
    decreases args
  {
    if args == [] then true
    else
      assert args decreases to args[0];
      assert args[0] decreases to args[0].expr;
      NoNestedSites(args[0].expr) && NoNestedSitesArgs(args[1..])
  }

  // ---------------------------------------------------------------------------
  // Properties of the walk
  // ---------------------------------------------------------------------------

  /** Visiting `s` then `t` appends `s`'s specifiers and then `t`'s: nothing is reordered. */
  lemma {:induction false} ExtractAllAppend(s: seq<Node>, t: seq<Node>)
    ensures ExtractAll(s + t) == ExtractAll(s).Then(ExtractAll(t))
  {
    if s == [] {
      assert s + t == t;
    } else {
      assert (s + t)[1..] == s[1..] + t;
      ExtractAllAppend(s[1..], t);
    }
  }

  /** The same for argument lists. */
  lemma {:induction false} ExtractArgsAppend(s: seq<Arg>, t: seq<Arg>)
    ensures ExtractArgs(s + t) == ExtractArgs(s).Then(ExtractArgs(t))
  {
    if s == [] {
      assert s + t == t;
    } else {
      assert (s + t)[1..] == s[1..] + t;
      ExtractArgsAppend(s[1..], t);
    }
  }

  /** Visiting one more node of `ns` appends that node's specifiers. */
  lemma ExtractAllSnoc(ns: seq<Node>, i: nat)
    requires i < |ns|
    ensures ExtractAll(ns[..i + 1]) == ExtractAll(ns[..i]).Then(Extract(ns[i]))
  {
    ExtractAllAppend(ns[..i], [ns[i]]);
    assert ns[..i + 1] == ns[..i] + [ns[i]];
    assert [ns[i]][1..] == [];
    assert ExtractAll([ns[i]]) == Extract(ns[i]).Then(NoSpecifiers);
    assert Extract(ns[i]).statics + [] == Extract(ns[i]).statics;
    assert Extract(ns[i]).dynamics + [] == Extract(ns[i]).dynamics;
  }

  /** Visiting one more argument of `args` appends that argument's specifiers. */
  lemma ExtractArgsSnoc(args: seq<Arg>, i: nat)
    requires i < |args|
    ensures ExtractArgs(args[..i + 1]) == ExtractArgs(args[..i]).Then(Extract(args[i].expr))
  {
    ExtractArgsAppend(args[..i], [args[i]]);
    assert args[..i + 1] == args[..i] + [args[i]];
    assert [args[i]][1..] == [];
    assert ExtractArgs([args[i]]) == Extract(args[i].expr).Then(NoSpecifiers);
    assert Extract(args[i].expr).statics + [] == Extract(args[i].expr).statics;
    assert Extract(args[i].expr).dynamics + [] == Extract(args[i].expr).dynamics;
  }

  /** Import declarations with the given sources, in that order. */
  function ImportDecls(srcs: seq<string>): (ds: seq<Node>)
    ensures |ds| == |srcs|
    ensures forall i :: 0 <= i < |srcs| ==> ds[i] == ImportDecl(srcs[i])
  {
    if srcs == [] then [] else [ImportDecl(srcs[0])] + ImportDecls(srcs[1..])
  }

  /**
   * A run of import declarations yields exactly their sources, in
   * declaration order, duplicates kept, and no dynamic specifier.
   */
  lemma {:induction false} ImportDeclsInOrder(srcs: seq<string>)
    ensures ExtractAll(ImportDecls(srcs)) == Specifiers(srcs, [])
  {
    if srcs != [] {
      var ds := ImportDecls(srcs);
      assert ds[1..] == ImportDecls(srcs[1..]);
      ImportDeclsInOrder(srcs[1..]);
      assert srcs == [srcs[0]] + srcs[1..];
    }
  }

  /**
   * Soundness: every specifier the walk yields of kind `k` is an import site
   * of that kind in the tree, and no site is yielded more often than it is
   * written. In particular an `import("x")` never lands in the static list.
   */
  lemma {:induction false} ExtractWithinSites(n: Node, k: Kind)
    ensures multiset(Extract(n).Of(k)) <= multiset(Sites(n, k))
    decreases n
  {
    match n
    case ImportDecl(_) =>
    case CallExpr(callee, args) =>
      if LoaderKind(callee).None? {
        if callee.ExprCallee? {
          ExtractWithinSites(callee.expr, k);
        }
        ExtractArgsWithinSites(args, k);
        CallChildrenWithinSites(n, k);
      } else {
        LoaderCallWithinSites(n, k);
      }
    case Other(children) => ExtractAllWithinSites(children, k);
    case _ =>
  }

  /** The step of `ExtractWithinSites` for a call whose children are visited. */
  lemma CallChildrenWithinSites(call: Node, k: Kind)
    requires call.CallExpr? && LoaderKind(call.callee).None?
    requires call.callee.ExprCallee? ==>
      multiset(Extract(call.callee.expr).Of(k)) <= multiset(Sites(call.callee.expr, k))
    requires multiset(ExtractArgs(call.args).Of(k)) <= multiset(SitesArgs(call.args, k))
    ensures multiset(Extract(call).Of(k)) <= multiset(Sites(call, k))
  {
    var c := if call.callee.ExprCallee? then Extract(call.callee.expr) else NoSpecifiers;
    var sc := if call.callee.ExprCallee? then Sites(call.callee.expr, k) else [];
    assert Extract(call).Of(k) == c.Of(k) + ExtractArgs(call.args).Of(k);
    assert Sites(call, k) == [] + sc + SitesArgs(call.args, k);
  }

  /** The step of `ExtractWithinSites` for a `require`/`import` call, which is not descended into. */
  lemma LoaderCallWithinSites(call: Node, k: Kind)
    requires call.CallExpr? && LoaderKind(call.callee).Some?
    ensures multiset(Extract(call).Of(k)) <= multiset(Sites(call, k))
  {
    var own := if LoaderKind(call.callee) == Some(k) && FirstStr(call.args).Some? then [FirstStr(call.args).value] else [];
    assert Extract(call).Of(k) == own;
    var sc := if call.callee.ExprCallee? then Sites(call.callee.expr, k) else [];
    assert Sites(call, k) == own + sc + SitesArgs(call.args, k);
  }

  lemma {:induction false} ExtractAllWithinSites(ns: seq<Node>, k: Kind)
    ensures multiset(ExtractAll(ns).Of(k)) <= multiset(SitesAll(ns, k))
    decreases ns
  {
    if ns != [] {
      ExtractWithinSites(ns[0], k);
      ExtractAllWithinSites(ns[1..], k);
    }
  }

  lemma {:induction false} ExtractArgsWithinSites(args: seq<Arg>, k: Kind)
    ensures multiset(ExtractArgs(args).Of(k)) <= multiset(SitesArgs(args, k))
    decreases args
  {
    if args != [] {
      assert args decreases to args[0];
      assert args[0] decreases to args[0].expr;
      ExtractWithinSites(args[0].expr, k);
      ExtractArgsWithinSites(args[1..], k);
    }
  }

  /** `a` is `b` with some items left out: the items of `a` appear in `b` in the same order. */
  predicate Subsequence(a: seq<string>, b: seq<string>)
    decreases |b|
  {
    if a == [] then true
    else if b == [] then false
    else (a[0] == b[0] && Subsequence(a[1..], b[1..])) || Subsequence(a, b[1..])
  }

  lemma {:induction false} SubsequenceOfItself(a: seq<string>)
    ensures Subsequence(a, a)
    decreases |a|
  {
    if a != [] {
      SubsequenceOfItself(a[1..]);
    }
  }

  lemma {:induction false} SubsequenceOfLonger(a: seq<string>, b: seq<string>, c: seq<string>)
    requires Subsequence(a, b)
    ensures Subsequence(a, c + b)
    decreases |c|
  {
    if c == [] {
      assert c + b == b;
    } else {
      SubsequenceOfLonger(a, b, c[1..]);
      assert (c + b)[1..] == c[1..] + b;
    }
  }

  /** Subsequences of two lists, joined, are a subsequence of the joined lists. */
  lemma {:induction false} SubsequenceJoin(a1: seq<string>, b1: seq<string>, a2: seq<string>, b2: seq<string>)
    requires Subsequence(a1, b1) && Subsequence(a2, b2)
    ensures Subsequence(a1 + a2, b1 + b2)
    decreases |b1|
  {
    if a1 == [] {
      assert a1 + a2 == a2;
      SubsequenceOfLonger(a2, b2, b1);
    } else {
      assert (b1 + b2)[1..] == b1[1..] + b2;
      if a1[0] == b1[0] && Subsequence(a1[1..], b1[1..]) {
        SubsequenceJoin(a1[1..], b1[1..], a2, b2);
        assert (a1 + a2)[1..] == a1[1..] + a2;
      } else {
        SubsequenceJoin(a1, b1[1..], a2, b2);
      }
    }
  }

  /**
   * Soundness with order: what the walk yields of kind `k` is the tree's
   * sites of that kind in source order, some possibly left out (those inside
   * the arguments of a `require`/`import` call), none added or reordered.
   */
  lemma {:induction false} ExtractOrderedWithinSites(n: Node, k: Kind)
    ensures Subsequence(Extract(n).Of(k), Sites(n, k))
    decreases n
  {
    match n
    case ImportDecl(_) => SubsequenceOfItself(Extract(n).Of(k));
    case CallExpr(callee, args) =>
      if LoaderKind(callee).None? {
        if callee.ExprCallee? {
          ExtractOrderedWithinSites(callee.expr, k);
        }
        ExtractArgsOrderedWithinSites(args, k);
        CallChildrenOrderedWithinSites(n, k);
      } else {
        LoaderCallOrderedWithinSites(n, k);
      }
    case Other(children) => ExtractAllOrderedWithinSites(children, k);
    case _ =>
  }

  /** The step of `ExtractOrderedWithinSites` for a call whose children are visited. */
  lemma CallChildrenOrderedWithinSites(call: Node, k: Kind)
    requires call.CallExpr? && LoaderKind(call.callee).None?
    requires call.callee.ExprCallee? ==> Subsequence(Extract(call.callee.expr).Of(k), Sites(call.callee.expr, k))
    requires Subsequence(ExtractArgs(call.args).Of(k), SitesArgs(call.args, k))
    ensures Subsequence(Extract(call).Of(k), Sites(call, k))
  {
    var c := if call.callee.ExprCallee? then Extract(call.callee.expr) else NoSpecifiers;
    var sc := if call.callee.ExprCallee? then Sites(call.callee.expr, k) else [];
    assert Subsequence(c.Of(k), sc);
    assert Extract(call).Of(k) == c.Of(k) + ExtractArgs(call.args).Of(k);
    assert Sites(call, k) == [] + sc + SitesArgs(call.args, k);
    assert [] + sc == sc;
    SubsequenceJoin(c.Of(k), sc, ExtractArgs(call.args).Of(k), SitesArgs(call.args, k));
  }

  /** The step of `ExtractOrderedWithinSites` for a `require`/`import` call. */
  lemma LoaderCallOrderedWithinSites(call: Node, k: Kind)
    requires call.CallExpr? && LoaderKind(call.callee).Some?
    ensures Subsequence(Extract(call).Of(k), Sites(call, k))
  {
    var own := if LoaderKind(call.callee) == Some(k) && FirstStr(call.args).Some? then [FirstStr(call.args).value] else [];
    assert Extract(call).Of(k) == own;
    var rest := Sites(call.callee.expr, k) + SitesArgs(call.args, k);
    assert Sites(call, k) == own + rest;
    SubsequenceOfItself(own);
    SubsequenceJoin(own, own, [], rest);
    assert own + [] == own;
  }

  lemma {:induction false} ExtractAllOrderedWithinSites(ns: seq<Node>, k: Kind)
    ensures Subsequence(ExtractAll(ns).Of(k), SitesAll(ns, k))
    decreases ns
  {
    if ns != [] {
      ExtractOrderedWithinSites(ns[0], k);
      ExtractAllOrderedWithinSites(ns[1..], k);
      SubsequenceJoin(Extract(ns[0]).Of(k), Sites(ns[0], k), ExtractAll(ns[1..]).Of(k), SitesAll(ns[1..], k));
    }
  }

  lemma {:induction false} ExtractArgsOrderedWithinSites(args: seq<Arg>, k: Kind)
    ensures Subsequence(ExtractArgs(args).Of(k), SitesArgs(args, k))
    decreases args
  {
    if args != [] {
      assert args decreases to args[0];
      assert args[0] decreases to args[0].expr;
      ExtractOrderedWithinSites(args[0].expr, k);
      ExtractArgsOrderedWithinSites(args[1..], k);
      SubsequenceJoin(Extract(args[0].expr).Of(k), Sites(args[0].expr, k), ExtractArgs(args[1..]).Of(k), SitesArgs(args[1..], k));
    }
  }

  /**
   * Completeness: when no `require`/`import` call hides a site in its
   * arguments, the walk yields every site of each kind, once per occurrence
   * and in source order.
   */
  lemma {:induction false} ExtractMatchesSites(n: Node, k: Kind)
    requires NoNestedSites(n)
    ensures Extract(n).Of(k) == Sites(n, k)
    decreases n
  {
    match n
    case ImportDecl(_) =>
    case CallExpr(callee, args) =>
      if LoaderKind(callee).None? {
        if callee.ExprCallee? {
          ExtractMatchesSites(callee.expr, k);
        }
        ExtractArgsMatchSites(args, k);
        CallChildrenMatchSites(n, k);
      } else {
        LoaderCallMatchesSites(n, k);
      }
    case Other(children) => ExtractAllMatchesSites(children, k);
    case _ =>
  }

  /** The step of `ExtractMatchesSites` for a call whose children are visited. */
  lemma CallChildrenMatchSites(call: Node, k: Kind)
    requires call.CallExpr? && LoaderKind(call.callee).None?
    requires call.callee.ExprCallee? ==> Extract(call.callee.expr).Of(k) == Sites(call.callee.expr, k)
    requires ExtractArgs(call.args).Of(k) == SitesArgs(call.args, k)
    ensures Extract(call).Of(k) == Sites(call, k)
  {
    var c := if call.callee.ExprCallee? then Extract(call.callee.expr) else NoSpecifiers;
    var sc := if call.callee.ExprCallee? then Sites(call.callee.expr, k) else [];
    var sa := SitesArgs(call.args, k);
    assert c.Of(k) == sc;
    assert Extract(call).Of(k) == sc + sa;
    EmptyFront(sc);
    assert Sites(call, k) == ([] + sc) + sa;
  }

  /** The step of `ExtractMatchesSites` for a `require`/`import` call with no site among its arguments. */
  lemma LoaderCallMatchesSites(call: Node, k: Kind)
    requires call.CallExpr? && LoaderKind(call.callee).Some?
    requires SitesArgs(call.args, Static) == [] && SitesArgs(call.args, Dynamic) == []
    ensures Extract(call).Of(k) == Sites(call, k)
  {
    var own := if LoaderKind(call.callee) == Some(k) && FirstStr(call.args).Some? then [FirstStr(call.args).value] else [];
    assert Extract(call).Of(k) == own;
    assert Sites(call.callee.expr, k) == [];
    assert SitesArgs(call.args, k) == [];
    assert Sites(call, k) == own + [] + [];
  }

  lemma {:induction false} ExtractAllMatchesSites(ns: seq<Node>, k: Kind)
    requires NoNestedSitesAll(ns)
    ensures ExtractAll(ns).Of(k) == SitesAll(ns, k)
    decreases ns
  {
    if ns != [] {
      ExtractMatchesSites(ns[0], k);
      ExtractAllMatchesSites(ns[1..], k);
    }
  }

  lemma {:induction false} ExtractArgsMatchSites(args: seq<Arg>, k: Kind)
    requires NoNestedSitesArgs(args)
    ensures ExtractArgs(args).Of(k) == SitesArgs(args, k)
    decreases args
  {
    if args != [] {
      assert args decreases to args[0];
      assert args[0] decreases to args[0].expr;
      ExtractMatchesSites(args[0].expr, k);
      ExtractArgsMatchSites(args[1..], k);
    }
  }

  /** `require("x")`. */
  function RequireCall(x: string): Node {
    CallExpr(ExprCallee(Ident("require")), [Arg(false, Literal(Str(x)))])
  }

  /** `import("x")`. */
  function ImportCall(x: string): Node {
    CallExpr(ExprCallee(Ident("import")), [Arg(false, Literal(Str(x)))])
  }

  /**
   * A `require` call whose first argument is a string literal yields that
   * literal as a static specifier and nothing else: its remaining arguments
   * are not visited.
   */
  lemma RequireLiteralIsStatic(x: string, spread: bool, rest: seq<Arg>)
    ensures Extract(CallExpr(ExprCallee(Ident("require")), [Arg(spread, Literal(Str(x)))] + rest))
         == Specifiers([x], [])
  {
  }

  /** An `import()` call with a string-literal first argument yields it as dynamic only. */
  lemma ImportLiteralIsDynamic(x: string, spread: bool, rest: seq<Arg>)
    ensures Extract(CallExpr(ExprCallee(Ident("import")), [Arg(spread, Literal(Str(x)))] + rest))
         == Specifiers([], [x])
  {
  }

  /**
   * A `require`/`import` call without a string-literal first argument (none
   * at all, an identifier, a template, another call, …) yields nothing, even
   * when its arguments hold import sites.
   */
  lemma NonLiteralLoaderCallYieldsNothing(callee: Callee, args: seq<Arg>)
    requires LoaderKind(callee).Some? && FirstStr(args).None?
    ensures Extract(CallExpr(callee, args)) == NoSpecifiers
  {
  }

  /** `require("x")(args)`: the call in callee position is still found, before the arguments' sites. */
  lemma CalledRequireIsFound(x: string, args: seq<Arg>)
    ensures Extract(CallExpr(ExprCallee(RequireCall(x)), args)) == Specifiers([x], []).Then(ExtractArgs(args))
  {
  }

  /** `import("x").then(handler)`: the dynamic import inside the member chain is still found. */
  lemma ChainedImportIsFound(x: string, handler: Node)
    ensures Extract(CallExpr(ExprCallee(Other([ImportCall(x), Ident("then")])), [Arg(false, handler)]))
         == Specifiers([], [x]).Then(Extract(handler))
  {
    var chain := [ImportCall(x), Ident("then")];
    assert ExtractAll(chain[1..]) == NoSpecifiers;
    assert ExtractAll(chain) == Specifiers([], [x]);
    assert ExtractArgs([Arg(false, handler)]) == Extract(handler).Then(NoSpecifiers);
  }

  // ---------------------------------------------------------------------------
  // The visitor
  // ---------------------------------------------------------------------------

  /** `ImportVisitor`: two lists that the walk only ever appends to. */
  class ImportVisitor {
    var staticImports: seq<string>
    var dynamicImports: seq<string>

    /** `ImportVisitor::new`: both lists start empty. */
    constructor ()
      ensures staticImports == [] && dynamicImports == []
    {
      staticImports := [];
      dynamicImports := [];
    }

    /** `Visit<ImportDecl>`: the source goes to the end of the static list. */
    method VisitImportDecl(src: string)
      modifies this
      ensures staticImports == old(staticImports) + [src]
      ensures dynamicImports == old(dynamicImports)
    {
      staticImports := staticImports + [src];
    }

    /**
     * `Visit<CallExpr>`: a `require`/`import` callee with a string-literal
     * first argument pushes that literal to the static or dynamic list and
     * stops; with any other first argument it does nothing; any other callee
     * has its children (callee, then arguments) visited.
     */
    method VisitCallExpr(call: Node)
      requires call.CallExpr?
      modifies this
      ensures staticImports == old(staticImports) + Extract(call).statics
      ensures dynamicImports == old(dynamicImports) + Extract(call).dynamics
      decreases call, 2
    {
      match LoaderKind(call.callee) {
        case Some(k) =>
          match FirstStr(call.args) {
            case Some(x) =>
              if k == Dynamic {
                dynamicImports := dynamicImports + [x];
              } else {
                staticImports := staticImports + [x];
              }
            case None =>
          }
        case None =>
          VisitCallChildren(call);
      }
    }

    /** `visit_children` of a call: the callee, then each argument in order. */
    method VisitCallChildren(call: Node)
      requires call.CallExpr?
      modifies this
      ensures staticImports == old(staticImports) + CallChildren(call).statics
      ensures dynamicImports == old(dynamicImports) + CallChildren(call).dynamics
      decreases call, 1
    {
      if call.callee.ExprCallee? {
        Visit(call.callee.expr);
      }
      VisitArgs(call);
    }

    /** Visit the argument expressions of a call, in order. */
    method VisitArgs(call: Node)
      requires call.CallExpr?
      modifies this
      ensures staticImports == old(staticImports) + ExtractArgs(call.args).statics
      ensures dynamicImports == old(dynamicImports) + ExtractArgs(call.args).dynamics
      decreases call, 0
    {
      var args := call.args;
      var i := 0;
      while i < |args|
        invariant 0 <= i <= |args|
        invariant staticImports == old(staticImports) + ExtractArgs(args[..i]).statics
        invariant dynamicImports == old(dynamicImports) + ExtractArgs(args[..i]).dynamics
      {
        var a := args[i];
        assert call decreases to args;
        assert args decreases to a;
        assert a decreases to a.expr;
        ghost var done := ExtractArgs(args[..i]);
        Visit(a.expr);
        ExtractArgsSnoc(args, i);
        Grown(old(staticImports), done.statics, Extract(a.expr).statics);
        Grown(old(dynamicImports), done.dynamics, Extract(a.expr).dynamics);
        i := i + 1;
      }
      assert args[..i] == args;
    }

    /** The walk: dispatch on the node kind, visiting the children of every other node. */
    method Visit(n: Node)
      modifies this
      ensures staticImports == old(staticImports) + Extract(n).statics
      ensures dynamicImports == old(dynamicImports) + Extract(n).dynamics
      decreases n, 3
    {
      match n {
        case ImportDecl(src) => VisitImportDecl(src);
        case CallExpr(_, _) => VisitCallExpr(n);
        case Other(_) => VisitChildren(n);
        case _ =>
      }
    }

    /** `visit_children` of any other node: each child in order. */
    method VisitChildren(n: Node)
      requires n.Other?
      modifies this
      ensures staticImports == old(staticImports) + Extract(n).statics
      ensures dynamicImports == old(dynamicImports) + Extract(n).dynamics
      decreases n, 2
    {
      VisitAll(n.children);
    }

    /** Visit the nodes `ns` in order. */
    method VisitAll(ns: seq<Node>)
      modifies this
      ensures staticImports == old(staticImports) + ExtractAll(ns).statics
      ensures dynamicImports == old(dynamicImports) + ExtractAll(ns).dynamics
      decreases ns, 1
    {
      var i := 0;
      while i < |ns|
        invariant 0 <= i <= |ns|
        invariant staticImports == old(staticImports) + ExtractAll(ns[..i]).statics
        invariant dynamicImports == old(dynamicImports) + ExtractAll(ns[..i]).dynamics
      {
        ghost var done := ExtractAll(ns[..i]);
        Visit(ns[i]);
        ExtractAllSnoc(ns, i);
        Grown(old(staticImports), done.statics, Extract(ns[i]).statics);
        Grown(old(dynamicImports), done.dynamics, Extract(ns[i]).dynamics);
        i := i + 1;
      }
      assert ns[..i] == ns;
    }

    /** `module.visit_with(visitor)`: visit the module's items in order. */
    method VisitModule(m: Module)
      modifies this
      ensures staticImports == old(staticImports) + ExtractModule(m).statics
      ensures dynamicImports == old(dynamicImports) + ExtractModule(m).dynamics
    {
      VisitAll(m.body);
    }
  }

  // ---------------------------------------------------------------------------
  // Parser::parse
  // ---------------------------------------------------------------------------

  /** The error type of the parse result; reading the file is the only source of it. */
  datatype Error = Io(message: string)

  /**
   * What reading and parsing one file gives: a read failure (the file cannot
   * be opened or read as text), a syntax error, or the parsed module.
   */
  datatype Source = Unreadable(error: Error) | Malformed | Parsed(tree: Module)

  /** The result `Parser::parse` returns: the read error, or the static list only. */
  function ParseResult(src: Source): Result<seq<string>, Error>
    requires !src.Malformed?
  {
    match src
    case Unreadable(e) => Err(e)
    case Parsed(m) => Ok(ExtractModule(m).statics)
  }

  /**
   * `Parser::parse`: a read failure is returned as the error; otherwise a
   * fresh visitor walks the module and its static list is returned, the
   * dynamic one dropped. A syntax error makes the source panic, so callers
   * must not reach it.
   */
  method Parse(src: Source) returns (r: Result<seq<string>, Error>)
    requires !src.Malformed?
    ensures r == ParseResult(src)
    ensures r.Ok? ==> r.value == ExtractModule(src.tree).statics
  {
    match src {
      case Unreadable(e) =>
        return Err(e);
      case Parsed(m) =>
        var visitor := new ImportVisitor();
        visitor.VisitModule(m);
        assert [] + ExtractModule(m).statics == ExtractModule(m).statics;
        return Ok(visitor.staticImports);
    }
  }

  /**
   * Whatever `Parser::parse` returns is a static import site of the file:
   * an `import … from` source or a `require` literal, never an `import()`
   * argument, and no site more often than it is written; the sites it
   * returns keep their source order.
   */
  lemma ParseReturnsStaticSites(m: Module)
    ensures ParseResult(Parsed(m)).Ok?
    ensures multiset(ParseResult(Parsed(m)).value) <= multiset(SitesAll(m.body, Static))
    ensures Subsequence(ParseResult(Parsed(m)).value, SitesAll(m.body, Static))
  {
    ExtractAllWithinSites(m.body, Static);
    ExtractAllOrderedWithinSites(m.body, Static);
  }

  // ---------------------------------------------------------------------------
  // The module's two unit tests, on the trees the parser gives for their sources
  // ---------------------------------------------------------------------------

  /** `console.log("msg", v)`. */
  function ConsoleLog(msg: string, v: string): Node {
    CallExpr(ExprCallee(Other([Ident("console"), Ident("log")])),
             [Arg(false, Literal(Str(msg))), Arg(false, Ident(v))])
  }

  /** `param => { console.log(msg, param); }`. */
  function LoggingArrow(param: string, msg: string): Node {
    Other([Ident(param), Other([Other([ConsoleLog(msg, param)])])])
  }

  /** `console.log("msg")`. */
  function LogMessage(msg: string): Node {
    CallExpr(ExprCallee(Other([Ident("console"), Ident("log")])), [Arg(false, Literal(Str(msg)))])
  }

  lemma LogMessageYieldsNothing(msg: string)
    ensures Extract(LogMessage(msg)) == NoSpecifiers
  {
    TwoChildren(Ident("console"), Ident("log"));
    var args := [Arg(false, Literal(Str(msg)))];
    assert args[1..] == [];
    assert ExtractArgs(args) == NoSpecifiers;
  }

  lemma ConsoleLogYieldsNothing(msg: string, v: string)
    ensures Extract(ConsoleLog(msg, v)) == NoSpecifiers
  {
    TwoChildren(Ident("console"), Ident("log"));
    var args := [Arg(false, Literal(Str(msg))), Arg(false, Ident(v))];
    assert args[1..][1..] == [];
    assert ExtractArgs(args[1..]) == NoSpecifiers;
    assert ExtractArgs(args) == NoSpecifiers;
  }

  /** A node with one child yields what the child yields. */
  lemma OneChild(a: Node)
    ensures Extract(Other([a])) == Extract(a)
  {
    assert [a][1..] == [];
    assert ExtractAll([a]) == Extract(a).Then(ExtractAll([]));
    ThenNothing(Extract(a));
  }

  /** Two statements yield the first's specifiers, then the second's. */
  lemma TwoStatements(a: Node, b: Node)
    ensures ExtractAll([a, b]) == Extract(a).Then(Extract(b))
  {
    assert [a, b][1..] == [b];
    assert [b][1..] == [];
    assert ExtractAll([b]) == Extract(b).Then(ExtractAll([]));
    ThenNothing(Extract(b));
    assert ExtractAll([a, b]) == Extract(a).Then(ExtractAll([b]));
  }

  /** A node with two children yields the first's specifiers, then the second's. */
  lemma TwoChildren(a: Node, b: Node)
    ensures Extract(Other([a, b])) == Extract(a).Then(Extract(b))
  {
    TwoStatements(a, b);
  }

  lemma RequireCallYields(x: string)
    ensures Extract(RequireCall(x)) == Specifiers([x], [])
  {
  }

  lemma ImportCallYields(x: string)
    ensures Extract(ImportCall(x)) == Specifiers([], [x])
  {
  }

  lemma LoggingArrowYieldsNothing(param: string, msg: string)
    ensures Extract(LoggingArrow(param, msg)) == NoSpecifiers
  {
    ConsoleLogYieldsNothing(msg, param);
    OneChild(ConsoleLog(msg, param));
    OneChild(Other([ConsoleLog(msg, param)]));
    TwoChildren(Ident(param), Other([Other([ConsoleLog(msg, param)])]));
  }

  /**
   * The test `parse_imports`: six import declarations with sources `d` (one
   * side-effect only, one default plus named, one renamed, one namespace,
   * two more), `const promise = import(i1)`, and
   * `import(i2).then(module => …).catch(err => …)`.
   */
  function ImportsTree(d: seq<string>, i1: string, i2: string): Module
    requires |d| == 6
  {
    Module(ImportDecls(d) + [PromiseStatement(i1), ChainStatement(i2)])
  }

  /** `const promise = import(i1)`. */
  function PromiseStatement(i1: string): Node {
    Other([Other([Ident("promise"), ImportCall(i1)])])
  }

  /** `import(i2).then(module => …).catch(err => …)`. */
  function ChainStatement(i2: string): Node {
    Other([CatchCall(i2)])
  }

  /** `import(i2).then(module => …).catch(err => …)` as an expression. */
  function CatchCall(i2: string): Node {
    CallExpr(ExprCallee(Other([ThenCall(i2), Ident("catch")])), [Arg(false, LoggingArrow("err", "Failed"))])
  }

  /** `import(i2).then(module => …)`. */
  function ThenCall(i2: string): Node {
    CallExpr(ExprCallee(Other([ImportCall(i2), Ident("then")])), [Arg(false, LoggingArrow("module", "Loaded"))])
  }

  lemma PromiseStatementYields(i1: string)
    ensures Extract(PromiseStatement(i1)) == Specifiers([], [i1])
  {
    ImportCallYields(i1);
    TwoChildren(Ident("promise"), ImportCall(i1));
    OneChild(Other([Ident("promise"), ImportCall(i1)]));
  }

  lemma ChainStatementYields(i2: string)
    ensures Extract(ChainStatement(i2)) == Specifiers([], [i2])
  {
    LoggingArrowYieldsNothing("module", "Loaded");
    ChainedImportIsFound(i2, LoggingArrow("module", "Loaded"));
    ThenNothing(Specifiers([], [i2]));
    TwoChildren(ThenCall(i2), Ident("catch"));
    ThenNothing(Specifiers([], [i2]));
    LoggingArrowYieldsNothing("err", "Failed");
    var args := [Arg(false, LoggingArrow("err", "Failed"))];
    assert args[1..] == [];
    assert ExtractArgs(args) == NoSpecifiers;
    assert Extract(CatchCall(i2)) == Specifiers([], [i2]);
    OneChild(CatchCall(i2));
  }

  lemma {:induction false} ImportsTreeYields(d: seq<string>, i1: string, i2: string)
    requires |d| == 6
    ensures ExtractModule(ImportsTree(d, i1, i2)) == Specifiers(d, [i1, i2])
  {
    var tail := [PromiseStatement(i1), ChainStatement(i2)];
    ImportDeclsInOrder(d);
    ExtractAllAppend(ImportDecls(d), tail);
    PromiseStatementYields(i1);
    ChainStatementYields(i2);
    TwoStatements(PromiseStatement(i1), ChainStatement(i2));
    assert d + [] == d;
  }

  lemma ParseImportsExample()
    ensures ExtractModule(ImportsTree(["url-search-params-polyfill", "react", "react-dom",
                                       "@sentry/browser", "./app/state", "../example.rs"],
                                      "./dynamic/import1.js", "./dynamic/import2.js"))
         == Specifiers(["url-search-params-polyfill", "react", "react-dom",
                        "@sentry/browser", "./app/state", "../example.rs"],
                       ["./dynamic/import1.js", "./dynamic/import2.js"])
  {
    ImportsTreeYields(["url-search-params-polyfill", "react", "react-dom",
                       "@sentry/browser", "./app/state", "../example.rs"],
                      "./dynamic/import1.js", "./dynamic/import2.js");
  }

  /**
   * The test `parse_require`: `require(r[0])` as a statement;
   * `const React, {useState} = require(r[1])`; `var {render} = require(r[2])`;
   * `let Sentry = require(r[3])`; an empty `if (true)`;
   * `const {State} = require(r[4])`; `require(r[5])()`; and a
   * `console.log` call.
   */
  function RequireTree(r: seq<string>): Module
    requires |r| == 6
  {
    Module(RequireHead(r[..4]) + RequireTail(r[4..]))
  }

  /** The first four statements of `RequireTree`. */
  function RequireHead(r: seq<string>): seq<Node>
    requires |r| == 4
  {
    [ Other([RequireCall(r[0])]),
      Other([Other([Ident("React")]), Other([Other([Ident("useState")]), RequireCall(r[1])])]),
      Other([Other([Other([Ident("render")]), RequireCall(r[2])])]),
      Other([Other([Ident("Sentry"), RequireCall(r[3])])]) ]
  }

  /** The last four statements of `RequireTree`. */
  function RequireTail(r: seq<string>): seq<Node>
    requires |r| == 2
  {
    [ Other([Literal(NonStr), Other([])]),
      Other([Other([Other([Ident("State")]), RequireCall(r[0])])]),
      Other([CallExpr(ExprCallee(RequireCall(r[1])), [])]),
      Other([LogMessage("Ignore comments")]) ]
  }

  lemma RequireHeadItems(r: seq<string>)
    requires |r| == 4
    ensures var b := RequireHead(r);
      && Extract(b[0]) == Specifiers([r[0]], [])
      && Extract(b[1]) == Specifiers([r[1]], [])
      && Extract(b[2]) == Specifiers([r[2]], [])
      && Extract(b[3]) == Specifiers([r[3]], [])
  {
    var b := RequireHead(r);
    RequireCallYields(r[0]);
    OneChild(RequireCall(r[0]));
    RequireCallYields(r[1]);
    TwoChildren(Other([Ident("useState")]), RequireCall(r[1]));
    TwoChildren(Other([Ident("React")]), Other([Other([Ident("useState")]), RequireCall(r[1])]));
    OneChild(Ident("useState"));
    OneChild(Ident("React"));
    RequireCallYields(r[2]);
    OneChild(Ident("render"));
    TwoChildren(Other([Ident("render")]), RequireCall(r[2]));
    OneChild(Other([Other([Ident("render")]), RequireCall(r[2])]));
    RequireCallYields(r[3]);
    TwoChildren(Ident("Sentry"), RequireCall(r[3]));
    OneChild(Other([Ident("Sentry"), RequireCall(r[3])]));
  }

  lemma RequireTailItems(r: seq<string>)
    requires |r| == 2
    ensures var b := RequireTail(r);
      && Extract(b[0]) == NoSpecifiers
      && Extract(b[1]) == Specifiers([r[0]], [])
      && Extract(b[2]) == Specifiers([r[1]], [])
      && Extract(b[3]) == NoSpecifiers
  {
    TwoChildren(Literal(NonStr), Other([]));
    RequireCallYields(r[0]);
    OneChild(Ident("State"));
    TwoChildren(Other([Ident("State")]), RequireCall(r[0]));
    OneChild(Other([Other([Ident("State")]), RequireCall(r[0])]));
    CalledRequireIsFound(r[1], []);
    OneChild(CallExpr(ExprCallee(RequireCall(r[1])), []));
    LogMessageYieldsNothing("Ignore comments");
    OneChild(LogMessage("Ignore comments"));
  }

  /** A statement yielding `x` ahead of statements yielding `y` gives `x` then `y`. */
  lemma ConsStatics(ns: seq<Node>, x: seq<string>, y: seq<string>)
    requires |ns| > 0
    requires Extract(ns[0]) == Specifiers(x, [])
    requires ExtractAll(ns[1..]) == Specifiers(y, [])
    ensures ExtractAll(ns) == Specifiers(x + y, [])
  {
  }

  /** Four statements, each yielding the given static specifiers, yield them all in order. */
  lemma FourStatements(b: seq<Node>, s0: seq<string>, s1: seq<string>, s2: seq<string>, s3: seq<string>)
    requires |b| == 4
    requires Extract(b[0]) == Specifiers(s0, []) && Extract(b[1]) == Specifiers(s1, [])
    requires Extract(b[2]) == Specifiers(s2, []) && Extract(b[3]) == Specifiers(s3, [])
    ensures ExtractAll(b) == Specifiers(s0 + s1 + s2 + s3, [])
  {
    assert b[4..] == [];
    ConsStatics(b[3..], s3, []);
    assert b[3..][1..] == b[4..];
    ConsStatics(b[2..], s2, s3 + []);
    assert b[2..][1..] == b[3..];
    ConsStatics(b[1..], s1, s2 + (s3 + []));
    assert b[1..][1..] == b[2..];
    ConsStatics(b, s0, s1 + (s2 + (s3 + [])));
    Regrouped(s0, s1, s2, s3);
  }

  lemma {:induction false} RequireTreeYields(r: seq<string>)
    requires |r| == 6
    ensures ExtractModule(RequireTree(r)) == Specifiers(r, [])
  {
    var q, t := r[..4], r[4..];
    var head, tail := RequireHead(q), RequireTail(t);
    RequireHeadItems(q);
    FourStatements(head, [q[0]], [q[1]], [q[2]], [q[3]]);
    RequireTailItems(t);
    FourStatements(tail, [], [t[0]], [t[1]], []);
    ExtractAllAppend(head, tail);
    SixRegrouped(r);
  }

  lemma ParseRequireExample()
    ensures ExtractModule(RequireTree(["url-search-params-polyfill", "react", "react-dom",
                                       "@sentry/browser", "./app/state", "../example.rs"]))
         == Specifiers(["url-search-params-polyfill", "react", "react-dom",
                        "@sentry/browser", "./app/state", "../example.rs"], [])
  {
    RequireTreeYields(["url-search-params-polyfill", "react", "react-dom",
                       "@sentry/browser", "./app/state", "../example.rs"]);
  }
}
