/**
 * `format!("{:?}", path)` for a path that is valid text: the text between
 * double quotes, with tab, carriage return, line feed, backslash, double
 * quote and single quote written as backslash escapes (the escaping Rust's
 * `Debug` for strings applied when the source was written; current Rust no
 * longer escapes the single quote).
 */
module PathDebug {
  import opened Wrappers

  /** The escape letter Rust's `Debug` writes after a backslash for `c`, if any. */
  function EscapeLetter(c: char): Option<char> {
    match c
    case '\t' => Some('t')
    case '\r' => Some('r')
    case '\n' => Some('n')
    case '\\' => Some('\\')
    case '"' => Some('"')
    case '\'' => Some('\'')
    case _ => None
  }

  /** The character an escape letter stands for. */
  function Unescaped(e: char): Option<char> {
    match e
    case 't' => Some('\t')
    case 'r' => Some('\r')
    case 'n' => Some('\n')
    case '\\' => Some('\\')
    case '"' => Some('"')
    case '\'' => Some('\'')
    case _ => None
  }

  function EscapeChar(c: char): string {
    match EscapeLetter(c)
    case Some(e) => ['\\', e]
    case None => [c]
  }

  function Escape(s: string): string {
    if s == [] then [] else EscapeChar(s[0]) + Escape(s[1..])
  }

  /** The debug form of a path. */
  function Debug(p: string): (r: string)
    ensures |r| >= |p| + 2 && r[0] == '"' && r[|r| - 1] == '"'
  {
    EscapeLengthBound(p);
    "\"" + Escape(p) + "\""
  }

  lemma {:induction false} EscapeLengthBound(s: string)
    ensures |Escape(s)| >= |s|
  {
    if s != [] {
      EscapeLengthBound(s[1..]);
    }
  }

  /** Reads the body of a debug form back: None for a dangling or unknown escape or a bare `"`. */
  function Unescape(s: string): Option<string> {
    if s == [] then Some([])
    else if s[0] == '\\' then
      if |s| < 2 then None
      else
        match (Unescaped(s[1]), Unescape(s[2..]))
        case (Some(c), Some(t)) => Some([c] + t)
        case _ => None
    else if s[0] == '"' then None
    else
      match Unescape(s[1..])
      case Some(t) => Some([s[0]] + t)
      case None => None
  }

  /** Reads a debug form back to the path it was written from. */
  function Unquote(r: string): Option<string> {
    if |r| >= 2 && r[0] == '"' && r[|r| - 1] == '"' then Unescape(r[1..|r| - 1]) else None
  }

  lemma {:induction false} UnescapeEscape(s: string)
    ensures Unescape(Escape(s)) == Some(s)
  {
    if s != [] {
      var rest := Escape(s[1..]);
      UnescapeEscape(s[1..]);
      var e := EscapeChar(s[0]) + rest;
      match EscapeLetter(s[0]) {
        case Some(l) =>
          assert e[0] == '\\' && e[1] == l && e[2..] == rest;
        case None =>
          assert e[0] == s[0] && e[1..] == rest;
      }
      assert [s[0]] + s[1..] == s;
    }
  }

  /** Reading a path's debug form back gives the path. */
  lemma DebugRoundTrip(p: string)
    ensures Unquote(Debug(p)) == Some(p)
  {
    var r := Debug(p);
    assert r[1..|r| - 1] == Escape(p);
    UnescapeEscape(p);
  }

  /** Distinct paths have distinct debug forms. */
  lemma DebugInjective(p: string, q: string)
    requires Debug(p) == Debug(q)
    ensures p == q
  {
    DebugRoundTrip(p);
    DebugRoundTrip(q);
  }

  /** A path with nothing to escape is written as itself. */
  lemma {:induction false} EscapePlain(s: string)
    requires forall i :: 0 <= i < |s| ==> EscapeLetter(s[i]).None?
    ensures Escape(s) == s
  {
    if s != [] {
      EscapePlain(s[1..]);
      assert [s[0]] + s[1..] == s;
    }
  }

  /** A path with nothing to escape is written as itself between double quotes. */
  lemma DebugPlain(p: string)
    requires forall i :: 0 <= i < |p| ==> EscapeLetter(p[i]).None?
    ensures Debug(p) == "\"" + p + "\""
  {
    EscapePlain(p);
  }

  /** The value the integration test expects for its one entry. */
  lemma DebugExample()
    ensures Debug("example.js") == "\"example.js\""
  {
    ExampleIsPlain();
    DebugPlain("example.js");
    ExampleQuoted();
  }

  lemma ExampleIsPlain()
    ensures forall i :: 0 <= i < |"example.js"| ==> EscapeLetter("example.js"[i]).None?
  {
  }

  lemma ExampleQuoted()
    ensures "\"" + "example.js" + "\"" == "\"example.js\""
  {
  }
}
