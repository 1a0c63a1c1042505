/**
 Reading a concatenated string constant out of TypeScript source, character by character
 (`_extract_ts_string_constant` in audit/aml_compliance_check.py), against a grammar of tokens.
 */
module StringConstant {
  import opened Prelude
  import opened Text

  function Join(segments: seq<string>): string {
    if segments == [] then "" else Join(segments[..|segments| - 1]) + segments[|segments| - 1]
  }

  /** Joining is concatenation, in order. */
  lemma {:induction false} JoinIsConcatenation(a: seq<string>, b: seq<string>)
    ensures Join(a + b) == Join(a) + Join(b)
    ensures |b| == 1 ==> Join(b) == b[0]
  {
    if b == [] {
      assert a + b == a;
    } else {
      assert (a + b)[..|a + b| - 1] == a + b[..|b| - 1];
      JoinIsConcatenation(a, b[..|b| - 1]);
      assert |b| == 1 ==> b[..0] == [];
    }
  }

  // ---- the scanner ----

  datatype Mode = Outside | InString | InLineComment | InBlockComment

  /** What a character after a backslash stands for. */
  function Unescape(c: char): char {
    if c == 'n' then '\n' else if c == 't' then '\t' else c
  }

  /** The escapes the code lists; any other character stands for itself. */
  const ESCAPES := map['n' := '\n', 't' := '\t', '\\' := '\\', '"' := '"', '\'' := '\'']

  lemma UnescapeReadsTheTable(c: char)
    ensures Unescape(c) == if c in ESCAPES then ESCAPES[c] else c
  {
  }

  /** The state machine on what is left of the text. */
  function Scan(rest: string, mode: Mode, buf: string, segments: seq<string>): Option<string>
    decreases |rest|
  {
    if rest == "" then None
    else
      var c := rest[0];
      var next := if |rest| > 1 then Some(rest[1]) else None;
      match mode
      case InLineComment => Scan(rest[1..], if c == '\n' then Outside else InLineComment, buf, segments)
      case InBlockComment =>
        if c == '*' && next == Some('/') then Scan(rest[2..], Outside, buf, segments)
        else Scan(rest[1..], InBlockComment, buf, segments)
      case InString =>
        if c == '\\' && next.Some? then Scan(rest[2..], InString, buf + [Unescape(next.value)], segments)
        else if c == '"' then Scan(rest[1..], Outside, "", segments + [buf])
        else Scan(rest[1..], InString, buf + [c], segments)
      case Outside =>
        if c == ';' then (if segments != [] then Some(Join(segments)) else None)
        else if c == '"' then Scan(rest[1..], InString, buf, segments)
        else if c == '/' && next == Some('/') then Scan(rest[2..], InLineComment, buf, segments)
        else if c == '/' && next == Some('*') then Scan(rest[2..], InBlockComment, buf, segments)
        else Scan(rest[1..], Outside, buf, segments)
  }

  /** The constant after the first occurrence of the marker. */
  function Constant(text: string, marker: string): Option<string> {
    match Find(text, marker, 0)
    case None => None
    case Some(i) => Scan(text[i + |marker|..], Outside, "", [])
  }

  /** One step of the machine, at a position in the text. */
  lemma ScanAt(text: string, cursor: nat, mode: Mode, buf: string, segments: seq<string>)
    requires cursor < |text|
    ensures var c := text[cursor];
      var pair := cursor + 1 < |text|;
      Scan(text[cursor..], mode, buf, segments) ==
        match mode
        case InLineComment => Scan(text[cursor + 1..], if c == '\n' then Outside else InLineComment, buf, segments)
        case InBlockComment =>
          if c == '*' && pair && text[cursor + 1] == '/' then Scan(text[cursor + 2..], Outside, buf, segments)
          else Scan(text[cursor + 1..], InBlockComment, buf, segments)
        case InString =>
          if c == '\\' && pair then Scan(text[cursor + 2..], InString, buf + [Unescape(text[cursor + 1])], segments)
          else if c == '"' then Scan(text[cursor + 1..], Outside, "", segments + [buf])
          else Scan(text[cursor + 1..], InString, buf + [c], segments)
        case Outside =>
          if c == ';' then (if segments != [] then Some(Join(segments)) else None)
          else if c == '"' then Scan(text[cursor + 1..], InString, buf, segments)
          else if c == '/' && pair && text[cursor + 1] == '/' then Scan(text[cursor + 2..], InLineComment, buf, segments)
          else if c == '/' && pair && text[cursor + 1] == '*' then Scan(text[cursor + 2..], InBlockComment, buf, segments)
          else Scan(text[cursor + 1..], Outside, buf, segments)
  {
    hide Join, Unescape;
    assert text[cursor..][1..] == text[cursor + 1..];
    assert cursor + 1 < |text| ==> text[cursor..][2..] == text[cursor + 2..];
  }

  lemma ScanEmpty(mode: Mode, buf: string, segments: seq<string>)
    ensures Scan("", mode, buf, segments) == None
  {
  }

  /** The machine's mode, from the three flags the code keeps. */
  function ModeOf(inString: bool, inLineComment: bool, inBlockComment: bool): Mode {
    if inLineComment then InLineComment else if inBlockComment then InBlockComment
    else if inString then InString else Outside
  }

  method Extract(text: string, marker: string) returns (r: Option<string>)
    ensures r == Constant(text, marker)
  {
    hide Scan, Join, Find, Unescape;
    var idx := Find(text, marker, 0);
    if idx.None? { return None; }
    var cursor := idx.value + |marker|;
    var n := |text|;
    var segments: seq<string> := [];
    var inString, inLineComment, inBlockComment := false, false, false;
    var buf := "";
    while cursor < n
      invariant cursor <= n
      invariant inLineComment ==> !inBlockComment && !inString
      invariant inBlockComment ==> !inString
      invariant Constant(text, marker) == Scan(text[cursor..], ModeOf(inString, inLineComment, inBlockComment), buf, segments)
    {
      var c := text[cursor];
      ScanAt(text, cursor, ModeOf(inString, inLineComment, inBlockComment), buf, segments);
      if inLineComment {
        if c == '\n' { inLineComment := false; }
        cursor := cursor + 1;
        continue;
      }
      if inBlockComment {
        if c == '*' && cursor + 1 < n && text[cursor + 1] == '/' {
          inBlockComment := false;
          cursor := cursor + 2;
          continue;
        }
        cursor := cursor + 1;
        continue;
      }
      if inString {
        if c == '\\' && cursor + 1 < n {
          buf := buf + [Unescape(text[cursor + 1])];
          cursor := cursor + 2;
          continue;
        }
        if c == '"' {
          segments := segments + [buf];
          buf := "";
          inString := false;
          cursor := cursor + 1;
          continue;
        }
        buf := buf + [c];
        cursor := cursor + 1;
        continue;
      }
      if c == ';' { return if segments != [] then Some(Join(segments)) else None; }
      if c == '"' {
        inString := true;
        cursor := cursor + 1;
        continue;
      }
      if c == '/' && cursor + 1 < n {
        var nxt := text[cursor + 1];
        if nxt == '/' {
          inLineComment := true;
          cursor := cursor + 2;
          continue;
        }
        if nxt == '*' {
          inBlockComment := true;
          cursor := cursor + 2;
          continue;
        }
      }
      cursor := cursor + 1;
    }
    ScanEmpty(ModeOf(inString, inLineComment, inBlockComment), buf, segments);
    assert text[cursor..] == "";
    r := None;
  }

  // ---- the grammar ----

  /** One character of a literal: as it is, or after a backslash. */
  datatype Element = Plain(c: char) | Escaped(c: char)

  /** A piece of the constant's source: a character outside strings and comments, a comment, or a literal. */
  datatype Token = Other(c: char) | Line(body: string) | Block(body: string) | Literal(elements: seq<Element>)

  predicate ValidElements(es: seq<Element>) {
    forall i :: 0 <= i < |es| ==> es[i].Plain? ==> es[i].c != '"' && es[i].c != '\\'
  }

  function RenderElements(es: seq<Element>): string {
    if es == [] then ""
    else (if es[0].Plain? then [es[0].c] else ['\\', es[0].c]) + RenderElements(es[1..])
  }

  function ValueOf(es: seq<Element>): string {
    if es == [] then ""
    else [if es[0].Plain? then es[0].c else Unescape(es[0].c)] + ValueOf(es[1..])
  }

  function Render(t: Token): string {
    match t
    case Other(c) => [c]
    case Line(body) => "//" + body + "\n"
    case Block(body) => "/*" + body + "*/"
    case Literal(es) => "\"" + RenderElements(es) + "\""
  }

  function RenderAll(ts: seq<Token>): string {
    if ts == [] then "" else Render(ts[0]) + RenderAll(ts[1..])
  }

  predicate ClosesAt(s: string, i: int) {
    0 <= i && i + 1 < |s| && s[i] == '*' && s[i + 1] == '/'
  }

  /** A token is what it claims to be, given the text that follows it. */
  ghost predicate ValidToken(t: Token, following: string) {
    match t
    case Other(c) => c != ';' && c != '"' && (c == '/' && following != "" ==> following[0] != '/' && following[0] != '*')
    case Line(body) => '\n' !in body
    case Block(body) => forall i :: !ClosesAt(body, i)
    case Literal(es) => ValidElements(es)
  }

  ghost predicate ValidTokens(ts: seq<Token>, following: string) {
    ts == [] || (ValidToken(ts[0], RenderAll(ts[1..]) + following) && ValidTokens(ts[1..], following))
  }

  function Literals(ts: seq<Token>): seq<string> {
    if ts == [] then []
    else (if ts[0].Literal? then [ValueOf(ts[0].elements)] else []) + Literals(ts[1..])
  }

  // ---- every token sequence scans to its literals ----

  lemma {:induction false} ScanLine(body: string, rest: string, segments: seq<string>)
    requires '\n' !in body
    ensures Scan(body + "\n" + rest, InLineComment, "", segments) == Scan(rest, Outside, "", segments)
  {
    var text := body + "\n" + rest;
    if body == "" {
      assert text[1..] == rest;
    } else {
      assert text[1..] == body[1..] + "\n" + rest;
      ScanLine(body[1..], rest, segments);
    }
  }

  lemma {:induction false} ScanBlock(body: string, rest: string, segments: seq<string>)
    requires forall i :: !ClosesAt(body, i)
    ensures Scan(body + "*/" + rest, InBlockComment, "", segments) == Scan(rest, Outside, "", segments)
  {
    var text := body + "*/" + rest;
    if body == "" {
      assert text[2..] == rest;
    } else {
      assert text[1..] == body[1..] + "*/" + rest;
      assert !ClosesAt(body, 0);
      forall i ensures !ClosesAt(body[1..], i) { assert !ClosesAt(body, i + 1); }
      ScanBlock(body[1..], rest, segments);
    }
  }

  lemma StepOther(c: char, rest: string, segments: seq<string>)
    requires ValidToken(Other(c), rest)
    ensures Scan([c] + rest, Outside, "", segments) == Scan(rest, Outside, "", segments)
  {
    assert ([c] + rest)[1..] == rest;
  }

  lemma StepOpen(c: char, rest: string, segments: seq<string>)
    requires c == '/' || c == '*'
    ensures Scan(['/', c] + rest, Outside, "", segments) == Scan(rest, if c == '/' then InLineComment else InBlockComment, "", segments)
  {
    assert (['/', c] + rest)[2..] == rest;
  }

  lemma StepQuote(rest: string, segments: seq<string>)
    ensures Scan(['"'] + rest, Outside, "", segments) == Scan(rest, InString, "", segments)
  {
    assert (['"'] + rest)[1..] == rest;
  }

  lemma StepClose(rest: string, buf: string, segments: seq<string>)
    ensures Scan(['"'] + rest, InString, buf, segments) == Scan(rest, Outside, "", segments + [buf])
  {
    assert (['"'] + rest)[1..] == rest;
  }

  lemma StepElement(e: Element, rest: string, buf: string, segments: seq<string>)
    requires e.Plain? ==> e.c != '"' && e.c != '\\'
    ensures Scan((if e.Plain? then [e.c] else ['\\', e.c]) + rest, InString, buf, segments)
      == Scan(rest, InString, buf + [if e.Plain? then e.c else Unescape(e.c)], segments)
  {
    if e.Plain? {
      assert ([e.c] + rest)[1..] == rest;
    } else {
      assert (['\\', e.c] + rest)[2..] == rest;
    }
  }

  lemma {:induction false} ScanLiteral(es: seq<Element>, rest: string, buf: string, segments: seq<string>)
    requires ValidElements(es)
    ensures Scan(RenderElements(es) + "\"" + rest, InString, buf, segments)
      == Scan(rest, Outside, "", segments + [buf + ValueOf(es)])
  {
    hide Scan, Unescape;
    if es == [] {
      assert RenderElements(es) + "\"" + rest == ['"'] + rest && buf + ValueOf(es) == buf;
      StepClose(rest, buf, segments);
    } else {
      var tail := RenderElements(es[1..]) + "\"" + rest;
      var c := if es[0].Plain? then es[0].c else Unescape(es[0].c);
      assert RenderElements(es) + "\"" + rest == (if es[0].Plain? then [es[0].c] else ['\\', es[0].c]) + tail;
      StepElement(es[0], tail, buf, segments);
      ScanLiteral(es[1..], rest, buf + [c], segments);
      assert buf + ValueOf(es) == buf + [c] + ValueOf(es[1..]);
    }
  }

  lemma ScanComment(t: Token, rest: string, segments: seq<string>)
    requires (t.Line? || t.Block?) && ValidToken(t, rest)
    ensures Scan(Render(t) + rest, Outside, "", segments) == Scan(rest, Outside, "", segments)
  {
    hide Scan;
    if t.Line? {
      var tail := t.body + "\n" + rest;
      assert Render(t) + rest == ['/', '/'] + tail;
      StepOpen('/', tail, segments);
      ScanLine(t.body, rest, segments);
    } else {
      var tail := t.body + "*/" + rest;
      assert Render(t) + rest == ['/', '*'] + tail;
      StepOpen('*', tail, segments);
      ScanBlock(t.body, rest, segments);
    }
  }

  lemma ScanQuoted(es: seq<Element>, rest: string, segments: seq<string>)
    requires ValidElements(es)
    ensures Scan(Render(Literal(es)) + rest, Outside, "", segments) == Scan(rest, Outside, "", segments + [ValueOf(es)])
  {
    hide Scan, RenderElements, ValueOf;
    var tail := RenderElements(es) + "\"" + rest;
    assert Render(Literal(es)) + rest == ['"'] + tail;
    StepQuote(tail, segments);
    ScanLiteral(es, rest, "", segments);
    assert "" + ValueOf(es) == ValueOf(es);
  }

  /** One token: what it adds to the segments. */
  lemma ScanToken(t: Token, rest: string, segments: seq<string>)
    requires ValidToken(t, rest)
    ensures Scan(Render(t) + rest, Outside, "", segments)
      == Scan(rest, Outside, "", segments + if t.Literal? then [ValueOf(t.elements)] else [])
  {
    hide Scan, RenderElements, ValueOf;
    if t.Literal? {
      ScanQuoted(t.elements, rest, segments);
    } else {
      assert segments + [] == segments;
      if t.Other? { StepOther(t.c, rest, segments); } else { ScanComment(t, rest, segments); }
    }
  }

  lemma ScanEnd(after: string, segments: seq<string>)
    ensures Scan(";" + after, Outside, "", segments) == if segments != [] then Some(Join(segments)) else None
  {
  }

  lemma {:induction false} ScanTokens(ts: seq<Token>, after: string, segments: seq<string>)
    requires ValidTokens(ts, ";" + after)
    ensures Scan(RenderAll(ts) + ";" + after, Outside, "", segments)
      == var all := segments + Literals(ts); if all != [] then Some(Join(all)) else None
  {
    hide Scan, Render, ValidToken, Join;
    if ts == [] {
      assert RenderAll(ts) + ";" + after == ";" + after;
      assert segments + Literals(ts) == segments;
      ScanEnd(after, segments);
    } else {
      var rest := RenderAll(ts[1..]) + ";" + after;
      assert rest == RenderAll(ts[1..]) + (";" + after);
      assert RenderAll(ts) + ";" + after == Render(ts[0]) + rest;
      ScanToken(ts[0], rest, segments);
      var segments' := segments + if ts[0].Literal? then [ValueOf(ts[0].elements)] else [];
      ScanTokens(ts[1..], after, segments');
      assert segments + Literals(ts) == segments' + Literals(ts[1..]);
    }
  }

  // ---- whatever scans is such a token sequence ----

  lemma {:induction false} ParseLine(rest: string, segments: seq<string>) returns (body: string, tail: string)
    requires Scan(rest, InLineComment, "", segments).Some?
    ensures '\n' !in body && rest == body + "\n" + tail
    decreases |rest|
  {
    if rest[0] == '\n' {
      body, tail := "", rest[1..];
    } else {
      body, tail := ParseLine(rest[1..], segments);
      body := [rest[0]] + body;
    }
  }

  lemma {:induction false} ParseBlock(rest: string, segments: seq<string>) returns (body: string, tail: string)
    requires Scan(rest, InBlockComment, "", segments).Some?
    ensures forall i :: !ClosesAt(body, i)
    ensures rest == body + "*/" + tail
    decreases |rest|
  {
    if ClosesAt(rest, 0) {
      body, tail := "", rest[2..];
    } else {
      var inner;
      inner, tail := ParseBlock(rest[1..], segments);
      body := [rest[0]] + inner;
      assert rest == body + ("*/" + tail);
      forall i ensures !ClosesAt(body, i) {
        assert !ClosesAt(inner, i - 1) && (i == 0 ==> !ClosesAt(rest, i));
      }
    }
  }

  lemma {:induction false} ParseLiteral(rest: string, buf: string, segments: seq<string>) returns (es: seq<Element>, tail: string)
    requires Scan(rest, InString, buf, segments).Some?
    ensures ValidElements(es) && rest == RenderElements(es) + "\"" + tail
    decreases |rest|
  {
    if rest[0] == '\\' && |rest| > 1 {
      var inner;
      inner, tail := ParseLiteral(rest[2..], buf + [Unescape(rest[1])], segments);
      es := [Escaped(rest[1])] + inner;
      assert rest == ['\\', rest[1]] + rest[2..];
    } else if rest[0] == '"' {
      es, tail := [], rest[1..];
    } else {
      assert rest[1..] != "";
      var inner;
      inner, tail := ParseLiteral(rest[1..], buf + [rest[0]], segments);
      es := [Plain(rest[0])] + inner;
      assert rest == [rest[0]] + rest[1..];
    }
  }

  lemma ParseToken(rest: string, segments: seq<string>) returns (t: Token, tail: string)
    requires rest != "" && rest[0] != ';' && Scan(rest, Outside, "", segments).Some?
    ensures rest == Render(t) + tail && ValidToken(t, tail) && |tail| < |rest|
  {
    hide Scan, Join, RenderElements;
    assert rest[0..] == rest;
    ScanAt(rest, 0, Outside, "", segments);
    if rest[0] == '"' {
      var es;
      es, tail := ParseLiteral(rest[1..], "", segments);
      t := Literal(es);
      assert rest == ['"'] + rest[1..];
    } else if rest[0] == '/' && |rest| > 1 && rest[1] == '/' {
      var body;
      body, tail := ParseLine(rest[2..], segments);
      t := Line(body);
      assert rest == ['/', '/'] + rest[2..];
    } else if rest[0] == '/' && |rest| > 1 && rest[1] == '*' {
      var body;
      body, tail := ParseBlock(rest[2..], segments);
      t := Block(body);
      assert rest == ['/', '*'] + rest[2..];
    } else {
      t, tail := Other(rest[0]), rest[1..];
      assert rest == [rest[0]] + rest[1..];
    }
  }

  lemma ScanNeedsText(rest: string, segments: seq<string>)
    requires Scan(rest, Outside, "", segments).Some?
    ensures rest != ""
  {
  }

  lemma {:induction false} ParseTokens(rest: string, segments: seq<string>) returns (ts: seq<Token>, after: string)
    requires Scan(rest, Outside, "", segments).Some?
    ensures rest == RenderAll(ts) + ";" + after && ValidTokens(ts, ";" + after)
    decreases |rest|
  {
    hide Scan, Render, ValidToken, ValueOf, Literals;
    ScanNeedsText(rest, segments);
    if rest[0] == ';' {
      ts, after := [], rest[1..];
      assert rest == ";" + after;
      assert RenderAll(ts) + ";" + after == ";" + after;
    } else {
      var t, tail := ParseToken(rest, segments);
      ScanToken(t, tail, segments);
      var more;
      more, after := ParseTokens(tail, segments + if t.Literal? then [ValueOf(t.elements)] else []);
      ts := [t] + more;
      assert ts[1..] == more;
      assert tail == RenderAll(more) + (";" + after);
      assert rest == RenderAll(ts) + ";" + after;
    }
  }

  // ---- the two directions, for whole texts ----

  /** What follows the marker, up to the first `;` outside strings and comments, is these tokens. */
  ghost predicate DeclaredAs(text: string, marker: string, ts: seq<Token>, after: string) {
    && Find(text, marker, 0).Some?
    && text[Find(text, marker, 0).value + |marker|..] == RenderAll(ts) + ";" + after
    && ValidTokens(ts, ";" + after)
  }

  /**
   Exactness. Extraction answers a string if and only if the marker occurs and what follows it is a
   well-formed sequence of tokens with at least one literal, ended by a `;`; and the string it
   answers is the concatenation of the literals' values.
   */
  lemma ExtractsExactly(text: string, marker: string, r: string)
    ensures Constant(text, marker) == Some(r) <==>
      exists ts, after :: DeclaredAs(text, marker, ts, after) && Literals(ts) != [] && r == Join(Literals(ts))
  {
    if Constant(text, marker) == Some(r) {
      var rest := text[Find(text, marker, 0).value + |marker|..];
      var ts, after := ParseTokens(rest, []);
      ScanTokens(ts, after, []);
      assert [] + Literals(ts) == Literals(ts);
      assert DeclaredAs(text, marker, ts, after);
    }
    if exists ts, after :: DeclaredAs(text, marker, ts, after) && Literals(ts) != [] && r == Join(Literals(ts)) {
      var ts, after :| DeclaredAs(text, marker, ts, after) && Literals(ts) != [] && r == Join(Literals(ts));
      ScanTokens(ts, after, []);
      assert [] + Literals(ts) == Literals(ts);
    }
  }

  // ---- printing and reading back ----

  /** The literal for a string: quotes, backslashes, newlines and tabs escaped. */
  function Escape(s: string): (es: seq<Element>)
    ensures ValidElements(es)
  {
    if s == "" then []
    else
      var e := if s[0] == '\n' then Escaped('n') else if s[0] == '\t' then Escaped('t')
               else if s[0] == '"' || s[0] == '\\' then Escaped(s[0]) else Plain(s[0]);
      [e] + Escape(s[1..])
  }

  lemma {:induction false} EscapeKeepsValue(s: string)
    ensures ValueOf(Escape(s)) == s
  {
    if s != "" {
      EscapeKeepsValue(s[1..]);
      assert Escape(s)[1..] == Escape(s[1..]);
    }
  }

  /** Whitespace and comments, of any length and in any order. */
  ghost predicate IsGap(ts: seq<Token>) {
    forall i :: 0 <= i < |ts| ==>
      match ts[i]
      case Other(c) => c in " \t\n\r"
      case Line(body) => '\n' !in body
      case Block(body) => forall j :: !ClosesAt(body, j)
      case Literal(_) => false
  }

  /** A string with the gaps before and after its literal. */
  datatype Part = Part(before: seq<Token>, value: string, behind: seq<Token>)

  /** The tokens of a printed constant: literals with gaps around them, joined by `+`. */
  function Printed(parts: seq<Part>): seq<Token> {
    if parts == [] then []
    else
      parts[0].before + [Literal(Escape(parts[0].value))] + parts[0].behind
      + (if |parts| > 1 then [Other('+')] else []) + Printed(parts[1..])
  }

  function Values(parts: seq<Part>): seq<string> {
    if parts == [] then [] else [parts[0].value] + Values(parts[1..])
  }

  /** Tokens that need nothing of the text that follows them. */
  ghost predicate Standalone(ts: seq<Token>) {
    forall i :: 0 <= i < |ts| ==> ValidToken(ts[i], "/")
  }

  lemma {:induction false} StandaloneIsValid(ts: seq<Token>, following: string)
    requires Standalone(ts)
    ensures ValidTokens(ts, following)
  {
    if ts != [] {
      assert ValidToken(ts[0], "/");
      forall i | 0 <= i < |ts[1..]| ensures ValidToken(ts[1..][i], "/") { assert ValidToken(ts[i + 1], "/"); }
      StandaloneIsValid(ts[1..], following);
    }
  }

  lemma {:induction false} LiteralsConcat(a: seq<Token>, b: seq<Token>)
    ensures Literals(a + b) == Literals(a) + Literals(b)
  {
    hide ValueOf;
    if a == [] {
      assert a + b == b;
    } else {
      assert (a + b)[0] == a[0] && (a + b)[1..] == a[1..] + b;
      LiteralsConcat(a[1..], b);
    }
  }

  lemma {:induction false} GapHasNoLiterals(ts: seq<Token>)
    requires IsGap(ts)
    ensures Literals(ts) == [] && Standalone(ts)
  {
    if ts != [] {
      GapHasNoLiterals(ts[1..]);
      assert forall i :: 0 <= i < |ts[1..]| ==> ts[1..][i] == ts[i + 1];
      assert forall i :: 1 <= i < |ts| ==> ts[i] == ts[1..][i - 1];
    }
  }

  lemma OneLiteral(s: string)
    ensures Literals([Literal(Escape(s))]) == [s]
  {
    EscapeKeepsValue(s);
    assert Literals([Literal(Escape(s))][1..]) == [];
  }

  lemma NoLiteral(ts: seq<Token>)
    requires ts == [] || ts == [Other('+')]
    ensures Literals(ts) == []
  {
    assert ts != [] ==> ts[1..] == [];
  }

  lemma {:induction false} PrintedTokens(parts: seq<Part>)
    requires forall i :: 0 <= i < |parts| ==> IsGap(parts[i].before) && IsGap(parts[i].behind)
    ensures Standalone(Printed(parts)) && Literals(Printed(parts)) == Values(parts)
  {
    hide Literals, Escape, ValueOf;
    if parts != [] {
      var p := parts[0];
      PrintedTokens(parts[1..]);
      GapHasNoLiterals(p.before);
      GapHasNoLiterals(p.behind);
      var lit := [Literal(Escape(p.value))];
      var plus := if |parts| > 1 then [Other('+')] else [];
      OneLiteral(p.value);
      NoLiteral(plus);
      LiteralsConcat(p.before + lit + p.behind + plus, Printed(parts[1..]));
      LiteralsConcat(p.before + lit + p.behind, plus);
      LiteralsConcat(p.before + lit, p.behind);
      LiteralsConcat(p.before, lit);
      assert Literals(p.before + lit + p.behind + plus) == [p.value];
    } else {
      NoLiteral([]);
    }
  }

  lemma FoundAt(text: string, marker: string, i: nat)
    requires Find(text, marker, 0) == Some(i)
    ensures Constant(text, marker) == Scan(text[i + |marker|..], Outside, "", [])
  {
    hide Scan, Find;
  }

  lemma ScanConstant(ts: seq<Token>, after: string)
    requires ValidTokens(ts, ";" + after) && Literals(ts) != []
    ensures Scan(RenderAll(ts) + ";" + after, Outside, "", []) == Some(Join(Literals(ts)))
  {
    hide Scan, RenderAll, ValidTokens, Join, Literals;
    ScanTokens(ts, after, []);
    assert [] + Literals(ts) == Literals(ts);
  }

  lemma DropFront(a: string, b: string, c: string, d: string, e: string)
    ensures (a + b + c + d + e)[|a| + |b|..] == c + d + e
  {
    assert a + b + c + d + e == (a + b) + (c + d + e);
  }

  lemma {:induction false} ValuesCount(parts: seq<Part>)
    ensures |Values(parts)| == |parts|
  {
    if parts != [] { ValuesCount(parts[1..]); }
  }

  /**
   Round trip. Print any non-empty list of strings as escaped literals joined by `+`, with any
   whitespace and comments between the tokens, end it with a `;`, and put it after the marker's
   first occurrence in any text: extraction answers the strings' concatenation.
   */
  lemma {:induction false} PrintThenExtract(text: string, marker: string, prefix: string, parts: seq<Part>, suffix: string)
    requires text == prefix + marker + RenderAll(Printed(parts)) + ";" + suffix
    requires Find(text, marker, 0) == Some(|prefix|)
    requires parts != [] && forall i :: 0 <= i < |parts| ==> IsGap(parts[i].before) && IsGap(parts[i].behind)
    ensures Constant(text, marker) == Some(Join(Values(parts)))
  {
    hide Scan, RenderAll, Find, Printed, Values, IsGap, Standalone, ValidTokens, Join, Literals, Constant;
    var ts := Printed(parts);
    PrintedTokens(parts);
    StandaloneIsValid(ts, ";" + suffix);
    DropFront(prefix, marker, RenderAll(ts), ";", suffix);
    FoundAt(text, marker, |prefix|);
    ValuesCount(parts);
    ScanConstant(ts, suffix);
  }
}
