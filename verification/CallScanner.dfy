/**
 Finding the calls of a function in source text, and their argument regions, while skipping strings
 and comments (`_find_calls` in audit/input_provenance_check.py).
 */
module CallScanner {
  import opened Prelude
  import opened Text

  // ---- strings and comments ----

  predicate IsQuote(c: char) { c == '"' || c == '\'' || c == '`' }

  /** Just past the closing quote of a string whose inside starts at `j`; a backslash hides the next character. */
  function QuoteEnd(text: string, j: nat, quote: char): (r: nat)
    ensures r <= |text| && (j <= |text| ==> j <= r)
    decreases |text| - j
  {
    if j >= |text| then |text|
    else if text[j] == '\\' then QuoteEnd(text, j + 2, quote)
    else if text[j] == quote then j + 1
    else QuoteEnd(text, j + 1, quote)
  }

  function After(found: Option<nat>, width: nat, text: string): nat {
    match found case Some(j) => j + width case None => |text|
  }

  /** Where the string or comment that opens at `i` ends; none if nothing opens there. */
  function Skip(text: string, i: nat, suffix: string): (r: Option<nat>)
    requires i < |text|
    ensures r.Some? ==> i < r.value <= |text|
  {
    var c := text[i];
    if c == '#' && suffix == ".py" then Some(After(Find(text, "\n", i), 0, text))
    else if c == '/' && (suffix == ".ts" || suffix == ".rs") && i + 1 < |text| && text[i + 1] == '/' then
      Some(After(Find(text, "\n", i), 0, text))
    else if c == '/' && (suffix == ".ts" || suffix == ".rs") && i + 1 < |text| && text[i + 1] == '*' then
      Some(After(Find(text, "*/", i + 2), 2, text))
    else if IsQuote(c) then
      if suffix == ".py" && OccursAt(text, [c, c, c], i) then Some(After(Find(text, [c, c, c], i + 3), 3, text))
      else Some(QuoteEnd(text, i + 1, c))
    else None
  }

  // ---- where strings and comments end ----

  /** How many backslashes in a row end just before `k`, none of them before `from`. */
  function Backslashes(text: string, from: nat, k: nat): nat
    requires k <= |text|
  {
    if k <= from || text[k - 1] != '\\' then 0 else 1 + Backslashes(text, from, k - 1)
  }

  /** A quote that no backslash escapes, in a string whose inside starts at `from`. */
  predicate ClosingQuote(text: string, from: nat, quote: char, k: nat) {
    from <= k < |text| && text[k] == quote && Backslashes(text, from, k) % 2 == 0
  }

  /** `r` is just past the first unescaped quote at or after `j`, or the end of the text if there is none. */
  ghost predicate EndsAtQuote(text: string, from: nat, j: nat, quote: char, r: nat) {
    || (0 < r && j < r && ClosingQuote(text, from, quote, r - 1) && forall i: nat :: j <= i < r - 1 ==> !ClosingQuote(text, from, quote, i))
    || (r == |text| && forall i: nat :: j <= i ==> !ClosingQuote(text, from, quote, i))
  }

  /** After an unescaped backslash the next character is escaped, and the one after that is not. */
  lemma EscapedPair(text: string, from: nat, j: nat)
    requires from <= j && j + 2 <= |text| && text[j] == '\\' && Backslashes(text, from, j) % 2 == 0
    ensures Backslashes(text, from, j + 1) % 2 == 1 && Backslashes(text, from, j + 2) % 2 == 0
  {
    assert Backslashes(text, from, j + 1) == 1 + Backslashes(text, from, j);
    assert Backslashes(text, from, j + 2) == if text[j + 1] == '\\' then 2 + Backslashes(text, from, j) else 0;
  }

  lemma {:induction false} QuoteEndsAtQuote(text: string, from: nat, j: nat, quote: char)
    requires from <= j && quote != '\\'
    requires j <= |text| ==> Backslashes(text, from, j) % 2 == 0
    ensures EndsAtQuote(text, from, j, quote, QuoteEnd(text, j, quote))
    decreases |text| - j
  {
    if j < |text| {
      if text[j] == '\\' {
        if j + 2 <= |text| { EscapedPair(text, from, j); }
        QuoteEndsAtQuote(text, from, j + 2, quote);
      } else if text[j] != quote {
        assert Backslashes(text, from, j + 1) == 0;
        QuoteEndsAtQuote(text, from, j + 1, quote);
      }
    }
  }

  /** `r` is `width` past the first occurrence of `mark` at or after `from`, or the end of the text if there is none. */
  ghost predicate EndsAtMark(text: string, mark: string, from: nat, width: nat, r: nat) {
    || (r >= from + width && OccursAt(text, mark, r - width) && forall i: nat :: from <= i < r - width ==> !OccursAt(text, mark, i))
    || (r == |text| && forall i: nat :: from <= i ==> !OccursAt(text, mark, i))
  }

  predicate HasSlashComments(suffix: string) { suffix == ".ts" || suffix == ".rs" }

  lemma NoBackslashes(text: string, from: nat)
    requires from <= |text|
    ensures Backslashes(text, from, from) == 0
  {
  }

  lemma TwoCharacters(text: string, mark: string, i: nat)
    requires |mark| == 2
    ensures OccursAt(text, mark, i) <==> i + 1 < |text| && text[i] == mark[0] && text[i + 1] == mark[1]
  {
    if i + 1 < |text| {
      assert text[i..i + 2] == [text[i], text[i + 1]];
      assert mark == [mark[0], mark[1]];
    }
  }

  /**
   What opens a string or comment, and where each kind ends: a line comment before the next newline,
   a block comment after the next closing mark, a triple-quoted string after the next three quotes,
   and any other string after its first unescaped quote; each at the end of the text failing that.
   */
  lemma SkipEndsWhereItShould(text: string, i: nat, suffix: string)
    requires i < |text|
    ensures var skipped := Skip(text, i, suffix);
      var c := text[i];
      if (c == '#' && suffix == ".py") || (HasSlashComments(suffix) && OccursAt(text, "//", i)) then
        skipped.Some? && EndsAtMark(text, "\n", i, 0, skipped.value)
      else if HasSlashComments(suffix) && OccursAt(text, "/*", i) then
        skipped.Some? && EndsAtMark(text, "*/", i + 2, 2, skipped.value)
      else if IsQuote(c) && suffix == ".py" && OccursAt(text, [c, c, c], i) then
        skipped.Some? && EndsAtMark(text, [c, c, c], i + 3, 3, skipped.value)
      else if IsQuote(c) then
        skipped.Some? && EndsAtQuote(text, i + 1, i + 1, c, skipped.value)
      else skipped.None?
  {
    hide Find, QuoteEnd, Backslashes, EndsAtQuote;
    var c := text[i];
    TwoCharacters(text, "//", i);
    TwoCharacters(text, "/*", i);
    if IsQuote(c) {
      NoBackslashes(text, i + 1);
      QuoteEndsAtQuote(text, i + 1, i + 1, c);
    }
  }

  method SkipStringOrComment(text: string, i: nat, suffix: string) returns (r: Option<nat>)
    requires i < |text|
    ensures r == Skip(text, i, suffix)
  {
    var ch := text[i];
    if ch == '#' && suffix == ".py" {
      return Some(After(Find(text, "\n", i), 0, text));
    }
    if ch == '/' && (suffix == ".ts" || suffix == ".rs") && i + 1 < |text| {
      var nxt := text[i + 1];
      if nxt == '/' { return Some(After(Find(text, "\n", i), 0, text)); }
      if nxt == '*' { return Some(After(Find(text, "*/", i + 2), 2, text)); }
    }
    if IsQuote(ch) {
      var quote := ch;
      if suffix == ".py" && OccursAt(text, [quote, quote, quote], i) {
        return Some(After(Find(text, [quote, quote, quote], i + 3), 3, text));
      }
      var j := i + 1;
      while j < |text|
        invariant QuoteEnd(text, i + 1, quote) == QuoteEnd(text, j, quote)
        decreases |text| - j
      {
        if text[j] == '\\' {
          j := j + 2;
          continue;
        }
        if text[j] == quote { return Some(j + 1); }
        j := j + 1;
      }
      return Some(|text|);
    }
    return None;
  }

  // ---- the lexical path ----

  function Next(text: string, i: nat, suffix: string): (r: nat)
    requires i < |text|
    ensures i < r <= |text|
  {
    match Skip(text, i, suffix) case Some(n) => n case None => i + 1
  }

  /** Reading from `a` on, strings and comments skipped whole, one comes by `b`. */
  predicate Reaches(text: string, suffix: string, a: nat, b: nat)
    decreases |text| - a
  {
    a == b || (a < |text| && Reaches(text, suffix, Next(text, a, suffix), b))
  }

  /** A position that is read as code: not inside a string or a comment, nor where one opens. */
  predicate IsCode(text: string, suffix: string, k: nat) {
    k < |text| && Reaches(text, suffix, 0, k) && Skip(text, k, suffix).None?
  }

  lemma {:induction false} ReachesGoesForward(text: string, suffix: string, a: nat, b: nat)
    requires Reaches(text, suffix, a, b)
    ensures a <= b && (a < |text| ==> b <= |text|)
    decreases |text| - a
  {
    hide Skip;
    if a != b { ReachesGoesForward(text, suffix, Next(text, a, suffix), b); }
  }

  lemma {:induction false} ReachesCompose(text: string, suffix: string, a: nat, b: nat, c: nat)
    requires Reaches(text, suffix, a, b) && Reaches(text, suffix, b, c)
    ensures Reaches(text, suffix, a, c)
    decreases |text| - a
  {
    hide Skip;
    if a != b { ReachesCompose(text, suffix, Next(text, a, suffix), b, c); }
  }

  /** There is one path: of two positions on it, the later is reached from the earlier. */
  lemma {:induction false} OnePath(text: string, suffix: string, a: nat, b: nat, c: nat)
    requires Reaches(text, suffix, a, b) && Reaches(text, suffix, a, c) && b <= c
    ensures Reaches(text, suffix, b, c)
    decreases |text| - a
  {
    hide Skip;
    if a != b {
      ReachesGoesForward(text, suffix, Next(text, a, suffix), b);
      OnePath(text, suffix, Next(text, a, suffix), b, c);
    }
  }

  // ---- matching parentheses ----

  function Delta(c: char): int { if c == '(' then 1 else if c == ')' then -1 else 0 }

  /** Opening minus closing parentheses in the code from `a` up to `b`. */
  function Balance(text: string, suffix: string, a: nat, b: nat): int
    requires Reaches(text, suffix, a, b)
    decreases |text| - a
  {
    if a == b then 0
    else (if Skip(text, a, suffix).None? then Delta(text[a]) else 0) + Balance(text, suffix, Next(text, a, suffix), b)
  }

  /** From nesting depth `depth` at `j`, the code at `m` is the first point where the depth falls to zero. */
  ghost predicate FallsToZeroAt(text: string, suffix: string, j: nat, depth: int, m: nat) {
    && Reaches(text, suffix, j, m) && m < |text| && Skip(text, m, suffix).None? && text[m] == ')'
    && depth + Balance(text, suffix, j, m) == 1
    && forall k: nat :: k <= m && Reaches(text, suffix, j, k) ==> depth + Balance(text, suffix, j, k) >= 1
  }

  ghost predicate IsMatchingClose(text: string, suffix: string, open: nat, m: nat) {
    FallsToZeroAt(text, suffix, open + 1, 1, m)
  }

  /** The inner loop of the scan. */
  function CloseFrom(text: string, suffix: string, j: nat, depth: nat): (r: Option<nat>)
    requires depth >= 1
    ensures r.Some? ==> j <= r.value < |text|
    decreases |text| - j
  {
    if j >= |text| then None
    else
      match Skip(text, j, suffix)
      case Some(n) => CloseFrom(text, suffix, n, depth)
      case None =>
        if text[j] == '(' then CloseFrom(text, suffix, j + 1, depth + 1)
        else if text[j] == ')' then (if depth == 1 then Some(j) else CloseFrom(text, suffix, j + 1, depth - 1))
        else CloseFrom(text, suffix, j + 1, depth)
  }

  lemma ZeroIsHere(text: string, suffix: string, j: nat, m: nat)
    requires j < |text| && Skip(text, j, suffix).None? && text[j] == ')'
    ensures FallsToZeroAt(text, suffix, j, 1, m) <==> m == j
  {
    hide Skip;
    forall k: nat | Reaches(text, suffix, j, k) ensures k >= j { ReachesGoesForward(text, suffix, j, k); }
    if FallsToZeroAt(text, suffix, j, 1, m) && m != j {
      var next := Next(text, j, suffix);
      ReachesGoesForward(text, suffix, next, m);
      assert Reaches(text, suffix, next, next) && Reaches(text, suffix, j, next);
      assert Balance(text, suffix, j, next) == -1 + Balance(text, suffix, next, next);
      assert false;
    }
  }

  /** Looking for the zero from `j` or from the next position is the same, unless it is at `j` itself. */
  lemma StepTowardsZero(text: string, suffix: string, j: nat, depth: nat, m: nat)
    requires depth >= 1 && j < |text|
    requires depth + (if Skip(text, j, suffix).None? then Delta(text[j]) else 0) >= 1
    ensures var d := if Skip(text, j, suffix).None? then Delta(text[j]) else 0;
      FallsToZeroAt(text, suffix, j, depth, m) <==> FallsToZeroAt(text, suffix, Next(text, j, suffix), depth + d, m)
  {
    hide Skip;
    var next := Next(text, j, suffix);
    var d := if Skip(text, j, suffix).None? then Delta(text[j]) else 0;
    forall k: nat | Reaches(text, suffix, next, k)
      ensures Reaches(text, suffix, j, k) && Balance(text, suffix, j, k) == d + Balance(text, suffix, next, k)
    {
      ReachesGoesForward(text, suffix, next, k);
    }
  }

  /** The loop finds the first point of depth zero, and answers none only if there is no such point. */
  lemma {:induction false} CloseIsFirstZero(text: string, suffix: string, j: nat, depth: nat, m: nat)
    requires depth >= 1
    ensures CloseFrom(text, suffix, j, depth) == Some(m) <==> FallsToZeroAt(text, suffix, j, depth, m)
    decreases |text| - j
  {
    hide Skip;
    if j < |text| {
      var next := Next(text, j, suffix);
      var d := if Skip(text, j, suffix).None? then Delta(text[j]) else 0;
      if depth + d == 0 {
        ZeroIsHere(text, suffix, j, m);
      } else {
        CloseIsFirstZero(text, suffix, next, depth + d, m);
        StepTowardsZero(text, suffix, j, depth, m);
      }
    }
  }

  // ---- calls ----

  predicate IsSpace(c: char) { c == ' ' || c == '\t' || c == '\n' || c == '\r' }

  /** The next `(` at or after `i`, with only whitespace before it. */
  function OpenParenAfter(text: string, i: nat): (r: Option<nat>)
    ensures r.Some? ==> i <= r.value < |text| && text[r.value] == '(' && forall k :: i <= k < r.value ==> IsSpace(text[k])
    decreases |text| - i
  {
    if i < |text| && IsSpace(text[i]) then OpenParenAfter(text, i + 1)
    else if i < |text| && text[i] == '(' then Some(i)
    else None
  }

  method FindOpenParen(text: string, start: nat) returns (r: Option<nat>)
    ensures r == OpenParenAfter(text, start)
  {
    var i := start;
    while i < |text| && IsSpace(text[i])
      invariant OpenParenAfter(text, start) == OpenParenAfter(text, i)
    {
      i := i + 1;
    }
    if i < |text| && text[i] == '(' { return Some(i); }
    return None;
  }

  /** Nothing before the position that could be part of the same identifier. */
  predicate IsWordBoundary(text: string, i: nat, alnum: char -> bool)
    requires i <= |text|
  {
    i == 0 || !(alnum(text[i - 1]) || text[i - 1] == '_')
  }

  /** The opening parenthesis of a call of `name` at `i`, if there is one. */
  function CallAt(text: string, name: string, i: nat, alnum: char -> bool): (r: Option<nat>)
    requires i < |text|
    ensures r.Some? ==> OccursAt(text, name, i) && i + |name| <= r.value < |text| && text[r.value] == '('
  {
    if OccursAt(text, name, i) && i + |name| < |text| && IsWordBoundary(text, i, alnum)
    then OpenParenAfter(text, i + |name|)
    else None
  }

  method FindCallAt(text: string, name: string, i: nat, alnum: char -> bool) returns (r: Option<nat>)
    requires i < |text|
    ensures r == CallAt(text, name, i, alnum)
  {
    r := None;
    if OccursAt(text, name, i) && i + |name| < |text| && IsWordBoundary(text, i, alnum) {
      r := FindOpenParen(text, i + |name|);
    }
  }

  /** A call: where its name starts, and where its argument parentheses open and close. */
  datatype Call = Call(start: nat, open: nat, close: nat)

  /** The outer loop of the scan, from position `i`. */
  function Scan(text: string, name: string, suffix: string, alnum: char -> bool, i: nat): seq<Call>
    decreases |text| - i
  {
    if i >= |text| then []
    else
      match Skip(text, i, suffix)
      case Some(n) => Scan(text, name, suffix, alnum, n)
      case None =>
        match CallAt(text, name, i, alnum)
        case None => Scan(text, name, suffix, alnum, i + 1)
        case Some(open) =>
          match CloseFrom(text, suffix, open + 1, 1)
          case None => Scan(text, name, suffix, alnum, i + 1)
          case Some(close) => [Call(i, open, close)] + Scan(text, name, suffix, alnum, close + 1)
  }

  // ---- line numbers ----

  function Newlines(text: string, n: nat): nat
    requires n <= |text|
  {
    if n == 0 then 0 else Newlines(text, n - 1) + if text[n - 1] == '\n' then 1 else 0
  }

  /** Where the newlines before `n` are. */
  function NewlinesAt(text: string, n: nat): set<nat>
    requires n <= |text|
  {
    set k: nat | k < n && text[k] == '\n'
  }

  lemma {:induction false} NewlinesAreCounted(text: string, n: nat)
    requires n <= |text|
    ensures Newlines(text, n) == |NewlinesAt(text, n)|
  {
    if n == 0 {
      assert NewlinesAt(text, n) == {};
    } else {
      NewlinesAreCounted(text, n - 1);
      var before := NewlinesAt(text, n - 1);
      assert NewlinesAt(text, n) == if text[n - 1] == '\n' then before + {n - 1} else before;
    }
  }

  /** The offsets at which the lines of the first `n` characters start. */
  function Starts(text: string, n: nat): (r: seq<nat>)
    requires n <= |text|
    ensures |r| == 1 + Newlines(text, n)
    ensures forall k :: 0 <= k < |r| ==> r[k] <= n
  {
    if n == 0 then [0] else Starts(text, n - 1) + if text[n - 1] == '\n' then [n] else []
  }

  lemma {:induction false} StartsUpTo(text: string, pos: nat, n: nat)
    requires pos <= n <= |text|
    ensures Starts(text, pos) <= Starts(text, n)
    ensures forall k :: |Starts(text, pos)| <= k < |Starts(text, n)| ==> Starts(text, n)[k] > pos
  {
    if pos < n { StartsUpTo(text, pos, n - 1); }
  }

  method LineStarts(text: string) returns (starts: seq<nat>)
    ensures starts == Starts(text, |text|)
  {
    starts := [0];
    for idx := 0 to |text|
      invariant starts == Starts(text, idx)
    {
      if text[idx] == '\n' {
        starts := starts + [idx + 1];
      }
    }
  }

  /** Binary search for the line a position is on: one more than the newlines before it. */
  method LineOf(text: string, lineStarts: seq<nat>, pos: nat) returns (line: nat)
    requires lineStarts == Starts(text, |text|) && pos <= |text|
    ensures line == 1 + Newlines(text, pos)
  {
    StartsUpTo(text, pos, |text|);
    var known := |Starts(text, pos)|;
    var lo, hi := 0, |lineStarts| - 1;
    while lo <= hi
      invariant 0 <= lo <= known && known - 1 <= hi < |lineStarts|
      decreases hi + 1 - lo
    {
      var mid := (lo + hi) / 2;
      assert mid < known ==> lineStarts[mid] == Starts(text, pos)[mid];
      if lineStarts[mid] <= pos {
        lo := mid + 1;
      } else {
        hi := mid - 1;
      }
    }
    line := hi + 1;
  }

  // ---- the scan as the code runs it ----

  /** Every call lies within the text. */
  predicate Inside(text: string, calls: seq<Call>) {
    forall k :: 0 <= k < |calls| ==> calls[k].start <= |text| && calls[k].open < calls[k].close <= |text|
  }

  /** What is yielded for each call: its line number and the text between its parentheses. */
  function Reported(text: string, calls: seq<Call>): (r: seq<(nat, string)>)
    requires Inside(text, calls)
    ensures |r| == |calls|
  {
    seq(|calls|, k requires 0 <= k < |calls| =>
      (1 + Newlines(text, calls[k].start), text[calls[k].open + 1..calls[k].close]))
  }

  lemma {:induction false} ScanInRange(text: string, name: string, suffix: string, alnum: char -> bool, i: nat)
    ensures forall k :: 0 <= k < |Scan(text, name, suffix, alnum, i)| ==>
      var c := Scan(text, name, suffix, alnum, i)[k];
      i <= c.start <= |text| && c.start + |name| <= c.open < c.close < |text|
    decreases |text| - i
  {
    hide Skip, CallAt, CloseFrom;
    if i < |text| {
      match Skip(text, i, suffix)
      case Some(n) => ScanInRange(text, name, suffix, alnum, n);
      case None =>
        ScanInRange(text, name, suffix, alnum, i + 1);
        var open := CallAt(text, name, i, alnum);
        if open.Some? {
          var close := CloseFrom(text, suffix, open.value + 1, 1);
          if close.Some? { ScanInRange(text, name, suffix, alnum, close.value + 1); }
        }
    }
  }

  /** What is yielded for a call: its line, counted from one, and the text strictly between its parentheses. */
  lemma YieldedForACall(text: string, calls: seq<Call>, k: nat)
    requires Inside(text, calls) && k < |calls|
    ensures var c := calls[k];
      var y := Reported(text, calls)[k];
      && y.0 == 1 + |NewlinesAt(text, c.start)|
      && |y.1| == c.close - c.open - 1 && forall i :: 0 <= i < |y.1| ==> y.1[i] == text[c.open + 1 + i]
  {
    NewlinesAreCounted(text, calls[k].start);
  }

  method FindClose(text: string, suffix: string, start: nat) returns (r: Option<nat>)
    ensures r == CloseFrom(text, suffix, start, 1)
  {
    hide Skip;
    var depth: nat := 1;
    var j := start;
    while j < |text| && depth > 0
      invariant depth >= 1
      invariant CloseFrom(text, suffix, start, 1) == CloseFrom(text, suffix, j, depth)
      decreases |text| - j
    {
      var inner := SkipStringOrComment(text, j, suffix);
      if inner.Some? {
        j := inner.value;
        continue;
      }
      if text[j] == '(' {
        depth := depth + 1;
      } else if text[j] == ')' {
        if depth == 1 { return Some(j); }
        depth := depth - 1;
      }
      j := j + 1;
    }
    return None;
  }

  /** Every call found, as its line number and its argument region. */
  method FindCalls(text: string, name: string, suffix: string, alnum: char -> bool) returns (found: seq<(nat, string)>)
    ensures Inside(text, Scan(text, name, suffix, alnum, 0))
    ensures found == Reported(text, Scan(text, name, suffix, alnum, 0))
  {
    hide Skip, CallAt, CloseFrom, Newlines;
    var lineStarts := LineStarts(text);
    found := [];
    ghost var calls: seq<Call> := [];
    var i := 0;
    while i < |text|
      invariant Scan(text, name, suffix, alnum, 0) == calls + Scan(text, name, suffix, alnum, i)
      invariant Inside(text, calls) && found == Reported(text, calls)
      decreases |text| - i
    {
      var skipped := SkipStringOrComment(text, i, suffix);
      if skipped.Some? {
        i := skipped.value;
        continue;
      }
      var open := FindCallAt(text, name, i, alnum);
      if open.Some? {
        var close := FindClose(text, suffix, open.value + 1);
        if close.Some? {
          var line := LineOf(text, lineStarts, i);
          found := found + [(line, text[open.value + 1..close.value])];
          calls := calls + [Call(i, open.value, close.value)];
          i := close.value + 1;
          continue;
        }
      }
      i := i + 1;
    }
    assert Scan(text, name, suffix, alnum, i) == [];
  }

  // ---- what is found ----

  /** No character of the name opens a string or a comment. */
  predicate PlainName(name: string) {
    forall k :: 0 <= k < |name| ==> !IsQuote(name[k]) && name[k] != '#' && name[k] != '/'
  }

  /**
   A call of `name` in the text alone: the name stands at `start`, not as the end of a longer
   identifier, and is followed by nothing but white space up to the parenthesis at `open`.
   */
  ghost predicate IsCallOf(text: string, name: string, alnum: char -> bool, start: nat, open: nat) {
    && start + |name| <= open < |text| && text[open] == '('
    && (forall k :: 0 <= k < |name| ==> text[start + k] == name[k])
    && (start > 0 ==> !alnum(text[start - 1]) && text[start - 1] != '_')
    && (forall k :: start + |name| <= k < open ==> text[k] in [' ', '\t', '\n', '\r'])
  }

  lemma {:induction false} OpensAfter(text: string, i: nat, open: nat)
    ensures OpenParenAfter(text, i) == Some(open) <==>
      i <= open < |text| && text[open] == '(' && forall k :: i <= k < open ==> text[k] in [' ', '\t', '\n', '\r']
    decreases |text| - i
  {
    if i < |text| && IsSpace(text[i]) { OpensAfter(text, i + 1, open); }
  }

  /** What the scan takes for a call at a position is a call, and every call there is taken for one. */
  lemma CallAtIsACall(text: string, name: string, i: nat, alnum: char -> bool, open: nat)
    requires i < |text|
    ensures CallAt(text, name, i, alnum) == Some(open) <==> IsCallOf(text, name, alnum, i, open)
  {
    OpensAfter(text, i + |name|, open);
    if i + |name| <= |text| {
      var there := text[i..i + |name|];
      assert forall k :: 0 <= k < |there| ==> there[k] == text[i + k];
    }
  }

  /** A call with balanced parentheses, its name standing in code. */
  ghost predicate BalancedCall(text: string, name: string, suffix: string, alnum: char -> bool, c: Call) {
    && IsCode(text, suffix, c.start) && IsCallOf(text, name, alnum, c.start, c.open)
    && IsMatchingClose(text, suffix, c.open, c.close)
  }

  lemma {:induction false} PlainStretch(text: string, suffix: string, a: nat, b: nat)
    requires a <= b <= |text|
    requires forall k :: a <= k < b ==> !IsQuote(text[k]) && text[k] != '#' && text[k] != '/'
    ensures Reaches(text, suffix, a, b)
    decreases b - a
  {
    if a < b { PlainStretch(text, suffix, a + 1, b); }
  }

  /** From the start of a call the path leads through its name to its argument, and on past its close. */
  lemma PathThroughCall(text: string, name: string, suffix: string, alnum: char -> bool, i: nat, open: nat, close: nat)
    requires PlainName(name) && i < |text| && CallAt(text, name, i, alnum) == Some(open)
    requires CloseFrom(text, suffix, open + 1, 1) == Some(close)
    ensures Reaches(text, suffix, i, close + 1)
  {
    hide Skip, Balance, CloseFrom;
    assert forall k :: i <= k < i + |name| ==> text[k] == text[i..i + |name|][k - i];
    PlainStretch(text, suffix, i, open + 1);
    CloseIsFirstZero(text, suffix, open + 1, 1, close);
    assert Reaches(text, suffix, close, close + 1) by { assert Next(text, close, suffix) == close + 1; }
    ReachesCompose(text, suffix, open + 1, close, close + 1);
    ReachesCompose(text, suffix, i, open + 1, close + 1);
  }

  /** The regions follow one another without overlap. */
  ghost predicate InOrder(calls: seq<Call>, from: nat) {
    && (forall k :: 0 <= k < |calls| ==> calls[k].start >= from)
    && (forall j, k :: 0 <= j < k < |calls| ==> calls[j].close < calls[k].start)
  }

  ghost predicate AllBalanced(text: string, name: string, suffix: string, alnum: char -> bool, calls: seq<Call>) {
    forall c :: c in calls ==> BalancedCall(text, name, suffix, alnum, c)
  }

  lemma MatchFound(text: string, suffix: string, open: nat, m: nat)
    ensures CloseFrom(text, suffix, open + 1, 1) == Some(m) <==> IsMatchingClose(text, suffix, open, m)
  {
    CloseIsFirstZero(text, suffix, open + 1, 1, m);
  }

  /** Everything found is a balanced call in code, in order. */
  lemma {:induction false} ScanIsSound(text: string, name: string, suffix: string, alnum: char -> bool, i: nat)
    requires PlainName(name) && Reaches(text, suffix, 0, i)
    ensures AllBalanced(text, name, suffix, alnum, Scan(text, name, suffix, alnum, i))
    ensures InOrder(Scan(text, name, suffix, alnum, i), i)
    decreases |text| - i
  {
    hide Skip, CallAt, CloseFrom, IsMatchingClose, IsCallOf;
    if i < |text| {
      var next := Next(text, i, suffix);
      assert Reaches(text, suffix, i, next);
      ReachesCompose(text, suffix, 0, i, next);
      ScanIsSound(text, name, suffix, alnum, next);
      var calls := Scan(text, name, suffix, alnum, i);
      var open := CallAt(text, name, i, alnum);
      if Skip(text, i, suffix).Some? || open.None? || CloseFrom(text, suffix, open.value + 1, 1).None? {
        assert calls == Scan(text, name, suffix, alnum, next);
      } else {
        var close := CloseFrom(text, suffix, open.value + 1, 1).value;
        PathThroughCall(text, name, suffix, alnum, i, open.value, close);
        ReachesCompose(text, suffix, 0, i, close + 1);
        MatchFound(text, suffix, open.value, close);
        CallAtIsACall(text, name, i, alnum, open.value);
        ScanIsSound(text, name, suffix, alnum, close + 1);
        var first, rest := Call(i, open.value, close), Scan(text, name, suffix, alnum, close + 1);
        assert calls == [first] + rest;
        assert BalancedCall(text, name, suffix, alnum, first);
      }
    }
  }

  /** The call starts inside the parentheses, or the name, of another that was found. */
  predicate Within(c: Call, calls: seq<Call>) {
    exists k :: 0 <= k < |calls| && calls[k].start < c.start <= calls[k].close
  }

  /** Every balanced call from `i` on is found, unless it lies within one that is. */
  lemma {:induction false} ScanIsComplete(text: string, name: string, suffix: string, alnum: char -> bool, i: nat, c: Call)
    requires PlainName(name) && Reaches(text, suffix, 0, i)
    requires BalancedCall(text, name, suffix, alnum, c) && c.start >= i
    ensures var calls := Scan(text, name, suffix, alnum, i); c in calls || Within(c, calls)
    decreases |text| - i
  {
    hide Skip, CallAt, CloseFrom, IsMatchingClose, IsCallOf;
    OnePath(text, suffix, 0, i, c.start);
    var calls := Scan(text, name, suffix, alnum, i);
    if c.start == i {
      MatchFound(text, suffix, c.open, c.close);
      CallAtIsACall(text, name, i, alnum, c.open);
      assert calls[0] == c;
    } else {
      var next := Next(text, i, suffix);
      assert Reaches(text, suffix, i, next);
      ReachesCompose(text, suffix, 0, i, next);
      ReachesGoesForward(text, suffix, next, c.start);
      var open := CallAt(text, name, i, alnum);
      if Skip(text, i, suffix).Some? || open.None? || CloseFrom(text, suffix, open.value + 1, 1).None? {
        ScanIsComplete(text, name, suffix, alnum, next, c);
      } else {
        var close := CloseFrom(text, suffix, open.value + 1, 1).value;
        assert calls[0] == Call(i, open.value, close);
        if c.start > close {
          PathThroughCall(text, name, suffix, alnum, i, open.value, close);
          ReachesCompose(text, suffix, 0, i, close + 1);
          ScanIsComplete(text, name, suffix, alnum, close + 1, c);
          var rest := Scan(text, name, suffix, alnum, close + 1);
          assert calls[1..] == rest;
          if c !in rest {
            var k :| 0 <= k < |rest| && rest[k].start < c.start <= rest[k].close;
            assert calls[k + 1] == rest[k];
          }
        }
      }
    }
  }

  /**
   What `_find_calls` yields for a name without quotes, `#` or `/`: balanced calls standing in code,
   in order, their regions disjoint; and every balanced call is yielded or starts within one that is.
   */
  lemma FindsTheOutermostCalls(text: string, name: string, suffix: string, alnum: char -> bool)
    requires PlainName(name)
    ensures var calls := Scan(text, name, suffix, alnum, 0);
      && AllBalanced(text, name, suffix, alnum, calls) && InOrder(calls, 0)
      && (forall c :: BalancedCall(text, name, suffix, alnum, c) ==> c in calls || Within(c, calls))
  {
    hide BalancedCall, Scan, Within;
    assert Reaches(text, suffix, 0, 0);
    ScanIsSound(text, name, suffix, alnum, 0);
    forall c | BalancedCall(text, name, suffix, alnum, c)
      ensures c in Scan(text, name, suffix, alnum, 0) || Within(c, Scan(text, name, suffix, alnum, 0))
    {
      ScanIsComplete(text, name, suffix, alnum, 0, c);
    }
  }

  /** One balanced call starts within another's name or parentheses. */
  ghost predicate HasNestedCall(text: string, name: string, suffix: string, alnum: char -> bool) {
    exists c, d :: BalancedCall(text, name, suffix, alnum, c) && BalancedCall(text, name, suffix, alnum, d)
      && d.start < c.start <= d.close
  }

  lemma Nonempty(text: string, name: string, suffix: string, alnum: char -> bool, k: nat)
    requires k < |Scan(text, name, suffix, alnum, 0)|
    ensures var c := Scan(text, name, suffix, alnum, 0)[k]; c.start < c.close
  {
    ScanInRange(text, name, suffix, alnum, 0);
  }

  /**
   The documentation says every call is yielded. That holds if and only if the text has no balanced
   call within another: nested calls are passed over.
   */
  lemma YieldsEveryCallExactlyWhen(text: string, name: string, suffix: string, alnum: char -> bool)
    requires PlainName(name)
    ensures (forall c :: BalancedCall(text, name, suffix, alnum, c) ==> c in Scan(text, name, suffix, alnum, 0))
      <==> !HasNestedCall(text, name, suffix, alnum)
  {
    hide BalancedCall, Scan;
    FindsTheOutermostCalls(text, name, suffix, alnum);
    var calls := Scan(text, name, suffix, alnum, 0);
    forall c, d | c in calls && d in calls ensures !(d.start < c.start <= d.close) {
      var k :| 0 <= k < |calls| && calls[k] == c;
      var j :| 0 <= j < |calls| && calls[j] == d;
      Nonempty(text, name, suffix, alnum, k);
      Nonempty(text, name, suffix, alnum, j);
    }
    if c :| BalancedCall(text, name, suffix, alnum, c) && c !in calls {
      var k :| 0 <= k < |calls| && calls[k].start < c.start <= calls[k].close;
      assert BalancedCall(text, name, suffix, alnum, calls[k]);
      assert HasNestedCall(text, name, suffix, alnum);
    }
  }

  predicate IsLetter(c: char) { 'a' <= c <= 'z' }

  /** In `f(f())` the inner call is not yielded. */
  lemma NestedCallIsPassedOver()
    ensures var text := "f(f())";
      var inner := Call(2, 3, 4);
      && Scan(text, "f", ".py", IsLetter, 0) == [Call(0, 1, 5)]
      && BalancedCall(text, "f", ".py", IsLetter, inner) && inner !in Scan(text, "f", ".py", IsLetter, 0)
  {
    var text := "f(f())";
    forall k: nat | k < 6 ensures Skip(text, k, ".py") == None {}
    PlainStretch(text, ".py", 0, 2);
    assert text[0..1] == "f" && text[2..3] == "f" && text[1..2] == "(" && text[4..5] == ")";
    assert CallAt(text, "f", 0, IsLetter) == Some(1) && CallAt(text, "f", 2, IsLetter) == Some(3);
    assert CloseFrom(text, ".py", 4, 1) == Some(4);
    assert CloseFrom(text, ".py", 5, 1) == Some(5);
    assert CloseFrom(text, ".py", 4, 2) == Some(5);
    assert CloseFrom(text, ".py", 3, 1) == Some(5);
    assert CloseFrom(text, ".py", 2, 1) == Some(5);
    assert Scan(text, "f", ".py", IsLetter, 6) == [];
    MatchFound(text, ".py", 3, 4);
  }
}
