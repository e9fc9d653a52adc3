/**
 * The player's move line (corably.py:103-119): `strip`, `lower`, `split`,
 * `isdigit` and `int` on ASCII text, the decision that accepts or rejects
 * one line, and the prompt loop that skips rejected lines.
 */
module Input {
  import opened Wrappers
  import opened Grid

  /** The ASCII characters Python's `str.isspace` accepts. */
  predicate IsSpace(ch: char) {
    ch == ' ' || ('\t' <= ch <= '\r') || ('\U{1C}' <= ch <= '\U{1F}')
  }

  predicate IsDigit(ch: char) {
    '0' <= ch <= '9'
  }

  /** `s.isdigit()`: non-empty and made of digits only. */
  predicate IsDigits(s: string) {
    s != [] && forall i :: 0 <= i < |s| ==> IsDigit(s[i])
  }

  /** The number of leading whitespace characters. */
  function LeadingSpace(s: string): (k: nat)
    ensures k <= |s|
  {
    if s == [] || !IsSpace(s[0]) then 0 else LeadingSpace(s[1..]) + 1
  }

  /** `LeadingSpace` counts exactly the whitespace run at the front. */
  lemma {:induction false} LeadingSpaceIsRun(s: string)
    ensures forall i :: 0 <= i < LeadingSpace(s) ==> IsSpace(s[i])
    ensures LeadingSpace(s) < |s| ==> !IsSpace(s[LeadingSpace(s)])
  {
    if s != [] && IsSpace(s[0]) {
      LeadingSpaceIsRun(s[1..]);
      assert forall i :: 1 <= i < |s| ==> s[i] == s[1..][i - 1];
    }
  }

  /** The number of trailing whitespace characters. */
  function TrailingSpace(s: string): (k: nat)
    ensures k <= |s|
  {
    if s == [] || !IsSpace(s[|s| - 1]) then 0 else TrailingSpace(s[..|s| - 1]) + 1
  }

  /** `TrailingSpace` counts exactly the whitespace run at the back. */
  lemma {:induction false} TrailingSpaceIsRun(s: string)
    ensures forall i :: |s| - TrailingSpace(s) <= i < |s| ==> IsSpace(s[i])
    ensures TrailingSpace(s) < |s| ==> !IsSpace(s[|s| - TrailingSpace(s) - 1])
  {
    if s != [] && IsSpace(s[|s| - 1]) {
      TrailingSpaceIsRun(s[..|s| - 1]);
    }
  }

  /** `s.lstrip()`. */
  function TrimLeft(s: string): string {
    s[LeadingSpace(s)..]
  }

  /** `s.strip()`: without its leading and trailing whitespace. */
  function Strip(s: string): string {
    var t := TrimLeft(s);
    t[..|t| - TrailingSpace(t)]
  }

  /** `ch.lower()` on ASCII letters. */
  function LowerChar(ch: char): char {
    if 'A' <= ch <= 'Z' then (ch as int + 32) as char else ch
  }

  /** `s.lower()` on ASCII letters. */
  function Lower(s: string): string {
    if s == [] then [] else [LowerChar(s[0])] + Lower(s[1..])
  }

  /** Lower-casing keeps the length and maps each character on its own. */
  lemma {:induction false} LowerAt(s: string)
    ensures |Lower(s)| == |s|
    ensures forall i :: 0 <= i < |s| ==> Lower(s)[i] == LowerChar(s[i])
  {
    if s != [] {
      LowerAt(s[1..]);
    }
  }

  /** The length of the leading run of non-whitespace characters. */
  function WordLength(s: string): (k: nat)
    ensures k <= |s|
    ensures s != [] && !IsSpace(s[0]) ==> k > 0
  {
    if s == [] || IsSpace(s[0]) then 0 else WordLength(s[1..]) + 1
  }

  /** `WordLength` counts exactly the non-whitespace run at the front. */
  lemma {:induction false} WordLengthIsRun(s: string)
    ensures forall i :: 0 <= i < WordLength(s) ==> !IsSpace(s[i])
    ensures WordLength(s) < |s| ==> IsSpace(s[WordLength(s)])
  {
    if s != [] && !IsSpace(s[0]) {
      WordLengthIsRun(s[1..]);
      assert forall i :: 1 <= i < |s| ==> s[i] == s[1..][i - 1];
    }
  }

  /** A token of `split()`: non-empty, without whitespace. */
  predicate IsWord(w: string) {
    w != [] && forall i :: 0 <= i < |w| ==> !IsSpace(w[i])
  }

  /** `s.split()`: the maximal runs of non-whitespace characters, left to right. */
  function Split(s: string): (ws: seq<string>)
    decreases |s|
  {
    var t := TrimLeft(s);
    if t == [] then []
    else
      LeadingSpaceIsRun(s);
      var k := WordLength(t);
      [t[..k]] + Split(t[k..])
  }

  /** Every token of `split()` is a non-empty run without whitespace. */
  lemma {:induction false} SplitGivesWords(s: string)
    ensures forall i :: 0 <= i < |Split(s)| ==> IsWord(Split(s)[i])
    decreases |s|
  {
    var t := TrimLeft(s);
    if t != [] {
      LeadingSpaceIsRun(s);
      var k := WordLength(t);
      WordLengthIsRun(t);
      SplitGivesWords(t[k..]);
      assert Split(s) == [t[..k]] + Split(t[k..]);
    }
  }

  /** The string is all whitespace. */
  predicate AllSpace(w: string) {
    forall i :: 0 <= i < |w| ==> IsSpace(w[i])
  }

  /** A string that starts with `k` whitespace characters followed by a non-space or its end has `k` leading spaces. */
  lemma {:induction false} LeadingSpaceExact(s: string, k: nat)
    requires k <= |s|
    requires forall i :: 0 <= i < k ==> IsSpace(s[i])
    requires k < |s| ==> !IsSpace(s[k])
    ensures LeadingSpace(s) == k
  {
    if k > 0 {
      assert forall i :: 0 <= i < k - 1 ==> s[1..][i] == s[i + 1];
      LeadingSpaceExact(s[1..], k - 1);
    }
  }

  /** A string of whitespace only has no tokens. */
  lemma SplitSpaces(w: string)
    requires AllSpace(w)
    ensures Split(w) == []
  {
    LeadingSpaceExact(w, |w|);
  }

  /**
   * `split()` on whitespace, a word, and a rest that is empty or starts with
   * whitespace: the word is the first token, and the rest gives the others.
   */
  lemma SplitCons(s: string, w: string, a: string, rest: string)
    requires s == w + a + rest
    requires AllSpace(w) && IsWord(a) && (rest == [] || IsSpace(rest[0]))
    ensures Split(s) == [a] + Split(rest)
  {
    assert forall i :: 0 <= i < |w| ==> s[i] == w[i];
    assert s[|w|] == a[0];
    LeadingSpaceExact(s, |w|);
    var t := TrimLeft(s);
    assert t == a + rest;
    assert forall i :: 0 <= i < |a| ==> t[i] == a[i];
    assert |a| < |t| ==> t[|a|] == rest[0];
    WordLengthExact(t, |a|);
    assert t[..|a|] == a && t[|a|..] == rest;
  }

  /** Conversely, a string without tokens is all whitespace. */
  lemma SplitEmpty(s: string)
    ensures Split(s) == [] <==> AllSpace(s)
  {
    LeadingSpaceIsRun(s);
    if TrimLeft(s) != [] {
      assert !IsSpace(s[LeadingSpace(s)]);
    } else if !AllSpace(s) {
      SplitSpaces(s);
    }
  }

  /** `s[i..j]` is a word with only whitespace before it and whitespace or the end after it. */
  predicate WordAt(s: string, i: int, j: int) {
    0 <= i < j <= |s| && AllSpace(s[..i]) && IsWord(s[i..j]) && (j == |s| || IsSpace(s[j]))
  }

  /**
   * Conversely, a string with tokens is whitespace, its first token, and a
   * rest that is empty or starts with whitespace and gives the other tokens.
   */
  lemma SplitFirst(s: string)
    requires Split(s) != []
    ensures exists i, j :: WordAt(s, i, j) && Split(s) == [s[i..j]] + Split(s[j..])
  {
    LeadingSpaceIsRun(s);
    var i := LeadingSpace(s);
    var t := TrimLeft(s);
    var k := WordLength(t);
    WordLengthIsRun(t);
    var j := i + k;
    var a, rest := t[..k], t[k..];
    assert Split(s) == [a] + Split(rest);
    assert s[i..j] == a && s[j..] == rest;
    assert j < |s| ==> s[j] == t[k];
    assert AllSpace(s[..i]) by { assert forall m :: 0 <= m < i ==> s[..i][m] == s[m]; }
    assert WordAt(s, i, j);
  }

  function DigitValue(ch: char): nat {
    if IsDigit(ch) then ch as int - '0' as int else 0
  }

  /** `int(s)` for a digit string. */
  function Value(s: string): nat {
    if s == [] then 0 else 10 * Value(s[..|s| - 1]) + DigitValue(s[|s| - 1])
  }

  function DigitChar(d: nat): char
    requires d < 10
  {
    ('0' as int + d) as char
  }

  /** `str(n)`: the decimal digits of `n`, without leading zeros. */
  function Decimal(n: nat): (s: string)
    ensures IsDigits(s)
  {
    if n < 10 then [DigitChar(n)] else Decimal(n / 10) + [DigitChar(n % 10)]
  }

  /** Reading back a rendered number gives the number: `int(str(n)) == n`. */
  lemma {:induction false} ValueOfDecimal(n: nat)
    ensures Value(Decimal(n)) == n
  {
    if n >= 10 {
      ValueOfDecimal(n / 10);
      var s := Decimal(n);
      assert s[..|s| - 1] == Decimal(n / 10);
    }
  }

  /**
   * CPython's default `sys.int_info.default_max_str_digits`: `int()` of a
   * decimal string with more digits raises `ValueError`.
   */
  const MaxStrDigits := 4300

  /**
   * What one typed line means to `read_move`: "exit", a shot, a line that is
   * skipped, or a line on which `int()` raises `ValueError`, which nothing
   * catches.
   */
  datatype Parsed = Exit | Move(cell: Cell) | Rejected | Overflow

  /** Two digit tokens, one of them too long for `int()`. */
  predicate TooManyDigits(ws: seq<string>) {
    |ws| == 2 && IsDigits(ws[0]) && IsDigits(ws[1]) && (|ws[0]| > MaxStrDigits || |ws[1]| > MaxStrDigits)
  }

  /** The line is accepted as a shot at `x`: two digit tokens `int()` reads, naming an on-board cell that has not been shot. */
  predicate AcceptsShot(ws: seq<string>, used: set<Cell>, x: Cell) {
    |ws| == 2 && IsDigits(ws[0]) && IsDigits(ws[1]) && |ws[0]| <= MaxStrDigits && |ws[1]| <= MaxStrDigits &&
    x == Cell(Value(ws[0]) - 1, Value(ws[1]) - 1) && OnBoard(x) && x !in used
  }

  /**
   * The checks of corably.py:108-119 on the tokens of a line that is not
   * "exit": `Overflow` exactly when `int()` raises, `Move(x)` exactly when
   * the tokens accept a shot at `x`.
   */
  function ParseTokens(ws: seq<string>, used: set<Cell>): (p: Parsed)
    ensures !p.Exit?
    ensures p.Overflow? <==> TooManyDigits(ws)
    ensures p.Move? ==> AcceptsShot(ws, used, p.cell)
    ensures p.Rejected? ==> forall x :: !AcceptsShot(ws, used, x)
  {
    if |ws| != 2 then Rejected
    else if !IsDigits(ws[0]) || !IsDigits(ws[1]) then Rejected
    else if |ws[0]| > MaxStrDigits || |ws[1]| > MaxStrDigits then Overflow
    else
      var x := Cell(Value(ws[0]) - 1, Value(ws[1]) - 1);
      if !Inside(x.row, x.col) then Rejected
      else if x in used then Rejected
      else Move(x)
  }

  /** The tokens `read_move` checks: the line stripped, lower-cased and split. */
  function Tokens(line: string): seq<string> {
    Split(Lower(Strip(line)))
  }

  /**
   * One pass of the `read_move` loop (corably.py:105-119). A shot it accepts
   * is on the board and not yet shot at.
   */
  function ParseMove(line: string, used: set<Cell>): (p: Parsed)
    ensures p.Move? ==> OnBoard(p.cell) && p.cell !in used
  {
    if IsExit(line) then Exit else ParseTokens(Tokens(line), used)
  }

  /** The line asks to quit: stripped and lower-cased, it reads "exit" (corably.py:106-107). */
  predicate IsExit(line: string) {
    Lower(Strip(line)) == "exit"
  }

  /** The line ends `read_move` whatever was shot before: "exit", or a number `int()` refuses. */
  predicate Ends(line: string) {
    IsExit(line) || TooManyDigits(Tokens(line))
  }

  /**
   * The meaning of `read_move`'s decision: `Exit` iff the stripped,
   * lower-cased line is "exit"; otherwise `Overflow` exactly when it has two
   * digit tokens one of which is longer than `int()` accepts; `Move(x)`
   * exactly when it has two digit tokens naming the on-board, unshot cell
   * `x`, 1-based; every other line is rejected and the player is prompted
   * again (corably.py:105-119).
   */
  lemma ParseMoveMeaning(line: string, used: set<Cell>)
    ensures ParseMove(line, used) == Exit <==> IsExit(line)
    ensures ParseMove(line, used) == Overflow <==> !IsExit(line) && TooManyDigits(Tokens(line))
    ensures ParseMove(line, used).Move? ==> AcceptsShot(Tokens(line), used, ParseMove(line, used).cell)
    ensures ParseMove(line, used).Rejected? ==> forall x :: !AcceptsShot(Tokens(line), used, x)
    ensures ParseMove(line, used) in {Exit, Overflow} <==> Ends(line)
  {
    if !IsExit(line) {
      var p := ParseTokens(Tokens(line), used);
      assert ParseMove(line, used) == p;
    }
  }

  /** Lower-casing leaves digits and whitespace alone. */
  lemma LowerKeepsDigitsAndSpace(s: string)
    requires forall i :: 0 <= i < |s| ==> IsDigit(s[i]) || s[i] == ' '
    ensures Lower(s) == s
  {
    LowerAt(s);
  }

  /** A string that starts with `k` non-whitespace characters followed by whitespace or its end has a word of length `k` in front. */
  lemma {:induction false} WordLengthExact(s: string, k: nat)
    requires k <= |s|
    requires forall i :: 0 <= i < k ==> !IsSpace(s[i])
    requires k < |s| ==> IsSpace(s[k])
    ensures WordLength(s) == k
  {
    if k > 0 {
      assert forall i :: 0 <= i < k - 1 ==> s[1..][i] == s[i + 1];
      WordLengthExact(s[1..], k - 1);
    }
  }

  /** Splitting `a + " " + b` for two words gives the two words. */
  lemma SplitTwoWords(a: string, b: string)
    requires IsWord(a) && IsWord(b)
    ensures Split(a + " " + b) == [a, b]
  {
    var rest := " " + b;
    assert Split(rest) == [b] by {
      assert rest == " " + b + [] && AllSpace(" ");
      SplitCons(rest, " ", b, []);
      SplitSpaces([]);
    }
    assert Split(a + " " + b) == [a] + Split(rest) by {
      assert a + " " + b == [] + a + rest && IsSpace(rest[0]);
      SplitCons(a + " " + b, [], a, rest);
    }
  }

  /** The text a player types for the cell `x`: 1-based row and column separated by a space. */
  function Rendered(x: Cell): string
    requires OnBoard(x)
  {
    Decimal(x.row + 1) + " " + Decimal(x.col + 1)
  }

  /**
   * Typing a cell's 1-based coordinates is read back as a shot at that cell
   * unless it was already shot at, in which case the line is rejected.
   */
  lemma ParseRendered(x: Cell, used: set<Cell>)
    requires OnBoard(x)
    ensures ParseMove(Rendered(x), used) == if x in used then Rejected else Move(x)
  {
    var a, b := Decimal(x.row + 1), Decimal(x.col + 1);
    var line := Rendered(x);
    assert |a| == 1 && |b| == 1 && |line| == 3;
    assert Tokens(line) == [a, b] by {
      assert IsWord(a) && IsWord(b);
      assert line[0] == a[0] && line[2] == b[0];
      assert LeadingSpace(line) == 0 && TrailingSpace(line) == 0;
      assert Strip(line) == line;
      LowerKeepsDigitsAndSpace(line);
      SplitTwoWords(a, b);
    }
    assert !IsExit(line);
    ValueOfDecimal(x.row + 1);
    ValueOfDecimal(x.col + 1);
    assert ParseMove(line, used) == ParseTokens([a, b], used);
  }

  /**
   * The prompt loop of `read_move` from line `pos` on: the first line that is
   * not rejected, with the position after it; `None` when the lines run out.
   */
  function NextAnswer(lines: seq<string>, pos: nat, used: set<Cell>): (r: (Option<Parsed>, nat))
    requires pos <= |lines|
    ensures pos <= r.1 <= |lines|
    ensures r.0.None? ==> r.1 == |lines|
    ensures r.0.Some? ==> pos < r.1 && !r.0.value.Rejected?
    ensures r.0.Some? && r.0.value.Move? ==> OnBoard(r.0.value.cell) && r.0.value.cell !in used
    decreases |lines| - pos
  {
    if pos == |lines| then (None, pos)
    else
      var p := ParseMove(lines[pos], used);
      if p.Rejected? then NextAnswer(lines, pos + 1, used) else (Some(p), pos + 1)
  }

  /** The answer of the prompt loop is the parse of the line it stopped after. */
  lemma {:induction false} NextAnswerIsLine(lines: seq<string>, pos: nat, used: set<Cell>)
    requires pos <= |lines|
    ensures NextAnswer(lines, pos, used).0.Some? ==>
      NextAnswer(lines, pos, used).0.value == ParseMove(lines[NextAnswer(lines, pos, used).1 - 1], used)
    decreases |lines| - pos
  {
    if pos < |lines| && ParseMove(lines[pos], used).Rejected? {
      NextAnswerIsLine(lines, pos + 1, used);
    }
  }

  /** Every line the prompt loop passes over before its answer was rejected. */
  lemma {:induction false} NextAnswerSkipsRejected(lines: seq<string>, pos: nat, used: set<Cell>, i: nat)
    requires pos <= |lines| && pos <= i < NextAnswer(lines, pos, used).1
    requires NextAnswer(lines, pos, used).0.Some? ==> i < NextAnswer(lines, pos, used).1 - 1
    ensures ParseMove(lines[i], used).Rejected?
    decreases i - pos
  {
    var p := ParseMove(lines[pos], used);
    if p.Rejected? && pos < i {
      assert NextAnswer(lines, pos, used) == NextAnswer(lines, pos + 1, used);
      NextAnswerSkipsRejected(lines, pos + 1, used, i);
    }
  }

  /** The lines the prompt loop passes over neither read "exit" nor hold a number `int()` refuses. */
  lemma NextAnswerSkipsEnds(lines: seq<string>, pos: nat, used: set<Cell>, i: nat)
    requires pos <= |lines| && pos <= i < NextAnswer(lines, pos, used).1
    requires NextAnswer(lines, pos, used).0.Some? ==> i < NextAnswer(lines, pos, used).1 - 1
    ensures !Ends(lines[i])
  {
    NextAnswerSkipsRejected(lines, pos, used, i);
    ParseMoveMeaning(lines[i], used);
  }

  /** No line from `from` up to `to` reads "exit" or a number `int()` refuses. */
  predicate NoEnds(lines: seq<string>, from: int, to: int)
    requires 0 <= from && to <= |lines|
  {
    forall j :: from <= j < to ==> !Ends(lines[j])
  }

  /** No line the prompt loop passes over ends the game. */
  lemma NextAnswerNoEnds(lines: seq<string>, pos: nat, used: set<Cell>)
    requires pos <= |lines|
    ensures NoEnds(lines, pos, if NextAnswer(lines, pos, used).0.Some? then NextAnswer(lines, pos, used).1 - 1 else |lines|)
  {
    var a := NextAnswer(lines, pos, used);
    var k := if a.0.Some? then a.1 - 1 else a.1;
    forall j | pos <= j < k
      ensures !Ends(lines[j])
    {
      NextAnswerSkipsEnds(lines, pos, used, j);
    }
  }

  /**
   * The line the prompt loop answers on ends the game exactly when the
   * answer is "exit" or an `int()` failure, and reads "exit" exactly when the
   * answer is `Exit`.
   */
  lemma NextAnswerEndsAt(lines: seq<string>, pos: nat, used: set<Cell>)
    requires pos <= |lines| && NextAnswer(lines, pos, used).0.Some?
    ensures NextAnswer(lines, pos, used).0.value in {Exit, Overflow} <==> Ends(lines[NextAnswer(lines, pos, used).1 - 1])
    ensures NextAnswer(lines, pos, used).0.value == Exit <==> IsExit(lines[NextAnswer(lines, pos, used).1 - 1])
  {
    NextAnswerIsLine(lines, pos, used);
    ParseMoveMeaning(lines[NextAnswer(lines, pos, used).1 - 1], used);
  }

  /**
   * The `while True` loop of `read_move` over the lines the player types
   * (corably.py:104-119): equal to `NextAnswer`. An answer is the first
   * line that is not rejected: "exit", or a shot at an on-board cell not yet
   * shot at.
   */
  method ReadMove(lines: seq<string>, pos: nat, used: set<Cell>) returns (answer: Option<Parsed>, next: nat)
    requires pos <= |lines|
    ensures (answer, next) == NextAnswer(lines, pos, used)
    ensures answer.Some? ==> pos < next
    ensures answer == Some(Exit) ==> IsExit(lines[next - 1])
    ensures answer == Some(Overflow) ==> TooManyDigits(Tokens(lines[next - 1]))
    ensures answer.Some? && answer.value.Move? ==> OnBoard(answer.value.cell) && answer.value.cell !in used
  {
    next := pos;
    while next < |lines|
      invariant pos <= next <= |lines|
      invariant NextAnswer(lines, next, used) == NextAnswer(lines, pos, used)
      decreases |lines| - next
    {
      var p := ParseMove(lines[next], used);
      next := next + 1;
      if !p.Rejected? {
        assert p == Exit <==> IsExit(lines[next - 1]);
        assert p == Overflow ==> TooManyDigits(Tokens(lines[next - 1]));
        return Some(p), next;
      }
    }
    answer := None;
  }
}
