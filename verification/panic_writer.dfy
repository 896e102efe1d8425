/** The generator's indenting line writer. Each line is preceded by one tab
    string per indentation level; deindenting below level zero is a panic.
    Write errors of the underlying stream (also panics) are not modelled:
    the output is a string. */
module PanicWriter {
  import opened Wrappers
  import opened Text

  datatype Writer = Writer(level: nat, tab: string, out: string)

  /** The panic raised by `deindent` at level zero. */
  datatype Panic = NegativeIndent

  function Indent(w: Writer): (r: Writer)
    ensures r.level == w.level + 1 && r.tab == w.tab && r.out == w.out
  {
    w.(level := w.level + 1)
  }

  /** Fails exactly when the writer is at level zero. */
  function Deindent(w: Writer): (r: Result<Writer, Panic>)
    ensures r.Failure? <==> w.level == 0
    ensures r.Success? ==> r.value.level + 1 == w.level && r.value.tab == w.tab && r.value.out == w.out
  {
    if w.level == 0 then Failure(NegativeIndent) else Success(w.(level := w.level - 1))
  }

  /** The text of one written line: `level` copies of the tab, the text,
      a newline. */
  function LineText(tab: string, level: nat, text: string): string {
    Repeat(tab, level) + text + "\n"
  }

  /** Reads one line at `level` with content `text` off the front of `s`,
      one tab at a time, and gives back what follows it. */
  ghost function ReadLine(s: string, tab: string, level: nat, text: string): Option<string>
    decreases level
  {
    if level == 0 then
      if |text| + 1 <= |s| && s[..|text| + 1] == text + "\n" then Some(s[|text| + 1..]) else None
    else if |tab| <= |s| && s[..|tab|] == tab then ReadLine(s[|tab|..], tab, level - 1, text)
    else None
  }

  /** An expected output line: its indentation level and its content. */
  datatype Expected = Expected(level: nat, text: string)

  /** `s` consists of exactly the expected lines, in order. */
  ghost predicate Lines(s: string, tab: string, ls: seq<Expected>)
    decreases |ls|
  {
    if |ls| == 0 then s == ""
    else
      match ReadLine(s, tab, ls[0].level, ls[0].text)
      case None => false
      case Some(rest) => Lines(rest, tab, ls[1..])
  }

  lemma {:induction false} ReadsWrittenLine(tab: string, level: nat, text: string, rest: string)
    ensures ReadLine(LineText(tab, level, text) + rest, tab, level, text) == Some(rest)
    decreases level
  {
    var s := LineText(tab, level, text) + rest;
    if level == 0 {
      assert s == (text + "\n") + rest;
      assert s[..|text| + 1] == text + "\n";
      assert s[|text| + 1..] == rest;
    } else {
      assert s == tab + (LineText(tab, level - 1, text) + rest);
      assert s[..|tab|] == tab;
      assert s[|tab|..] == LineText(tab, level - 1, text) + rest;
      ReadsWrittenLine(tab, level - 1, text, rest);
    }
  }

  /** `fprintLn`: appends, after what was written before, one line holding
      `level` copies of the tab, the formatted text and a newline; the
      level is unchanged. */
  function FprintLn(w: Writer, text: string): (r: Writer)
    ensures r.level == w.level && r.tab == w.tab
    ensures |w.out| <= |r.out| && r.out[..|w.out|] == w.out
  {
    w.(out := w.out + LineText(w.tab, w.level, text))
  }

  /** What `fprintLn` appends reads back as exactly one line, at the
      writer's level, holding the text. */
  lemma FprintLnWritesOneLine(w: Writer, text: string)
    ensures Lines(FprintLn(w, text).out[|w.out|..], w.tab, [Expected(w.level, text)])
  {
    var line := LineText(w.tab, w.level, text);
    ReadsWrittenLine(w.tab, w.level, text, "");
    assert line + "" == line;
    assert (w.out + line)[|w.out|..] == line;
  }

  lemma ConsLine(tab: string, e: Expected, rest: string, ls: seq<Expected>)
    requires Lines(rest, tab, ls)
    ensures Lines(LineText(tab, e.level, e.text) + rest, tab, [e] + ls)
  {
    ReadsWrittenLine(tab, e.level, e.text, rest);
    assert ([e] + ls)[1..] == ls;
  }

  lemma ThreeLines(tab: string, a: Expected, b: Expected, c: Expected)
    ensures Lines(LineText(tab, a.level, a.text) + LineText(tab, b.level, b.text) + LineText(tab, c.level, c.text),
                  tab, [a, b, c])
  {
    var la, lb, lc := LineText(tab, a.level, a.text), LineText(tab, b.level, b.text), LineText(tab, c.level, c.text);
    assert Lines("", tab, []);
    ConsLine(tab, c, "", []);
    assert lc + "" == lc;
    ConsLine(tab, b, lc, [c]);
    ConsLine(tab, a, lb + lc, [b] + [c]);
    assert la + lb + lc == la + (lb + lc);
    assert [a] + ([b] + [c]) == [a, b, c];
  }

  /** `returnIf`: an `if` line, a `return` line one level deeper and a
      closing brace; the level afterwards is the level before. */
  function ReturnIf(w: Writer, ifClause: string, returnClause: string): (r: Writer)
    ensures r.level == w.level && r.tab == w.tab
  {
    var w1 := FprintLn(w, "if " + ifClause + " {");
    var w2 := Indent(w1);
    var w3 := FprintLn(w2, "return " + returnClause);
    FprintLn(Deindent(w3).value, "}")
  }

  /** The text `returnIf` appends: the `if` line, the `return` line one
      level deeper, the closing brace. */
  function ReturnIfText(w: Writer, ifClause: string, returnClause: string): string {
    LineText(w.tab, w.level, "if " + ifClause + " {")
      + LineText(w.tab, w.level + 1, "return " + returnClause)
      + LineText(w.tab, w.level, "}")
  }

  lemma ReturnIfAppends(w: Writer, ifClause: string, returnClause: string)
    ensures ReturnIf(w, ifClause, returnClause).out == w.out + ReturnIfText(w, ifClause, returnClause)
  {
    var la := LineText(w.tab, w.level, "if " + ifClause + " {");
    var lb := LineText(w.tab, w.level + 1, "return " + returnClause);
    var lc := LineText(w.tab, w.level, "}");
    assert w.out + la + lb + lc == w.out + (la + lb + lc);
  }

  /** What `returnIf` appends reads back as exactly its three lines, the
      `return` line one level deeper than the other two. */
  lemma ReturnIfWritesThreeLines(w: Writer, ifClause: string, returnClause: string)
    ensures |w.out| <= |ReturnIf(w, ifClause, returnClause).out|
    ensures ReturnIf(w, ifClause, returnClause).out[..|w.out|] == w.out
    ensures Lines(ReturnIf(w, ifClause, returnClause).out[|w.out|..], w.tab,
                  [Expected(w.level, "if " + ifClause + " {"),
                   Expected(w.level + 1, "return " + returnClause),
                   Expected(w.level, "}")])
  {
    var text := ReturnIfText(w, ifClause, returnClause);
    ReturnIfAppends(w, ifClause, returnClause);
    assert (w.out + text)[|w.out|..] == text;
    ThreeLines(w.tab, Expected(w.level, "if " + ifClause + " {"),
               Expected(w.level + 1, "return " + returnClause), Expected(w.level, "}"));
  }

  /** One emitter action. */
  datatype Op = IndentOp | DeindentOp | LineOp(text: string)

  function Step(w: Writer, op: Op): Result<Writer, Panic> {
    match op
    case IndentOp => Success(Indent(w))
    case DeindentOp => Deindent(w)
    case LineOp(text) => Success(FprintLn(w, text))
  }

  /** Runs the actions in order; the first panic ends the run. */
  function Run(w: Writer, ops: seq<Op>): Result<Writer, Panic>
    decreases |ops|
  {
    if |ops| == 0 then Success(w)
    else
      match Step(w, ops[0])
      case Failure(p) => Failure(p)
      case Success(w') => Run(w', ops[1..])
  }

  function Delta(op: Op): int {
    match op
    case IndentOp => 1
    case DeindentOp => -1
    case LineOp(_) => 0
  }

  /** Net indentation change of a run: indents minus deindents. */
  function Depth(ops: seq<Op>): int {
    if |ops| == 0 then 0 else Delta(ops[0]) + Depth(ops[1..])
  }

  /** A run panics exactly when some prefix would take the level below zero;
      otherwise it ends at the start level plus the net change, so a
      balanced emitter leaves the level where it found it. */
  lemma {:induction false} RunNeverNegative(w: Writer, ops: seq<Op>)
    ensures Run(w, ops).Success? <==> forall k :: 0 <= k <= |ops| ==> w.level + Depth(ops[..k]) >= 0
    ensures Run(w, ops).Success? ==>
              Run(w, ops).value.level == w.level + Depth(ops) && Run(w, ops).value.tab == w.tab
    decreases |ops|
  {
    if |ops| > 0 {
      var ok := w.level + Delta(ops[0]) >= 0;
      assert ops[..1] == [ops[0]];
      assert Depth(ops[..1]) == Delta(ops[0]) by {
        assert ops[..1][1..] == [];
      }
      forall k | 1 <= k <= |ops|
        ensures Depth(ops[..k]) == Delta(ops[0]) + Depth(ops[1..][..k - 1])
      {
        assert ops[..k][0] == ops[0];
        assert ops[..k][1..] == ops[1..][..k - 1];
      }
      match Step(w, ops[0])
      case Failure(_) =>
        assert !ok;
      case Success(w') =>
        assert w'.level == w.level + Delta(ops[0]);
        RunNeverNegative(w', ops[1..]);
        if Run(w, ops).Success? {
          forall k | 0 <= k <= |ops| ensures w.level + Depth(ops[..k]) >= 0 {
            if k > 0 {
              assert w'.level + Depth(ops[1..][..k - 1]) >= 0;
            }
          }
        } else {
          var j :| 0 <= j <= |ops[1..]| && w'.level + Depth(ops[1..][..j]) < 0;
          assert w.level + Depth(ops[..j + 1]) < 0;
        }
    }
  }

  lemma BalancedEmitterKeepsLevel(w: Writer, ops: seq<Op>)
    requires forall k :: 0 <= k <= |ops| ==> w.level + Depth(ops[..k]) >= 0
    requires Depth(ops) == 0
    ensures Run(w, ops).Success? && Run(w, ops).value.level == w.level
  {
    RunNeverNegative(w, ops);
  }

  /** Runs the actions in order and keeps what was written before a panic:
      the writer as it stood when the failing action was reached, and the
      panic. */
  function {:induction false} RunUntilPanic(w: Writer, ops: seq<Op>): (r: (Writer, Option<Panic>))
    ensures r.1.None? <==> Run(w, ops).Success?
    ensures r.1.None? ==> r.0 == Run(w, ops).value
    ensures r.0.tab == w.tab && |w.out| <= |r.0.out| && r.0.out[..|w.out|] == w.out
    decreases |ops|
  {
    if |ops| == 0 then (w, None)
    else
      match Step(w, ops[0])
      case Failure(p) => (w, Some(p))
      case Success(w') =>
        var r := RunUntilPanic(w', ops[1..]);
        assert r.0.out[..|w.out|] == r.0.out[..|w'.out|][..|w.out|];
        r
  }

  /** The lines a run of plain line actions is expected to write, all at
      one level. */
  function AtLevel(level: nat, ops: seq<Op>): (r: seq<Expected>)
    requires forall i :: 0 <= i < |ops| ==> ops[i].LineOp?
    ensures |r| == |ops|
  {
    seq(|ops|, i requires 0 <= i < |ops| => Expected(level, ops[i].text))
  }

  /** A run of plain line actions never panics, keeps the level, and appends
      exactly its lines, in order, at the current level. */
  lemma {:induction false} LineOpsWriteLines(w: Writer, ops: seq<Op>)
    requires forall i :: 0 <= i < |ops| ==> ops[i].LineOp?
    ensures Run(w, ops).Success?
    ensures Run(w, ops).value.level == w.level && Run(w, ops).value.tab == w.tab
    ensures |w.out| <= |Run(w, ops).value.out| && Run(w, ops).value.out[..|w.out|] == w.out
    ensures Lines(Run(w, ops).value.out[|w.out|..], w.tab, AtLevel(w.level, ops))
    decreases |ops|
  {
    if |ops| == 0 {
      assert Run(w, ops).value.out[|w.out|..] == "";
    } else {
      var w1 := FprintLn(w, ops[0].text);
      var rest := ops[1..];
      LineOpsWriteLines(w1, rest);
      var r := Run(w1, rest).value;
      assert Run(w, ops) == Run(w1, rest);
      var line := LineText(w.tab, w.level, ops[0].text);
      assert w1.out == w.out + line;
      assert r.out[..|w1.out|] == w1.out;
      assert r.out[|w.out|..] == line + r.out[|w1.out|..];
      ConsLine(w.tab, Expected(w.level, ops[0].text), r.out[|w1.out|..], AtLevel(w.level, rest));
      assert [Expected(w.level, ops[0].text)] + AtLevel(w.level, rest) == AtLevel(w.level, ops);
    }
  }

  /** Running two action lists one after the other is running their
      concatenation. */
  lemma {:induction false} RunAppend(w: Writer, a: seq<Op>, b: seq<Op>)
    ensures Run(w, a + b) == match Run(w, a) case Failure(p) => Failure(p) case Success(w') => Run(w', b)
    decreases |a|
  {
    if |a| == 0 {
      assert a + b == b;
    } else {
      assert (a + b)[0] == a[0];
      assert (a + b)[1..] == a[1..] + b;
      match Step(w, a[0])
      case Failure(_) =>
      case Success(w') =>
        RunAppend(w', a[1..], b);
    }
  }

  /** An emitter body that never takes the level below where it started and
      ends where it started. */
  predicate Balanced(ops: seq<Op>) {
    Depth(ops) == 0 && forall k :: 0 <= k <= |ops| ==> Depth(ops[..k]) >= 0
  }
}
