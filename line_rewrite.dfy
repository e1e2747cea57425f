/**
 * The shape shared by the line-rewriting maintenance scripts: a pass over
 * the file's lines in order, carrying some state (flags, the previous
 * line), that emits exactly one output line per input line. A script is
 * its step function from (state, line) to (new state, output line).
 */
module LineRewrite {

  /** Four spaces, the indentation the scripts add. */
  const Indent: string := "    "

  /** The output lines and the final state after running `step` over `lines` from `init`. */
  function Run<S>(step: (S, string) -> (S, string), init: S, lines: seq<string>): (r: (seq<string>, S))
    ensures |r.0| == |lines|
    decreases |lines|
  {
    if lines == [] then ([], init)
    else
      var before := Run(step, init, lines[..|lines| - 1]);
      var now := step(before.1, lines[|lines| - 1]);
      (before.0 + [now.1], now.0)
  }

  /** The state in which line `k` is processed. */
  function StateAt<S>(step: (S, string) -> (S, string), init: S, lines: seq<string>, k: nat): S
    requires k <= |lines|
  {
    Run(step, init, lines[..k]).1
  }

  /** Line `k`'s output is the step's output on it in the state reached before it, and that step gives the next state. */
  lemma {:induction false} RunLine<S>(step: (S, string) -> (S, string), init: S, lines: seq<string>, k: nat)
    requires k < |lines|
    ensures Run(step, init, lines).0[k] == step(StateAt(step, init, lines, k), lines[k]).1
    ensures StateAt(step, init, lines, k + 1) == step(StateAt(step, init, lines, k), lines[k]).0
    decreases |lines|
  {
    var n := |lines| - 1;
    assert lines[..k + 1][..k] == lines[..k];
    if k < n {
      var prev := lines[..n];
      RunLine(step, init, prev, k);
      assert prev[..k] == lines[..k] && prev[..k + 1] == lines[..k + 1];
      assert prev[k] == lines[k];
    } else {
      assert lines[..k + 1] == lines;
    }
  }

  /** A step whose output is always its input line, or that line indented by four spaces. */
  ghost predicate IndentsOnly<S(!new)>(step: (S, string) -> (S, string)) {
    forall s, line :: step(s, line).1 == line || step(s, line).1 == Indent + line
  }

  /** Such a step keeps the line count and order, and changes a line only by indenting it. */
  lemma KeepsOrIndents<S(!new)>(step: (S, string) -> (S, string), init: S, lines: seq<string>)
    requires IndentsOnly(step)
    ensures |Run(step, init, lines).0| == |lines|
    ensures forall k :: 0 <= k < |lines| ==>
              Run(step, init, lines).0[k] == lines[k] || Run(step, init, lines).0[k] == Indent + lines[k]
  {
    forall k | 0 <= k < |lines|
      ensures Run(step, init, lines).0[k] == lines[k] || Run(step, init, lines).0[k] == Indent + lines[k]
    {
      RunLine(step, init, lines, k);
    }
  }

  /** An indented line is never its own input. */
  lemma IndentChanges(line: string)
    ensures Indent + line != line
  {
    assert |Indent + line| == |line| + 4;
  }
}
