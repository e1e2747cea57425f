/**
 * fix_indent.py: indent by four spaces every non-blank line of the block
 * opened by a "    else:" line and closed by a line starting "with col3:".
 */
module FixIndent {
  import opened PyStr
  import opened LineRewrite

  /** The `else:` line that opens the block. */
  predicate OpensElse(line: string) {
    && Contains(line, "else:")
    && !Contains(line, "if delivery_method_check")
    && !Contains(line, "SCREEN MODE")
    && StartsWith(line, "    else:")
  }

  /** The line that closes the block. */
  predicate ClosesElse(line: string) {
    StartsWith(line, "with col3:")
  }

  /** One turn of the loop: the new `in_else_block` and the line appended. */
  function IndentStep(inElse: bool, line: string): (bool, string) {
    if OpensElse(line) then (true, line)
    else
      var open := inElse && !ClosesElse(line);
      (open, if open && Strip(line) != [] then Indent + line else line)
  }

  /** The rewritten file. */
  function FixedLines(lines: seq<string>): seq<string> {
    Run(IndentStep, false, lines).0
  }

  /** Whether the block is open when line `k` is reached. */
  function InElseAt(lines: seq<string>, k: nat): bool
    requires k <= |lines|
  {
    StateAt(IndentStep, false, lines, k)
  }

  /** `fix_indentation` on the file's lines. */
  method FixIndentation(lines: seq<string>) returns (newLines: seq<string>)
    ensures newLines == FixedLines(lines)
  {
    newLines := [];
    var inElseBlock := false;
    for i := 0 to |lines|
      invariant (newLines, inElseBlock) == Run(IndentStep, false, lines[..i])
    {
      var line := lines[i];
      assert lines[..i + 1][..i] == lines[..i];
      ghost var step := IndentStep(inElseBlock, line);
      assert Run(IndentStep, false, lines[..i + 1]) == (newLines + [step.1], step.0);
      if Contains(line, "else:") && !Contains(line, "if delivery_method_check") && !Contains(line, "SCREEN MODE") {
        if StartsWith(line, "    else:") {
          assert step == (true, line);
          inElseBlock := true;
          newLines := newLines + [line];
          continue;
        }
      }
      assert !OpensElse(line);
      if StartsWith(line, "with col3:") {
        inElseBlock := false;
      }
      assert inElseBlock == step.0;
      if inElseBlock {
        if Strip(line) != [] {
          newLines := newLines + [Indent + line];
        } else {
          newLines := newLines + [line];
        }
      } else {
        newLines := newLines + [line];
      }
    }
    assert lines[..|lines|] == lines;
  }

  /** The line count and order are kept, and each line is kept or indented by four spaces. */
  lemma FixedShape(lines: seq<string>)
    ensures |FixedLines(lines)| == |lines|
    ensures forall k :: 0 <= k < |lines| ==> FixedLines(lines)[k] == lines[k] || FixedLines(lines)[k] == Indent + lines[k]
  {
    assert IndentsOnly(IndentStep);
    KeepsOrIndents(IndentStep, false, lines);
  }

  /**
   * Line `k` is indented exactly when the block is open, the line neither
   * opens nor closes it, and it is not blank; every other line is kept.
   */
  lemma IndentedExactly(lines: seq<string>, k: nat)
    requires k < |lines|
    ensures FixedLines(lines)[k] == (if InElseAt(lines, k) && !OpensElse(lines[k]) && !ClosesElse(lines[k]) && Strip(lines[k]) != []
                                     then Indent + lines[k] else lines[k])
    ensures InElseAt(lines, k + 1) == (OpensElse(lines[k]) || (InElseAt(lines, k) && !ClosesElse(lines[k])))
  {
    RunLine(IndentStep, false, lines, k);
  }

  /** An opening `else:` line and a `with col3:` line are never indented; the first opens the block, the second closes it. */
  lemma MarkersKept(lines: seq<string>, k: nat)
    requires k < |lines|
    ensures OpensElse(lines[k]) ==> FixedLines(lines)[k] == lines[k] && InElseAt(lines, k + 1)
    ensures ClosesElse(lines[k]) ==> FixedLines(lines)[k] == lines[k] && !InElseAt(lines, k + 1)
  {
    IndentedExactly(lines, k);
    if ClosesElse(lines[k]) {
      assert lines[k][0] == 'w';
    }
  }

  /** Blank lines and lines outside an open block are unchanged. */
  lemma OutsideKept(lines: seq<string>, k: nat)
    requires k < |lines|
    requires Strip(lines[k]) == [] || !InElseAt(lines, k)
    ensures FixedLines(lines)[k] == lines[k]
  {
    IndentedExactly(lines, k);
  }

  /**
   * The block is open at line `k` exactly when some earlier line opened it
   * and no `with col3:` line came after that one.
   */
  lemma {:induction false} InElseIffOpened(lines: seq<string>, k: nat)
    requires k <= |lines|
    ensures InElseAt(lines, k) <==>
            exists j :: 0 <= j < k && OpensElse(lines[j]) && forall m :: j < m < k ==> !ClosesElse(lines[m])
    decreases k
  {
    if k == 0 {
      assert lines[..0] == [];
    } else {
      InElseIffOpened(lines, k - 1);
      IndentedExactly(lines, k - 1);
      MarkersKept(lines, k - 1);
      if InElseAt(lines, k) {
        if !OpensElse(lines[k - 1]) {
          var j :| 0 <= j < k - 1 && OpensElse(lines[j]) && forall m :: j < m < k - 1 ==> !ClosesElse(lines[m]);
          assert forall m :: j < m < k ==> !ClosesElse(lines[m]);
        }
      } else {
        forall j | 0 <= j < k && OpensElse(lines[j])
          ensures exists m :: j < m < k && ClosesElse(lines[m])
        {
          if j < k - 1 && !ClosesElse(lines[k - 1]) {
            var m :| j < m < k - 1 && ClosesElse(lines[m]);
          }
        }
      }
    }
  }
}
