/**
 * fix_summary_indent.py: move the "AI INSIGHT SUMMARY" comment and the
 * container line that follows it from indentation 8 to indentation 12.
 */
module FixSummaryIndent {
  import opened PyStr
  import opened LineRewrite

  /** The marker comment, the container line it is paired with, and the call any container line makes. */
  const SummaryMarker: string := "AI INSIGHT SUMMARY"
  const ContainerOpener: string := "with st.container(border=True):"
  const ContainerCall: string := "st.container"

  /** `len(line) - len(line.lstrip())` */
  function IndentOf(line: string): nat {
    |line| - |LStrip(line)|
  }

  /** A summary comment at indentation 8. */
  predicate SummaryHeader(line: string) {
    Contains(line, SummaryMarker) && IndentOf(line) == 8
  }

  /** A bordered container line at indentation 8. */
  predicate ContainerLine(line: string) {
    Contains(line, ContainerOpener) && IndentOf(line) == 8
  }

  /** One turn of the loop: the new `found_summary` and the line appended. */
  function SummaryStep(found: bool, line: string): (bool, string) {
    if SummaryHeader(line) then (true, Indent + line)
    else if found && ContainerLine(line) then (false, Indent + line)
    else if found && Strip(line) != [] && !Contains(line, ContainerCall) then (false, line)
    else (found, line)
  }

  /** The rewritten file. */
  function FixedLines(lines: seq<string>): seq<string> {
    Run(SummaryStep, false, lines).0
  }

  /** Whether the flag is armed when line `k` is reached. */
  function ArmedAt(lines: seq<string>, k: nat): bool
    requires k <= |lines|
  {
    StateAt(SummaryStep, false, lines, k)
  }

  /** `fix_ai_summary_indent` on the file's lines. */
  method FixAiSummaryIndent(lines: seq<string>) returns (newLines: seq<string>)
    ensures newLines == FixedLines(lines)
  {
    newLines := [];
    var foundSummary := false;
    for i := 0 to |lines|
      invariant (newLines, foundSummary) == Run(SummaryStep, false, lines[..i])
    {
      var line := lines[i];
      assert lines[..i + 1][..i] == lines[..i];
      ghost var step := SummaryStep(foundSummary, line);
      assert Run(SummaryStep, false, lines[..i + 1]) == (newLines + [step.1], step.0);
      var out := line;
      var currentIndent := |line| - |LStrip(line)|;
      if Contains(line, SummaryMarker) && currentIndent == 8 {
        out := Indent + line;
        foundSummary := true;
      } else if foundSummary && Contains(line, ContainerOpener) && currentIndent == 8 {
        out := Indent + line;
        foundSummary := false;
      } else if foundSummary && Strip(line) != [] && !Contains(line, ContainerCall) {
        foundSummary := false;
      }
      assert (foundSummary, out) == step;
      newLines := newLines + [out];
    }
    assert lines[..|lines|] == lines;
  }

  /** The line count and order are kept, and each line is kept or indented by four spaces. */
  lemma FixedShape(lines: seq<string>)
    ensures |FixedLines(lines)| == |lines|
    ensures forall k :: 0 <= k < |lines| ==> FixedLines(lines)[k] == lines[k] || FixedLines(lines)[k] == Indent + lines[k]
  {
    assert IndentsOnly(SummaryStep);
    KeepsOrIndents(SummaryStep, false, lines);
  }

  /**
   * Line `k` is indented exactly when it is a summary header, or a
   * container line while the flag is armed; only lines at indentation 8
   * are ever changed.
   */
  lemma IndentedExactly(lines: seq<string>, k: nat)
    requires k < |lines|
    ensures FixedLines(lines)[k] == (if SummaryHeader(lines[k]) || (ArmedAt(lines, k) && ContainerLine(lines[k]))
                                     then Indent + lines[k] else lines[k])
    ensures FixedLines(lines)[k] != lines[k] ==> IndentOf(lines[k]) == 8
  {
    RunLine(SummaryStep, false, lines, k);
    IndentChanges(lines[k]);
  }

  /** Every summary header at indentation 8 is indented and arms the flag. */
  lemma HeaderArms(lines: seq<string>, k: nat)
    requires k < |lines| && SummaryHeader(lines[k])
    ensures FixedLines(lines)[k] == Indent + lines[k] && ArmedAt(lines, k + 1)
  {
    RunLine(SummaryStep, false, lines, k);
  }

  /**
   * A container line at indentation 8 (that is not itself a header) is
   * indented only while armed, and leaves the flag disarmed either way.
   */
  lemma ContainerDisarms(lines: seq<string>, k: nat)
    requires k < |lines| && ContainerLine(lines[k]) && !SummaryHeader(lines[k])
    ensures FixedLines(lines)[k] == (if ArmedAt(lines, k) then Indent + lines[k] else lines[k])
    ensures !ArmedAt(lines, k + 1)
  {
    RunLine(SummaryStep, false, lines, k);
  }

  /** Any other non-blank line without "st.container" disarms the flag. */
  lemma DriftDisarms(lines: seq<string>, k: nat)
    requires k < |lines| && !SummaryHeader(lines[k])
    requires Strip(lines[k]) != [] && !Contains(lines[k], ContainerCall)
    ensures FixedLines(lines)[k] == lines[k] && !ArmedAt(lines, k + 1)
  {
    RunLine(SummaryStep, false, lines, k);
    ContainerMentionsContainer(lines[k]);
  }

  /** The call sits at offset 5 of the container line. */
  lemma OpenerHasCall()
    ensures ContainerOpener[5..17] == ContainerCall
  {
    assert ContainerOpener == "with " + ContainerCall + "(border=True):";
  }

  /** The container line's text includes "st.container". */
  lemma ContainerMentionsContainer(line: string)
    ensures Contains(line, ContainerOpener) ==> Contains(line, ContainerCall)
  {
    if Contains(line, ContainerOpener) {
      var i :| 0 <= i <= |line| - |ContainerOpener| && StartsWith(line[i..], ContainerOpener);
      assert line[i..i + |ContainerOpener|] == ContainerOpener;
      OpenerHasCall();
      assert line[i + 5..i + 17] == ContainerOpener[5..17];
      ContainsAt(line, ContainerCall, i + 5);
    }
  }
}
