/**
 * fix_indent_inner.py: find the RentCast container in app.py, measure the
 * block under it, then indent by four spaces the non-blank contents of two
 * regions: the RentCast container (opened after the "RENTCAST INTEGRATION"
 * comment, closed by "AI INSIGHT SUMMARY") and the summary container
 * (opened after the "AI INSIGHT SUMMARY" comment, closed by "COLUMN 3: MAP").
 */
module FixIndentInner {
  import opened Common
  import opened PyStr
  import opened LineRewrite

  /** The markers the script looks for. */
  const BorderedContainer: string := "st.container(border=True)"
  const ContainerOpener: string := "with st.container(border=True):"
  const ApiKeyMarker: string := "RENTCAST_API_KEY"
  const RentcastHeader: string := "RENTCAST INTEGRATION"
  const SummaryHeader: string := "AI INSIGHT SUMMARY"
  const MapHeader: string := "COLUMN 3: MAP"

  /**
   * Line `i` is the container the script targets: a bordered container
   * line without the API key, whose third next line mentions the API key
   * or whose previous line is the RentCast comment.
   */
  predicate TargetAt(lines: seq<string>, i: nat)
    requires i < |lines|
  {
    && Contains(lines[i], BorderedContainer)
    && !Contains(lines[i], ApiKeyMarker)
    && ((i + 3 < |lines| && Contains(lines[i + 3], ApiKeyMarker)) || (i > 0 && Contains(lines[i - 1], RentcastHeader)))
  }

  /** The search loop: the first target line, or -1 when there is none. */
  method FindContainer(lines: seq<string>) returns (idx: int)
    ensures -1 <= idx < |lines|
    ensures idx == -1 <==> forall i :: 0 <= i < |lines| ==> !TargetAt(lines, i)
    ensures idx >= 0 ==> TargetAt(lines, idx) && forall i :: 0 <= i < idx ==> !TargetAt(lines, i)
  {
    idx := -1;
    for i := 0 to |lines|
      invariant forall j :: 0 <= j < i ==> !TargetAt(lines, j)
    {
      var line := lines[i];
      if Contains(line, BorderedContainer) && !Contains(line, ApiKeyMarker) {
        if i + 3 < |lines| && Contains(lines[i + 3], ApiKeyMarker) {
          idx := i;
          assert TargetAt(lines, i);
          return;
        }
        if i > 0 && Contains(lines[i - 1], RentcastHeader) {
          idx := i;
          assert TargetAt(lines, i);
          return;
        }
      }
    }
  }

  /** `len(line) - len(line.lstrip())` */
  function IndentOf(line: string): nat {
    |line| - |LStrip(line)|
  }

  /** A line that belongs to the container's block: blank, or indented deeper than the container. */
  predicate InBlock(line: string, containerIndent: nat) {
    LStrip(line) == [] || IndentOf(line) > containerIndent
  }

  /**
   * The block scan: from `start`, skip blank lines and lines indented
   * deeper than the container, and stop at the first other line (or at the
   * end of the file).
   */
  method ScanBlock(lines: seq<string>, start: nat, containerIndent: nat) returns (stop: nat)
    requires start <= |lines|
    ensures start <= stop <= |lines|
    ensures forall j :: start <= j < stop ==> InBlock(lines[j], containerIndent)
    ensures stop < |lines| ==> !InBlock(lines[stop], containerIndent)
  {
    stop := start;
    while stop < |lines|
      invariant start <= stop <= |lines|
      invariant forall j :: start <= j < stop ==> InBlock(lines[j], containerIndent)
    {
      var line := lines[stop];
      var stripped := LStrip(line);
      if stripped != [] {
        var currIndent := |line| - |stripped|;
        if currIndent <= containerIndent {
          break;
        }
      }
      stop := stop + 1;
    }
  }

  /** The rewrite loop's state: the two region flags and the previous line (none before the first). */
  datatype Regions = Regions(inRentcast: bool, inSummary: bool, prev: Option<string>)

  const Start := Regions(false, false, None)

  /** The previous line mentions `marker`. */
  predicate PrevHas(prev: Option<string>, marker: string) {
    prev.Some? && Contains(prev.value, marker)
  }

  /** Indent a line unless it is blank. */
  function IndentUnlessBlank(line: string): string {
    if Strip(line) != [] then Indent + line else line
  }

  /** One turn of the rewrite loop: the new flags (and previous line) and the line appended. */
  function RegionStep(st: Regions, line: string): (Regions, string) {
    var r1, r2 := st.inRentcast, st.inSummary;
    var next := (a: bool, b: bool) => Regions(a, b, Some(line));
    if Contains(line, RentcastHeader) then (next(r1, r2), line)
    else if Contains(line, ContainerOpener) && PrevHas(st.prev, RentcastHeader) then (next(true, r2), line)
    else if Contains(line, ContainerOpener) && PrevHas(st.prev, SummaryHeader) then (next(false, true), line)
    else if Contains(line, MapHeader) then (next(r1, false), line)
    else if r1 then
      if Contains(line, SummaryHeader) then (next(false, r2), line)
      else (next(r1, r2), IndentUnlessBlank(line))
    else if r2 then (next(r1, r2), IndentUnlessBlank(line))
    else (next(r1, r2), line)
  }

  /** The rewritten file. */
  function FixedLines(lines: seq<string>): seq<string> {
    Run(RegionStep, Start, lines).0
  }

  /** The state in which line `k` is processed. */
  function RegionsAt(lines: seq<string>, k: nat): Regions
    requires k <= |lines|
  {
    StateAt(RegionStep, Start, lines, k)
  }

  /**
   * One turn of the rewrite loop, given the flags, the previous line and
   * the current one: the new flags and the line written.
   */
  method RegionTurn(inR1: bool, inR2: bool, prev: Option<string>, line: string)
    returns (r1: bool, r2: bool, out: string)
    ensures (Regions(r1, r2, Some(line)), out) == RegionStep(Regions(inR1, inR2, prev), line)
  {
    r1, r2, out := inR1, inR2, line;
    if Contains(line, RentcastHeader) {
      return;
    }
    if Contains(line, ContainerOpener) {
      if prev.Some? && Contains(prev.value, RentcastHeader) {
        r1 := true;
        return;
      }
      if prev.Some? && Contains(prev.value, SummaryHeader) {
        r2 := true;
        r1 := false;
        return;
      }
    }
    if Contains(line, MapHeader) {
      r2 := false;
      return;
    }
    if inR1 {
      if Contains(line, SummaryHeader) {
        r1 := false;
        return;
      }
      if Strip(line) != [] {
        out := Indent + line;
      }
    } else if inR2 {
      if Strip(line) != [] {
        out := Indent + line;
      }
    }
  }

  /** The rewrite loop over the file's lines. */
  method RewriteRegions(lines: seq<string>) returns (finalLines: seq<string>)
    ensures finalLines == FixedLines(lines)
  {
    finalLines := [];
    var inR1 := false;
    var inR2 := false;
    for i := 0 to |lines|
      invariant (finalLines, Regions(inR1, inR2, if i == 0 then None else Some(lines[i - 1]))) == Run(RegionStep, Start, lines[..i])
    {
      var line := lines[i];
      assert lines[..i + 1][..i] == lines[..i];
      ghost var step := RegionStep(Regions(inR1, inR2, if i == 0 then None else Some(lines[i - 1])), line);
      assert Run(RegionStep, Start, lines[..i + 1]) == (finalLines + [step.1], step.0);
      var out;
      inR1, inR2, out := RegionTurn(inR1, inR2, if i == 0 then None else Some(lines[i - 1]), line);
      finalLines := finalLines + [out];
    }
    assert lines[..|lines|] == lines;
  }

  /**
   * `fix_inner_indentation` on the file's lines: nothing is written when
   * no target container exists; otherwise the file becomes the rewritten
   * lines (which do not depend on where the container was found).
   */
  method FixInnerIndentation(lines: seq<string>) returns (r: Option<seq<string>>)
    ensures r.None? <==> forall i :: 0 <= i < |lines| ==> !TargetAt(lines, i)
    ensures r.Some? ==> r.value == FixedLines(lines)
  {
    var idx := FindContainer(lines);
    if idx == -1 {
      return None;
    }
    var containerIndent := |lines[idx]| - |LStrip(lines[idx])|;
    var _ := ScanBlock(lines, idx + 1, containerIndent);
    var finalLines := RewriteRegions(lines);
    r := Some(finalLines);
  }

  /** The state's previous line is the source's `lines[i - 1]`. */
  lemma {:induction false} PrevAt(lines: seq<string>, k: nat)
    requires k <= |lines|
    ensures RegionsAt(lines, k).prev == if k == 0 then None else Some(lines[k - 1])
  {
    if k > 0 {
      RunLine(RegionStep, Start, lines, k - 1);
    } else {
      assert lines[..0] == [];
    }
  }

  /** The line count and order are kept, and each line is kept or indented by four spaces. */
  lemma FixedShape(lines: seq<string>)
    ensures |FixedLines(lines)| == |lines|
    ensures forall k :: 0 <= k < |lines| ==> FixedLines(lines)[k] == lines[k] || FixedLines(lines)[k] == Indent + lines[k]
  {
    assert IndentsOnly(RegionStep);
    KeepsOrIndents(RegionStep, Start, lines);
  }

  /** Line `k` is a container line right after one of the two region comments. */
  predicate OpensRegion(lines: seq<string>, k: nat)
    requires k < |lines|
  {
    k > 0 && Contains(lines[k], ContainerOpener)
    && (Contains(lines[k - 1], RentcastHeader) || Contains(lines[k - 1], SummaryHeader))
  }

  /**
   * Line `k` is indented exactly when it is not blank, is none of the
   * marker lines (the RentCast comment, a region's container line, the
   * map comment), and either the RentCast region is open and the line is
   * not the summary comment, or only the summary region is open.
   */
  lemma IndentedExactly(lines: seq<string>, k: nat)
    requires k < |lines|
    ensures var st := RegionsAt(lines, k);
            FixedLines(lines)[k] ==
              if && Strip(lines[k]) != []
                 && !Contains(lines[k], RentcastHeader)
                 && !OpensRegion(lines, k)
                 && !Contains(lines[k], MapHeader)
                 && (if st.inRentcast then !Contains(lines[k], SummaryHeader) else st.inSummary)
              then Indent + lines[k] else lines[k]
  {
    RunLine(RegionStep, Start, lines, k);
    PrevAt(lines, k);
  }

  /** The RentCast comment, the map comment, region container lines and blank lines are never indented. */
  lemma MarkersKept(lines: seq<string>, k: nat)
    requires k < |lines|
    requires Strip(lines[k]) == [] || Contains(lines[k], RentcastHeader) || OpensRegion(lines, k) || Contains(lines[k], MapHeader)
    ensures FixedLines(lines)[k] == lines[k]
  {
    IndentedExactly(lines, k);
  }

  /** A container line right after the RentCast comment opens the RentCast region. */
  lemma RentcastOpens(lines: seq<string>, k: nat)
    requires 0 < k < |lines| && Contains(lines[k], ContainerOpener) && Contains(lines[k - 1], RentcastHeader)
    requires !Contains(lines[k], RentcastHeader)
    ensures RegionsAt(lines, k + 1).inRentcast
    ensures RegionsAt(lines, k + 1).inSummary == RegionsAt(lines, k).inSummary
  {
    RunLine(RegionStep, Start, lines, k);
    PrevAt(lines, k);
  }

  /** A container line right after the summary comment closes the RentCast region and opens the summary region. */
  lemma SummaryOpens(lines: seq<string>, k: nat)
    requires 0 < k < |lines| && Contains(lines[k], ContainerOpener) && Contains(lines[k - 1], SummaryHeader)
    requires !Contains(lines[k], RentcastHeader) && !Contains(lines[k - 1], RentcastHeader)
    ensures !RegionsAt(lines, k + 1).inRentcast && RegionsAt(lines, k + 1).inSummary
  {
    RunLine(RegionStep, Start, lines, k);
    PrevAt(lines, k);
  }

  /** Inside the RentCast region, the summary comment closes it and is kept as it is. */
  lemma SummaryClosesRentcast(lines: seq<string>, k: nat)
    requires k < |lines| && RegionsAt(lines, k).inRentcast && Contains(lines[k], SummaryHeader)
    requires !Contains(lines[k], RentcastHeader) && !OpensRegion(lines, k) && !Contains(lines[k], MapHeader)
    ensures !RegionsAt(lines, k + 1).inRentcast
    ensures FixedLines(lines)[k] == lines[k]
  {
    RunLine(RegionStep, Start, lines, k);
    PrevAt(lines, k);
  }

  /** The map comment closes the summary region and is kept. */
  lemma MapClosesSummary(lines: seq<string>, k: nat)
    requires k < |lines| && Contains(lines[k], MapHeader)
    requires !Contains(lines[k], RentcastHeader) && !OpensRegion(lines, k)
    ensures !RegionsAt(lines, k + 1).inSummary
    ensures FixedLines(lines)[k] == lines[k]
  {
    RunLine(RegionStep, Start, lines, k);
    PrevAt(lines, k);
  }

  /** Outside both regions every line is kept. */
  lemma OutsideKept(lines: seq<string>, k: nat)
    requires k < |lines| && !RegionsAt(lines, k).inRentcast && !RegionsAt(lines, k).inSummary
    ensures FixedLines(lines)[k] == lines[k]
  {
    IndentedExactly(lines, k);
  }
}
