/**
 * The plan scanner of the API routes (`extract_plan_from_logs`): a two-state scan over an agent
 * run's log lines that collects the plan section, with a fixed template as the fallback.
 */
module LogExtract {
  import opened Seqs
  import opened Text

  // ---------------------------------------------------------------------------------------------
  // Plan extraction
  // ---------------------------------------------------------------------------------------------

  /** The phrase that opens the plan section; it is looked for in the lower-cased entry. */
  const PlanMarker := "implementation plan"

  const TemplateHeading := "# Implementation Plan"

  /** The plan returned when the logs hold no plan lines, kept as its lines joined by newlines. */
  const DefaultPlanTemplate := Join(TemplateLines, "\n")

  const TemplateLines: seq<string> := [
    TemplateHeading,
    "",
    "## Phase 1: Analysis and Setup",
    "- Analyze current codebase structure",
    "- Identify required dependencies",
    "- Set up development environment",
    "",
    "## Phase 2: Core Implementation",
    "- Implement main functionality",
    "- Add error handling",
    "- Write unit tests",
    "",
    "## Phase 3: Integration and Testing",
    "- Integrate with existing systems",
    "- Perform integration testing",
    "- Optimize performance",
    "",
    "## Phase 4: Documentation and Deployment",
    "- Update documentation",
    "- Prepare deployment scripts",
    "- Deploy to staging environment"
  ]

  /** An entry that mentions the plan marker, in any letter case. */
  predicate IsPlanMarker(entry: string)
  {
    Contains(Lower(entry), PlanMarker)
  }

  predicate IsPlanLine(entry: string)
  {
    !IsPlanMarker(entry)
  }

  /**
   * The reference description of what the scanner keeps: find the first marker entry; after it,
   * take the entries up to (not including) the first blank one, and drop any further marker entries.
   */
  function PlanLines(logs: seq<string>): seq<string>
  {
    Filter(Section(logs, IsPlanMarker, IsBlank), IsPlanLine)
  }

  /** The text the scanner returns: the kept lines joined by newlines, or the default template. */
  function PlanText(logs: seq<string>): string
  {
    PlanTextOf(PlanLines(logs))
  }

  function PlanTextOf(lines: seq<string>): string
  {
    if lines == [] then DefaultPlanTemplate else Join(lines, "\n")
  }

  /** A marker entry holds a letter, so it is never blank. */
  lemma MarkerIsNotBlank(entry: string)
    requires IsPlanMarker(entry)
    ensures !IsBlank(entry)
  {
    var i: nat :| i <= |Lower(entry)| && OccursAt(Lower(entry), PlanMarker, i);
    assert Lower(entry)[i] == PlanMarker[0];
    LetterIsNotBlank(entry, i);
  }

  /** Every kept line is a non-blank, non-marker entry that comes after the first marker entry. */
  lemma PlanLinesComeFromSection(logs: seq<string>)
    ensures PlanLines(logs) != [] ==> FirstWhere(logs, IsPlanMarker) < |logs|
    ensures forall line :: line in PlanLines(logs) ==>
      !IsPlanMarker(line) && !IsBlank(line) && line in logs[FirstWhere(logs, IsPlanMarker) + 1..]
  {
    SectionElements(logs, IsPlanMarker, IsBlank);
    FilterKeeps(Section(logs, IsPlanMarker, IsBlank), IsPlanLine);
  }

  /** Entries before the first marker never influence the plan: any marker-free prelude can be
      prepended without changing the result. */
  lemma PlanIgnoresPrelude(prelude: seq<string>, logs: seq<string>)
    requires forall k :: 0 <= k < |prelude| ==> !IsPlanMarker(prelude[k])
    ensures PlanText(prelude + logs) == PlanText(logs)
  {
    PlanLinesIgnorePrelude(prelude, logs);
  }

  lemma PlanLinesIgnorePrelude(prelude: seq<string>, logs: seq<string>)
    requires forall k :: 0 <= k < |prelude| ==> !IsPlanMarker(prelude[k])
    ensures PlanLines(prelude + logs) == PlanLines(logs)
  {
    SectionIgnoresPrefix(prelude, logs, IsPlanMarker, IsBlank);
  }

  /** The scan stops at the first blank entry after the marker: once logs hold a blank entry
      somewhere after their first marker entry, whatever is appended never reaches the plan. */
  lemma PlanIgnoresAfterBlank(logs: seq<string>, more: seq<string>, blank: nat)
    requires FirstWhere(logs, IsPlanMarker) < blank < |logs| && IsBlank(logs[blank])
    ensures PlanText(logs + more) == PlanText(logs)
  {
    PlanLinesIgnoreAfterBlank(logs, more, blank);
  }

  lemma PlanLinesIgnoreAfterBlank(logs: seq<string>, more: seq<string>, blank: nat)
    requires FirstWhere(logs, IsPlanMarker) < blank < |logs| && IsBlank(logs[blank])
    ensures PlanLines(logs + more) == PlanLines(logs)
  {
    SectionIgnoresSuffix(logs, more, IsPlanMarker, IsBlank, blank);
  }

  /** The default template's first line is its heading, which holds no newline. */
  lemma TemplateStartsWithHeading()
    ensures |DefaultPlanTemplate| > |TemplateHeading| == 21
    ensures DefaultPlanTemplate[..21] == TemplateHeading
    ensures forall k :: 0 <= k < 21 ==> DefaultPlanTemplate[k] != '\n'
  {
    JoinShape(TemplateLines, "\n");
    assert forall k :: 0 <= k < 21 ==> DefaultPlanTemplate[k] == TemplateHeading[k];
  }

  /** Any entry that begins with the template heading is a marker entry. */
  lemma HeadingIsMarker(entry: string)
    requires |entry| >= 21 && entry[..21] == TemplateHeading
    ensures IsPlanMarker(entry)
  {
    assert Lower(entry)[2..21] == PlanMarker by {
      forall k | 0 <= k < 19 ensures Lower(entry)[2..21][k] == PlanMarker[k] {
        assert entry[k + 2] == TemplateHeading[k + 2];
      }
    }
    assert OccursAt(Lower(entry), PlanMarker, 2);
  }

  /** The returned plan is never empty, and it is the default template exactly when no line was
      kept: kept lines cannot join up to the template, because its first line is a marker. */
  lemma PlanTextIsTemplateIffNothingKept(logs: seq<string>)
    ensures PlanText(logs) != ""
    ensures PlanText(logs) == DefaultPlanTemplate <==> PlanLines(logs) == []
  {
    TemplateStartsWithHeading();
    var lines := PlanLines(logs);
    if lines != [] {
      PlanLinesComeFromSection(logs);
      assert lines[0] in lines;
      var first := lines[0];
      JoinShape(lines, "\n");
      if Join(lines, "\n") == DefaultPlanTemplate && |first| >= 21 {
        assert first[..21] == DefaultPlanTemplate[..21];
        HeadingIsMarker(first);
      }
    }
  }

  /** The scanner of `extract_plan_from_logs`: a two-state loop that switches on at a marker entry,
      collects non-blank entries and stops at the first blank one. */
  method ExtractPlanFromLogs(logs: seq<string>) returns (plan: string)
    ensures plan == PlanText(logs)
  {
    var planContent: seq<string> := [];
    var inPlanSection := false;
    ScanStart(logs, IsPlanMarker, IsBlank, IsPlanLine);
    var i := 0;
    while i < |logs|
      invariant ScanState(logs, IsPlanMarker, IsBlank, IsPlanLine, i, inPlanSection, planContent)
    {
      var entry := logs[i];
      if IsPlanMarker(entry) {
        MarkerIsNotBlank(entry);
        ScanOpen(logs, IsPlanMarker, IsBlank, IsPlanLine, i, inPlanSection, planContent);
        inPlanSection := true;
      } else if inPlanSection && !IsBlank(entry) {
        ScanCollect(logs, IsPlanMarker, IsBlank, IsPlanLine, i, planContent);
        planContent := planContent + [entry];
      } else if inPlanSection && IsBlank(entry) {
        ScanClose(logs, IsPlanMarker, IsBlank, IsPlanLine, i, planContent);
        break;
      } else {
        ScanSkip(logs, IsPlanMarker, IsBlank, IsPlanLine, i);
      }
      i := i + 1;
    }
    if i == |logs| {
      ScanEnd(logs, IsPlanMarker, IsBlank, IsPlanLine, inPlanSection, planContent);
    }
    if planContent != [] {
      plan := Join(planContent, "\n");
    } else {
      plan := DefaultPlanTemplate;
    }
  }
}
