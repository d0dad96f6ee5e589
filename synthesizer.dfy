/** The `synthesize_sections` node (src/nodes/synthesizer.py): the final
    report is the drafted sections joined by line breaks. */
module Synthesizer {
  import opened Wrappers
  import opened State
  import Text

  /** `synthesizer`: the update writes `final_report` and no other channel. */
  function Synthesize<S>(st: AgentState<S>): (u: AgentUpdate<S>)
    ensures u.topic.None? && u.sections.None? && u.completedSections.None? && u.finalReport.Some?
  {
    AgentUpdate(None, None, None, Some(Text.Join("\n", st.completedSections)))
  }

  /** The report of the drafts. */
  function Report<S>(st: AgentState<S>): string
  {
    Synthesize(st).finalReport.value
  }

  /** No drafts give an empty report; one draft is the report unchanged; n >= 1
      drafts give a report as long as the drafts together plus n - 1 line breaks. */
  lemma ReportShape<S>(st: AgentState<S>)
    ensures st.completedSections == [] ==> Report(st) == ""
    ensures |st.completedSections| == 1 ==> Report(st) == st.completedSections[0]
    ensures |st.completedSections| >= 1 ==>
      |Report(st)| == Text.TotalLength(st.completedSections) + |st.completedSections| - 1
  {
    if |st.completedSections| >= 1 {
      Text.JoinLength("\n", st.completedSections);
    }
  }

  /** The report is the drafts in list order: its lines give the drafts back
      whenever no draft holds a line break, and joining its lines again gives
      the report. */
  lemma ReportLines<S>(st: AgentState<S>)
    ensures |st.completedSections| >= 1 && (forall i :: 0 <= i < |st.completedSections| ==> '\n' !in st.completedSections[i]) ==>
      Text.Split(Report(st), '\n') == st.completedSections
    ensures Text.Join("\n", Text.Split(Report(st), '\n')) == Report(st)
  {
    if |st.completedSections| >= 1 && (forall i :: 0 <= i < |st.completedSections| ==> '\n' !in st.completedSections[i]) {
      Text.SplitJoin(st.completedSections, '\n');
    }
    Text.JoinSplit(Report(st), '\n');
  }

  /** Applying the update sets the report and leaves the drafts, the sections
      and the topic as they were. */
  lemma SynthesizeKeepsDrafts<S>(st: AgentState<S>)
    ensures Apply(st, Synthesize(st)) == st.(finalReport := Report(st))
  {
  }
}
