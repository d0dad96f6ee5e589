/** The top-level agent's state (src/state.py): its channels, the partial
    updates nodes return, and how an update is folded into the state — each
    channel overwritten, except `completed_sections`, whose reducer is list
    concatenation (`operator.add`). Updates are applied one after another in a
    given arrival order; that order is the only thing the scheduler decides. */
module State {
  import opened Wrappers

  /** The agent state; `S` is the type of a planned section. Drafted sections
      are the strings the section writer returns. */
  datatype AgentState<S> = AgentState(
    topic: string,
    sections: seq<S>,
    completedSections: seq<string>,
    finalReport: string)

  /** A partial update: the channels a node writes, the others `None`. */
  datatype AgentUpdate<S> = AgentUpdate(
    topic: Option<string>,
    sections: Option<seq<S>>,
    completedSections: Option<seq<string>>,
    finalReport: Option<string>)

  /** Folds one update into the state with each channel's reducer. */
  function Apply<S>(st: AgentState<S>, u: AgentUpdate<S>): AgentState<S>
  {
    AgentState(
      u.topic.GetOr(st.topic),
      u.sections.GetOr(st.sections),
      st.completedSections + u.completedSections.GetOr([]),
      u.finalReport.GetOr(st.finalReport))
  }

  /** Folds the updates into the state in the order given. */
  function ApplyAll<S>(st: AgentState<S>, us: seq<AgentUpdate<S>>): AgentState<S>
    decreases |us|
  {
    if us == [] then st else ApplyAll(Apply(st, us[0]), us[1..])
  }

  /** What one `write_section` instance returns: its draft as a one-element
      `completed_sections` list. */
  function WriteSectionUpdate<S>(content: string): AgentUpdate<S>
  {
    AgentUpdate(None, None, Some([content]), None)
  }

  /** The updates of a cohort of `write_section` instances, in arrival order. */
  function WriteSectionUpdates<S>(contents: seq<string>): (us: seq<AgentUpdate<S>>)
  {
    seq(|contents|, i requires 0 <= i < |contents| => WriteSectionUpdate(contents[i]))
  }

  /** An overwrite channel takes the written value; an unwritten channel keeps its own. */
  lemma ApplyChannels<S>(st: AgentState<S>, u: AgentUpdate<S>)
    ensures u.topic.Some? ==> Apply(st, u).topic == u.topic.value
    ensures u.sections.Some? ==> Apply(st, u).sections == u.sections.value
    ensures u.finalReport.Some? ==> Apply(st, u).finalReport == u.finalReport.value
    ensures u.finalReport.None? ==> Apply(st, u).finalReport == st.finalReport
    ensures u.sections.None? ==> Apply(st, u).sections == st.sections
    ensures u.topic.None? ==> Apply(st, u).topic == st.topic
    ensures u.completedSections.None? ==> Apply(st, u).completedSections == st.completedSections
    ensures Apply(st, u).completedSections == st.completedSections + u.completedSections.GetOr([])
    ensures |Apply(st, u).completedSections| == |st.completedSections| + |u.completedSections.GetOr([])|
  {
  }

  /** Folding the drafts of N writers appends exactly those N drafts, in
      arrival order, and leaves every other channel as it was. */
  lemma {:induction false} MergeWriteSections<S>(st: AgentState<S>, contents: seq<string>)
    ensures ApplyAll(st, WriteSectionUpdates(contents)) == st.(completedSections := st.completedSections + contents)
    decreases |contents|
  {
    var us: seq<AgentUpdate<S>> := WriteSectionUpdates(contents);
    if contents != [] {
      var st' := Apply(st, us[0]);
      assert st' == st.(completedSections := st.completedSections + [contents[0]]);
      assert us[1..] == WriteSectionUpdates(contents[1..]);
      MergeWriteSections(st', contents[1..]);
      assert st.completedSections + [contents[0]] + contents[1..] == st.completedSections + contents;
    } else {
      assert st.completedSections + contents == st.completedSections;
    }
  }

  /** Whatever order the writers finish in, the drafts collected are the same
      multiset, N more than before, and the other channels agree. */
  lemma MergeOrderInsensitive<S>(st: AgentState<S>, order1: seq<string>, order2: seq<string>)
    requires multiset(order1) == multiset(order2)
    ensures var r1 := ApplyAll(st, WriteSectionUpdates(order1));
      var r2 := ApplyAll(st, WriteSectionUpdates(order2));
      && multiset(r1.completedSections) == multiset(r2.completedSections)
      && |r1.completedSections| == |st.completedSections| + |order1|
      && r1.(completedSections := []) == r2.(completedSections := [])
  {
    MergeWriteSections(st, order1);
    MergeWriteSections(st, order2);
    assert |order1| == |multiset(order1)|;
  }
}
