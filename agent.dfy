/** The top-level graph (src/agent.py): the router that fans the planned
    sections out to the section writer, and the declared nodes and edges. */
module Agent {
  import opened Wrappers
  import opened State

  /** The entry and exit pseudo-nodes. */
  const Start: string := "__start__"
  const End: string := "__end__"

  /** A dispatch directive: run `node` once with `arg` as its whole input. */
  datatype Send<S> = Send(node: string, arg: map<string, S>)

  /** `assign_to_section_writer`: one `write_section` dispatch per planned
      section, in order, each carrying only that section. */
  function AssignToSectionWriter<S>(st: AgentState<S>): (sends: seq<Send<S>>)
    ensures |sends| == |st.sections|
    ensures forall i :: 0 <= i < |sends| ==>
      sends[i].node == "write_section" && sends[i].arg.Keys == {"section"} && sends[i].arg["section"] == st.sections[i]
  {
    seq(|st.sections|, i requires 0 <= i < |st.sections| => Send("write_section", map["section" := st.sections[i]]))
  }

  /** The registered nodes. */
  const Nodes: seq<string> := ["generate_sections", "write_section", "synthesize_sections"]

  /** The static edges. */
  const Edges: seq<(string, string)> := [
    (Start, "generate_sections"),
    ("write_section", "synthesize_sections"),
    ("synthesize_sections", End)]

  /** A conditional edge: a router bound to `source` and the targets it may return. */
  datatype ConditionalEdge = ConditionalEdge(source: string, targets: seq<string>)

  /** The conditional edges: the router after `generate_sections`. */
  const ConditionalEdges: seq<ConditionalEdge> := [ConditionalEdge("generate_sections", ["write_section"])]

  /** `b` can run right after `a`, along a static edge or as a declared target of a router. */
  predicate Step(a: string, b: string)
  {
    (a, b) in Edges || exists e :: e in ConditionalEdges && e.source == a && b in e.targets
  }

  /** A way through the graph from entry to exit. */
  predicate IsPath(p: seq<string>)
  {
    && |p| >= 1
    && p[0] == Start
    && p[|p| - 1] == End
    && forall i :: 0 <= i < |p| - 1 ==> Step(p[i], p[i + 1])
  }

  /** The pipeline: plan, draft every section, synthesize. */
  const Pipeline: seq<string> := [Start, "generate_sections", "write_section", "synthesize_sections", End]

  /** Every node has at most one possible successor: the next one on the pipeline. */
  lemma StepFollowsPipeline(a: string, b: string)
    ensures Step(a, b) <==> exists i :: 0 <= i < 4 && a == Pipeline[i] && b == Pipeline[i + 1]
  {
    if (a, b) in Edges {
      var j :| 0 <= j < |Edges| && Edges[j] == (a, b);
      var i := if j == 0 then 0 else j + 1;
      assert a == Pipeline[i] && b == Pipeline[i + 1];
    } else if Step(a, b) {
      var e :| e in ConditionalEdges && e.source == a && b in e.targets;
      assert e == ConditionalEdges[0];
      assert a == Pipeline[1] && b == Pipeline[2];
    }
    if exists i :: 0 <= i < 4 && a == Pipeline[i] && b == Pipeline[i + 1] {
      var i :| 0 <= i < 4 && a == Pipeline[i] && b == Pipeline[i + 1];
      if i == 0 {
        assert (a, b) == Edges[0];
      } else if i == 1 {
        assert ConditionalEdges[0].source == a && b in ConditionalEdges[0].targets;
      } else if i == 2 {
        assert (a, b) == Edges[1];
      } else {
        assert (a, b) == Edges[2];
      }
    }
  }

  /** The pipeline is the one and only path from entry to exit. */
  lemma OnlyPath(p: seq<string>)
    ensures IsPath(p) <==> p == Pipeline
  {
    if IsPath(p) {
      var k := 0;
      while k < |p| - 1 && k < 4
        invariant 0 <= k <= 4 && k < |p|
        invariant forall j :: 0 <= j <= k ==> p[j] == Pipeline[j]
      {
        StepFollowsPipeline(p[k], p[k + 1]);
        var i :| 0 <= i < 4 && p[k] == Pipeline[i] && p[k + 1] == Pipeline[i + 1];
        assert i == k;
        k := k + 1;
      }
      if k < 4 {
        assert false;
      }
      if |p| > 5 {
        StepFollowsPipeline(p[4], p[5]);
        assert false;
      }
    }
    if p == Pipeline {
      forall i | 0 <= i < |p| - 1 ensures Step(p[i], p[i + 1]) {
        StepFollowsPipeline(p[i], p[i + 1]);
      }
    }
  }

  /** Every registered node lies on the pipeline, and every edge joins
      registered nodes or the entry and exit. */
  lemma GraphIsClosed()
    ensures forall n :: n in Nodes ==> n in Pipeline
    ensures forall e :: e in Edges ==> (e.0 in Nodes || e.0 == Start) && (e.1 in Nodes || e.1 == End)
    ensures forall c, t :: c in ConditionalEdges && t in c.targets ==> c.source in Nodes && t in Nodes
  {
  }

  /** Every dispatch the router returns targets a node its conditional edge declares. */
  lemma RouterTargetsDeclared<S>(st: AgentState<S>)
    ensures forall s :: s in AssignToSectionWriter(st) ==>
      exists e :: e in ConditionalEdges && e.source == "generate_sections" && s.node in e.targets
  {
    forall s | s in AssignToSectionWriter(st)
      ensures exists e :: e in ConditionalEdges && e.source == "generate_sections" && s.node in e.targets
    {
      assert ConditionalEdges[0].source == "generate_sections" && s.node in ConditionalEdges[0].targets;
    }
  }

  /** The payloads of the dispatches, read back, are the planned sections. */
  lemma DispatchesCarrySections<S>(st: AgentState<S>)
    ensures var sends := AssignToSectionWriter(st);
      seq(|sends|, i requires 0 <= i < |sends| => sends[i].arg["section"]) == st.sections
  {
  }
}
