/** The `search_web` node of the research sub-agent
    (src/nodes/research_agent/nodes/web_research.py): one search per query,
    the hits of all responses flattened in order, a markdown context rendered
    from them, and the section record enriched with queries, hits and context.
    The search client is the parameter `search`. */
module WebResearch {
  import opened Wrappers
  import opened Py
  import Text

  /** What `client.search(query, ...)` returns: a dict whose `results` key may
      be absent, or something that is not a dict at all. */
  datatype Response = NotDict | Dict(results: Option<seq<Item>>)

  /** The hits one response contributes to the flattened list:
      `per_query_response.get("results", [])` for a dict, nothing otherwise. */
  function ResultsOf(r: Response): seq<Item>
  {
    match r
    case NotDict => []
    case Dict(results) => results.GetOr([])
  }

  /** The part of the research agent's state that `search_web` reads. */
  datatype ResearchState = ResearchState(searchQueries: seq<string>, section: Record)

  /** The partial state update `search_web` returns. */
  datatype ResearchUpdate = ResearchUpdate(
    searchResults: seq<Item>,
    sectionContext: string,
    section: map<string, Value>,
    researchedSections: seq<Record>)

  /** The text between two rendered hits in the context. */
  const HitSeparator: string := "\n\n---\n\n"

  /** The section keys `search_web` sets. */
  const EnrichedKeys: set<string> := {"search_queries", "search_results", "section_context"}

  /** The responses of one search per query, in query order. */
  function Responses(search: string -> Response, queries: seq<string>): seq<Response>
  {
    seq(|queries|, i requires 0 <= i < |queries| => search(queries[i]))
  }

  /** The hits of the responses, concatenated in response order. */
  function Flatten(responses: seq<Response>): seq<Item>
  {
    if responses == [] then []
    else Flatten(responses[..|responses| - 1]) + ResultsOf(responses[|responses| - 1])
  }

  /** The total number of hits the responses carry, counted response by response. */
  function CountResults(responses: seq<Response>): nat
  {
    if responses == [] then 0 else |ResultsOf(responses[0])| + CountResults(responses[1..])
  }

  /** The heading line of a hit's block. */
  function Heading(item: Item): string
  {
    "### " + Lookup(item, "title", "Untitled") + "\n"
  }

  /** The link line of a hit's block, followed by a blank line. */
  function LinkLine(item: Item): string
  {
    "**URL:** [" + Lookup(item, "url", "N/A") + "](" + Lookup(item, "url", "#") + ")\n\n"
  }

  /** The markdown block for one hit: its heading, its link line and its content. */
  function Render(item: Item): string
  {
    Heading(item) + LinkLine(item) + Lookup(item, "content", "")
  }

  /** One rendered block per hit, in order. */
  function Blocks(items: seq<Item>): seq<string>
  {
    seq(|items|, i requires 0 <= i < |items| => Render(items[i]))
  }

  /** The section context: the blocks of the hits joined by `HitSeparator`. */
  function Context(items: seq<Item>): string
  {
    Text.Join(HitSeparator, Blocks(items))
  }

  /** Runs the client once per query and collects the responses in order. */
  method CollectResponses(search: string -> Response, queries: seq<string>) returns (responses: seq<Response>)
    ensures |responses| == |queries|
    ensures forall i :: 0 <= i < |queries| ==> responses[i] == search(queries[i])
  {
    responses := [];
    for i := 0 to |queries|
      invariant |responses| == i
      invariant forall k :: 0 <= k < i ==> responses[k] == search(queries[k])
    {
      var results := search(queries[i]);
      responses := responses + [results];
    }
  }

  /** Extends the flattened list with the hits of every dict response. */
  method FlattenResults(responses: seq<Response>) returns (flattened: seq<Item>)
    ensures flattened == Flatten(responses)
  {
    flattened := [];
    for i := 0 to |responses|
      invariant flattened == Flatten(responses[..i])
    {
      assert responses[..i + 1][..i] == responses[..i];
      match responses[i]
      case Dict(results) =>
        flattened := flattened + results.GetOr([]);
      case NotDict =>
    }
    assert responses[..|responses|] == responses;
  }

  /** Copies the section into a dict, gives the three research keys a default
      if absent, then overwrites them with the queries, hits and context. */
  method EnrichSection(section: Record, queries: seq<string>, results: seq<Item>, context: string)
    returns (d: map<string, Value>)
    ensures d.Keys == ToDict(section).Keys + EnrichedKeys
    ensures d["search_queries"] == Strings(queries)
    ensures d["search_results"] == Items(results)
    ensures d["section_context"] == Atom(Str(context))
    ensures forall k :: k in ToDict(section) && k !in EnrichedKeys ==> d[k] == ToDict(section)[k]
  {
    if section.Model? {
      d := section.attrs;
    } else {
      d := section.entries;
    }
    if "search_queries" !in d {
      d := d["search_queries" := Strings([])];
    }
    if "search_results" !in d {
      d := d["search_results" := Items([])];
    }
    if "section_context" !in d {
      d := d["section_context" := Atom(Str(""))];
    }
    d := d["search_queries" := Strings(queries)];
    d := d["search_results" := Items(results)];
    d := d["section_context" := Atom(Str(context))];
  }

  /** The `search_web` node. */
  method SearchWeb(search: string -> Response, st: ResearchState) returns (u: ResearchUpdate)
    ensures u.searchResults == Flatten(Responses(search, st.searchQueries))
    ensures u.sectionContext == Context(u.searchResults)
    ensures st.searchQueries == [] ==> u.searchResults == [] && u.sectionContext == ""
    ensures u.section.Keys == ToDict(st.section).Keys + EnrichedKeys
    ensures u.section["search_queries"] == Strings(st.searchQueries)
    ensures u.section["search_results"] == Items(u.searchResults)
    ensures u.section["section_context"] == Atom(Str(u.sectionContext))
    ensures forall k :: k in ToDict(st.section) && k !in EnrichedKeys ==> u.section[k] == ToDict(st.section)[k]
    ensures |u.researchedSections| == 1 && u.researchedSections[0] == Mapping(u.section)
  {
    var searchQueries := st.searchQueries;
    var searchResults := CollectResponses(search, searchQueries);
    assert searchResults == Responses(search, searchQueries);
    var flattenedResults := FlattenResults(searchResults);
    var context := Context(flattenedResults);
    var sectionDict := EnrichSection(st.section, searchQueries, flattenedResults, context);
    u := ResearchUpdate(flattenedResults, context, sectionDict, [Mapping(sectionDict)]);
  }

  /** Flattening distributes over concatenation of the response list, so the
      hits keep the order of their responses. */
  lemma {:induction false} FlattenAppend(a: seq<Response>, b: seq<Response>)
    ensures Flatten(a + b) == Flatten(a) + Flatten(b)
  {
    if b != [] {
      var b' := b[..|b| - 1];
      assert (a + b)[..|a + b| - 1] == a + b';
      FlattenAppend(a, b');
      assert (a + b)[|a + b| - 1] == b[|b| - 1];
    } else {
      assert a + b == a;
    }
  }

  /** The flattened list holds exactly as many hits as the responses carry. */
  lemma {:induction false} FlattenLength(responses: seq<Response>)
    ensures |Flatten(responses)| == CountResults(responses)
  {
    if responses != [] {
      FlattenLength(responses[1..]);
      FlattenAppend([responses[0]], responses[1..]);
      assert [responses[0]] + responses[1..] == responses;
      assert [responses[0]][..0] == [];
    }
  }

  /** A response that is not a dict, or a dict without `results`, adds nothing. */
  lemma FlattenSkips(a: seq<Response>, r: Response, b: seq<Response>)
    requires r.NotDict? || r.results.None?
    ensures Flatten(a + [r] + b) == Flatten(a + b)
  {
    assert ResultsOf(r) == [];
    var ar := a + [r];
    assert ar[..|ar| - 1] == a;
    assert Flatten(ar) == Flatten(a);
    FlattenAppend(ar, b);
    FlattenAppend(a, b);
  }

  /** A hit is in the flattened list exactly when some response carries it. */
  lemma {:induction false} FlattenMembership(responses: seq<Response>, x: Item)
    ensures x in Flatten(responses) <==> exists i :: 0 <= i < |responses| && x in ResultsOf(responses[i])
  {
    if responses != [] {
      var n := |responses| - 1;
      var init := responses[..n];
      FlattenMembership(init, x);
      assert Flatten(responses) == Flatten(init) + ResultsOf(responses[n]);
      if x in Flatten(init) {
        var i :| 0 <= i < |init| && x in ResultsOf(init[i]);
        assert responses[i] == init[i];
      } else if x in ResultsOf(responses[n]) {
      } else {
        forall i | 0 <= i < |responses|
          ensures x !in ResultsOf(responses[i])
        {
          if i < n {
            assert init[i] == responses[i];
          }
        }
      }
    }
  }

  /** The defaults of a rendered hit apply to absent keys only: an absent
      `title` reads `Untitled`, an absent `url` gives the link `[N/A](#)`, an
      absent `content` leaves the body empty, and a `title` that is present
      but `None` reads `None`. */
  lemma RenderDefaults(item: Item)
    ensures "title" !in item ==> Heading(item) == "### Untitled\n"
    ensures "title" in item && item["title"] == Null ==> Heading(item) == "### None\n"
    ensures "url" !in item ==> LinkLine(item) == "**URL:** [N/A](#)\n\n"
    ensures "content" !in item ==> Render(item) == Heading(item) + LinkLine(item)
    ensures "title" !in item && "url" !in item && "content" !in item ==>
      Render(item) == "### Untitled\n" + "**URL:** [N/A](#)\n\n"
  {
    if "title" !in item {
      HeadingOf(item, "Untitled");
    } else if item["title"] == Null {
      HeadingOf(item, "None");
    }
    if "url" !in item {
      LinkLineOf(item, "N/A", "#");
    }
    if "content" !in item {
      assert Render(item) == Heading(item) + LinkLine(item) + "";
    }
  }

  /** The heading of a hit whose title reads `t`. */
  lemma HeadingOf(item: Item, t: string)
    requires Lookup(item, "title", "Untitled") == t
    ensures t == "Untitled" ==> Heading(item) == "### Untitled\n"
    ensures t == "None" ==> Heading(item) == "### None\n"
  {
  }

  /** The link line of a hit whose URL reads `shown` as text and `target` as link. */
  lemma LinkLineOf(item: Item, shown: string, target: string)
    requires Lookup(item, "url", "N/A") == shown && Lookup(item, "url", "#") == target
    ensures shown == "N/A" && target == "#" ==> LinkLine(item) == "**URL:** [N/A](#)\n\n"
  {
  }

  /** No hits, no context; one hit, its block alone. */
  lemma ContextSmall(x: Item)
    ensures Context([]) == ""
    ensures Context([x]) == Render(x)
  {
    assert Blocks([x]) == [Render(x)];
  }

  /** One more hit adds one separator and that hit's block at the end. */
  lemma ContextSnoc(items: seq<Item>, x: Item)
    requires |items| >= 1
    ensures Context(items + [x]) == Context(items) + HitSeparator + Render(x)
  {
    assert Blocks(items + [x]) == Blocks(items) + [Render(x)];
    Text.JoinSnoc(HitSeparator, Blocks(items), Render(x));
  }

  /** The context of n >= 1 hits is their blocks plus n - 1 separators long. */
  lemma ContextLength(items: seq<Item>)
    requires |items| >= 1
    ensures |Context(items)| == Text.TotalLength(Blocks(items)) + (|items| - 1) * |HitSeparator|
  {
    Text.JoinLength(HitSeparator, Blocks(items));
  }
}
