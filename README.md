# Research-paper generation pipeline: the deterministic data shaping

The repository wires a LangGraph graph around a chat model and the Tavily
search client. The graph plans a paper's sections, fans them out to a section
writer, and joins the drafts into a final report. A research sub-agent forms
search queries for a section, searches the web and attaches the findings to the
section. A report node renders all sections into the inputs of one prompt.
This project models, in Dafny, the code of the repository's own that decides
what goes where:

- **`search_web`** (module `WebResearch`). It runs one search per query and keeps
  the responses in query order. It flattens the hits of the responses that are
  dicts and renders every hit as a markdown block, using the defaults
  `Untitled`, `N/A`, `#` and the empty string. The blocks are joined with
  `\n\n---\n\n`. The section is copied into a dict, and its three research keys
  are set while every other key is left as it was. The node returns the update
  whose `researched_sections` is that one dict.
- **`generate_report`** up to the prompt (module `GenerateReport`). It fills in
  defaults for missing state and configuration. It keeps the sections that do
  not require research, in order. It renders each section as a three-line block
  of stripped fields read with `getattr`. A plain dict has no attributes, so
  a dict section renders with empty fields and never counts as requiring
  research. A truthy field that is not a string makes `.strip()` raise; that
  error is modelled.
- **The top-level graph** (module `Agent`). The router `assign_to_section_writer`
  sends one `write_section` dispatch per section. The nodes and edges are
  constants. The path lemmas are about the declared edges, not about runs.
  With an empty `sections` list the router sends nothing. The run then stops
  after `generate_sections` and never writes `final_report`.
- **The state channels** (module `State`). Every channel is overwritten, except
  `completed_sections`, whose reducer is `operator.add`. Each `write_section`
  instance contributes a one-element list.
- **`synthesizer`** (module `Synthesizer`): the final report is the drafts joined
  by `\n`.

Supporting modules: `Wrappers` (Option, Result), `Text` (Python's `strip`,
`join` and `split` on `seq<char>`), `Py` (the Python values these nodes
handle: scalars, search hits, section dicts, and section objects that are
either pydantic models or plain dicts), and `Schema` (the models of
src/schema.py as such values).

External calls are parameters or stop points. `client.search` is the function
parameter `search` of `WebResearch.SearchWeb`. `GenerateReport.GenerateReportInputs`
ends where the prompt is formatted and the model is invoked. The drafts that
`write_section` produces are inputs to the `State` lemmas.

## Model

| member | source | states |
|---|---|---|
| `WebResearch.CollectResponses` | src/nodes/research_agent/nodes/web_research.py:22-26 | exactly one response per query, the i-th being the search of the i-th query |
| `WebResearch.FlattenResults` | src/nodes/research_agent/nodes/web_research.py:28-32 | the loop's result is the hits of the dict responses concatenated in response order (`Flatten`) |
| `WebResearch.FlattenAppend` | src/nodes/research_agent/nodes/web_research.py:28-32 | flattening distributes over concatenation of the responses, so hits keep the order of their responses |
| `WebResearch.FlattenLength` | src/nodes/research_agent/nodes/web_research.py:28-32 | the flattened list is as long as the sum of the `results` lengths of the responses |
| `WebResearch.FlattenSkips` | src/nodes/research_agent/nodes/web_research.py:30-32 | a non-dict response, or a dict without `results`, contributes nothing wherever it stands |
| `WebResearch.FlattenMembership` | src/nodes/research_agent/nodes/web_research.py:28-32 | a hit is flattened if and only if some response carries it |
| `WebResearch.Heading` | src/nodes/research_agent/nodes/web_research.py:35 | definition of the heading line `### <title>`; its defaults are stated by `WebResearch.RenderDefaults` |
| `WebResearch.LinkLine` | src/nodes/research_agent/nodes/web_research.py:36 | definition of the link line `**URL:** [<url>](<url>)`; its defaults are stated by `WebResearch.RenderDefaults` |
| `WebResearch.Render` | src/nodes/research_agent/nodes/web_research.py:35-37 | definition of a hit's block; its properties are in `WebResearch.RenderDefaults`, `WebResearch.ContextSmall` and `WebResearch.ContextSnoc` |
| `WebResearch.RenderDefaults` | src/nodes/research_agent/nodes/web_research.py:35-37 | absent `title` renders `### Untitled`, a present `None` title renders `### None`, absent `url` renders `[N/A](#)`, absent `content` leaves the body empty |
| `WebResearch.ContextSmall` | src/nodes/research_agent/nodes/web_research.py:34-39 | no hits give the empty context, one hit gives its block alone |
| `WebResearch.ContextSnoc` | src/nodes/research_agent/nodes/web_research.py:34-39 | one more hit appends exactly the separator `\n\n---\n\n` and its block |
| `WebResearch.ContextLength` | src/nodes/research_agent/nodes/web_research.py:34-39 | the context of n >= 1 hits is as long as their blocks plus n - 1 separators |
| `WebResearch.EnrichSection` | src/nodes/research_agent/nodes/web_research.py:41-53 | the dict holds the section's keys plus the three research keys; those three hold the queries, the hits and the context whatever the section held; every other key is unchanged |
| `WebResearch.SearchWeb` | src/nodes/research_agent/nodes/web_research.py:16-60 | the returned hits are the flattened responses of the queries and the context is rendered from them; no queries give no hits and an empty context; the section is enriched as above; `researched_sections` is a one-element list holding that section dict |
| `GenerateReport.FieldText` | src/nodes/generate_report.py:85-87 | a field renders stripped, with no leading or trailing whitespace, and it fails exactly when the attribute is truthy and not a string |
| `GenerateReport.FieldTextDefaults` | src/nodes/generate_report.py:85-87 | any falsy attribute (absent, `None`, empty, `False`, zero, an empty list) renders as `""` through `or ''`; a dict section renders every field as `""`; a string attribute renders stripped |
| `GenerateReport.StringField` | src/nodes/generate_report.py:85-87 | an attribute holding a string renders as that string stripped, the empty string included |
| `GenerateReport.RequiresResearch` | src/nodes/generate_report.py:78 | definition of `getattr(s, "require_research", False)` read for truthiness; its properties are in `GenerateReport.UnresearchedSingle`, `GenerateReport.DictSectionsRenderEmpty` and `GenerateReport.SectionModelRenders` |
| `GenerateReport.Unresearched` | src/nodes/generate_report.py:76-79 | the kept sections are exactly those of the input whose `require_research` is false or absent |
| `GenerateReport.UnresearchedAppend` | src/nodes/generate_report.py:76-79 | the selection distributes over concatenation, so it keeps the input order |
| `GenerateReport.UnresearchedSingle` | src/nodes/generate_report.py:77-79 | one section is kept exactly when it does not require research |
| `GenerateReport.OtherSections` | src/nodes/generate_report.py:76-79 | the loop builds exactly `Unresearched` of the sections |
| `GenerateReport.BlockText` | src/nodes/generate_report.py:83-88 | definition of the three lines joined by `\n`; its properties are in `GenerateReport.BlockTextShape` and `GenerateReport.BlockLines` |
| `GenerateReport.Block` | src/nodes/generate_report.py:83-101 | definition of one section's block, with context (lines 83-88) or without it (lines 96-101), failing on the title, description or context in that order; its properties are in `GenerateReport.BlockLines`, `GenerateReport.WithoutContextIgnoresContext` and `GenerateReport.DictSectionsRenderEmpty` |
| `GenerateReport.Blocks` | src/nodes/generate_report.py:81-92 | rendering succeeds if and only if every section's block does; then there is one block per section, in order |
| `GenerateReport.BlocksSnoc` | src/nodes/generate_report.py:81-92 | one more section whose block renders appends exactly that block to the rendered list |
| `GenerateReport.JoinedBlocks` | src/nodes/generate_report.py:81-92 | no sections give `""`, one section gives its block, one more section appends `\n\n` and its block |
| `GenerateReport.BlockTextShape` | src/nodes/generate_report.py:84-88 | a block is `Title: <t>`, a line break, `Description: <d>`, a line break, `<t> section context: <c>` |
| `GenerateReport.BlockLines` | src/nodes/generate_report.py:83-89 | when no field holds a line break, a block splits into exactly its three lines |
| `GenerateReport.WithoutContextIgnoresContext` | src/nodes/generate_report.py:94-105 | sections that agree on title and description give the same block without context, whatever their `section_context`, and that block ends with ` section context: ` |
| `GenerateReport.DictSectionsRenderEmpty` | src/nodes/generate_report.py:76-88 | a dict section never requires research and renders as `Title: \nDescription: \n section context: ` |
| `GenerateReport.SectionModelRenders` | src/nodes/generate_report.py:76-100 | a `Section` model is selected by its flag and renders its stripped title, description and context |
| `GenerateReport.Template` | src/nodes/generate_report.py:72-74 | definition of the template lookup; its cases are stated by `GenerateReport.TemplateDefaults` |
| `GenerateReport.TemplateDefaults` | src/nodes/generate_report.py:72-74 | the template is the configured `document_template` when present, and `""` when the `configurable` dict or its key is missing |
| `GenerateReport.GenerateReportInputs` | src/nodes/generate_report.py:65-105 | absent `researched_sections`/`sections` count as empty and an absent template as `""`; the result fails with the first rendering error, a researched section's before an unresearched one's, otherwise it holds the template and the two joined texts |
| `State.Apply` | src/state.py:13-17 | definition of folding one update into the state with each channel's reducer; its properties are in `State.ApplyChannels` |
| `State.ApplyAll` | src/state.py:13-17 | definition of folding the updates in arrival order; its properties are in `State.MergeWriteSections` and `State.MergeOrderInsensitive` |
| `State.ApplyChannels` | src/state.py:13-17 | `topic`, `sections` and `final_report` take a written value and keep their own otherwise; `completed_sections` becomes the old list followed by the written list |
| `State.MergeWriteSections` | src/state.py:16 | folding N one-element `write_section` updates appends exactly those N drafts in arrival order and changes no other channel |
| `State.MergeOrderInsensitive` | src/state.py:16 | any two arrival orders of the same drafts give the same multiset of drafts, grown by N, and equal other channels |
| `Agent.AssignToSectionWriter` | src/agent.py:11-12 | one dispatch per section, in section order; each targets `write_section` and its payload holds only the key `section`, bound to that section |
| `Agent.DispatchesCarrySections` | src/agent.py:12 | reading the payloads back gives the planned sections |
| `Agent.RouterTargetsDeclared` | src/agent.py:11-26 | every dispatch targets a node the conditional edge declares |
| `Agent.StepFollowsPipeline` | src/agent.py:19-29 | a node can be followed only by its successor on START, generate_sections, write_section, synthesize_sections, END |
| `Agent.OnlyPath` | src/agent.py:19-29 | a path from START to END exists if and only if it is that pipeline |
| `Agent.GraphIsClosed` | src/agent.py:19-29 | every registered node lies on the pipeline, and every edge joins registered nodes, START or END |
| `Synthesizer.Synthesize` | src/nodes/synthesizer.py:5-12 | the update writes `final_report` and no other channel |
| `Synthesizer.ReportShape` | src/nodes/synthesizer.py:10 | no drafts give `""`, one draft gives it unchanged, n >= 1 drafts give a report as long as the drafts plus n - 1 |
| `Synthesizer.ReportLines` | src/nodes/synthesizer.py:10 | when no draft holds a line break, the report's lines are the drafts in order; joining its lines again gives the report |
| `Synthesizer.SynthesizeKeepsDrafts` | src/nodes/synthesizer.py:8-12 | applying the update sets the report and leaves `completed_sections`, the sections and the topic as they were |
| `Text.Strip` | src/nodes/generate_report.py:85 | the result is the middle of the string after a whitespace run is cut from each end, and it neither starts nor ends with whitespace; whitespace is the set `str.isspace` accepts |
| `Text.StripEmpty` | src/nodes/generate_report.py:85 | stripping the empty string gives the empty string |
| `Text.StripIdempotent` | src/nodes/generate_report.py:85 | stripping twice is stripping once |
| `Text.Join` | src/nodes/synthesizer.py:10 | definition of `sep.join(parts)`; its properties are in `Text.JoinThree`, `Text.JoinLength`, `Text.JoinSnoc`, `Text.JoinSplit` and `Text.SplitJoin` |
| `Text.JoinLength` | src/nodes/synthesizer.py:10 | a join of n >= 1 parts is as long as the parts plus n - 1 separators |
| `Text.JoinSnoc` | src/nodes/generate_report.py:81 | appending a part to a non-empty join appends one separator and the part |
| `Text.JoinSplit` | src/nodes/synthesizer.py:10 | joining the pieces of a one-character split gives the string back |
| `Text.SplitJoin` | src/nodes/synthesizer.py:10 | splitting a one-character join of separator-free parts gives the parts back |
| `Schema.SearchResultItem` | src/schema.py:6-12 | a dumped search result holds exactly the keys title, url, content and score |
| `Schema.SectionModel` | src/schema.py:16-31 | a section model has exactly the six schema fields as attributes |
| `Schema.SectionModelFields` | src/schema.py:16-31 | the title, description, context and research flag read back as the values the model was built with |

## Left out

- The chat-model calls and all prompt text are not modelled: `init_chat_model`, `invoke`/`ainvoke`, and the prompt constants with their `.format`. They are foreign provider calls and literal text.
- The Tavily client and its configuration are not modelled: `load_dotenv`, `os.getenv`, `max_results=5` and `topic="general"`. They are network and environment I/O. The function `search` stands for the whole call, so the bound of five hits is not modelled.
- The LangGraph engine is not modelled: `StateGraph`, `compile`, `Send` delivery, scheduling, barrier joins and cancellation belong to the library. `State.ApplyAll` folds updates one after another in a given arrival order. Which order the engine picks is not modelled; the order-insensitivity lemma covers all of them.
- generate_sections.py, generate_queries.py and write_section.py are prompt construction plus one model call and are not modelled. Only the one-element list that write_section.py:83 returns is used (`State.WriteSectionUpdate`).
- research_agent.py is a three-edge library wiring and configuration.py is a constant template; neither is modelled.
- A search response's `results` value is taken to be a list of dicts whose values are strings, numbers, booleans or `None`. A `results` value that is not a list, or a hit that is not a dict, makes the source raise; that is not modelled.
- Numbers such as `score` are carried only as the text `str()` gives them; there is no float arithmetic. A number counts as falsy when that text is `0`, `0.0` or `-0.0`.
- Rendering a list or dict through an f-string is not modelled: hit values are scalars, and the three section fields of interest are rendered through `FieldText`.
- Nested pydantic models inside a section are represented in the form `model_dump` gives them. A `state["section"]` that is neither a model nor a dict is not modelled.
- `getattr` on a plain dict is modelled as always missing. That holds for the attribute names these nodes ask for (`title`, `description`, `section_context`, `require_research`), not for dict methods such as `items`.
- `WebResearch.SearchWeb` and `Agent.AssignToSectionWriter` assume the keys `search_queries`, `section` and `sections` are present. A missing key raises `KeyError` in the source, and that path is not modelled.
- `completed_sections` is declared as a list of `Section` in src/state.py, but `write_section` writes strings into it, so the model holds strings. web_research.py imports `ResearchAgentState` from src/state.py, which does not define it. The model takes the keys the node reads and leaves the import out.
- async/await in `write_section` and `synthesizer` is left out; it changes nothing in the sequential meaning.
