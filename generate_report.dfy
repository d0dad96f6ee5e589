/** The deterministic part of the `generate_report` node
    (src/nodes/generate_report.py): the defaults for missing state and
    configuration, the choice of the sections that need no research, and the
    two texts rendered from the sections, up to the point where they are
    formatted into the prompt. Every field is read with
    `(getattr(s, name, '') or '').strip()`. */
module GenerateReport {
  import opened Wrappers
  import opened Py
  import Text
  import Schema

  /** `.strip()` applied to a truthy value that is not a string raises
      AttributeError; the attribute it was read from is recorded. */
  datatype Error = StripOnNonString(attribute: string)

  /** The state keys the node reads; either may be absent. */
  datatype ReportState = ReportState(researchedSections: Option<seq<Record>>, sections: Option<seq<Record>>)

  /** The run configuration: its `configurable` dict may be absent. */
  datatype RunConfig = RunConfig(configurable: Option<map<string, string>>)

  /** The three values the prompt is formatted with. */
  datatype ReportInputs = ReportInputs(template: string, sectionWithContext: string, sectionWithoutContext: string)

  /** The `getattr` default for the rendered fields. */
  const EmptyText: Value := Atom(Str(""))

  /** `(getattr(s, name, '') or '').strip()`. */
  function FieldText(s: Record, name: string): (r: Result<string, Error>)
    ensures r.Ok? ==> r.value == [] || (!Text.IsSpace(r.value[0]) && !Text.IsSpace(r.value[|r.value| - 1]))
    ensures var v := GetAttr(s, name, EmptyText);
      r.Err? <==> Truthy(v) && !(v.Atom? && v.a.Str?)
  {
    var v := GetAttr(s, name, EmptyText);
    if !Truthy(v) then Ok("")
    else
      match v
      case Atom(Str(t)) => Ok(Text.Strip(t))
      case _ => Err(StripOnNonString(name))
  }

  /** `getattr(s, "require_research", False)`, read for its truthiness. */
  predicate RequiresResearch(s: Record)
  {
    Truthy(GetAttr(s, "require_research", Atom(Bool(false))))
  }

  /** The three lines of a block: `Title: <title>`, `Description: <description>`
      and `<title> section context: <context>`. */
  function BlockText(title: string, description: string, context: string): string
  {
    Text.Join("\n", ["Title: " + title, "Description: " + description, title + " section context: " + context])
  }

  /** A block spelled out as one string. */
  lemma BlockTextShape(title: string, description: string, context: string)
    ensures BlockText(title, description, context)
      == "Title: " + title + "\n" + "Description: " + description + "\n" + title + " section context: " + context
  {
    Text.JoinThree("\n", "Title: " + title, "Description: " + description, title + " section context: " + context);
  }

  /** The block for one section, rendered with the section's context when
      `withContext` holds and with an empty context otherwise; an error raised
      reading the title, the description or the context, in that order. */
  function Block(s: Record, withContext: bool): Result<string, Error>
  {
    var title := FieldText(s, "title");
    var description := FieldText(s, "description");
    var context := if withContext then FieldText(s, "section_context") else Ok("");
    if title.Err? then Err(title.error)
    else if description.Err? then Err(description.error)
    else if context.Err? then Err(context.error)
    else Ok(BlockText(title.value, description.value, context.value))
  }

  /** The blocks of the sections in order, or the first error raised. */
  function Blocks(xs: seq<Record>, withContext: bool): (r: Result<seq<string>, Error>)
    ensures r.Ok? <==> forall i :: 0 <= i < |xs| ==> Block(xs[i], withContext).Ok?
    ensures r.Ok? ==> |r.value| == |xs|
    ensures r.Ok? ==> forall i :: 0 <= i < |xs| ==> r.value[i] == Block(xs[i], withContext).value
  {
    if xs == [] then Ok([])
    else
      var b :- Block(xs[0], withContext);
      var rest :- Blocks(xs[1..], withContext);
      Ok([b] + rest)
  }

  /** The blocks joined by a blank line. */
  function Joined(xs: seq<Record>, withContext: bool): Result<string, Error>
  {
    var blocks :- Blocks(xs, withContext);
    Ok(Text.Join("\n\n", blocks))
  }

  /** The sections whose `require_research` is false or absent, in order. */
  function Unresearched(sections: seq<Record>): (r: seq<Record>)
    ensures |r| <= |sections|
    ensures forall x :: x in r <==> x in sections && !RequiresResearch(x)
  {
    if sections == [] then []
    else
      var last := sections[|sections| - 1];
      var init := Unresearched(sections[..|sections| - 1]);
      assert forall x :: x in sections <==> x in sections[..|sections| - 1] || x == last;
      if RequiresResearch(last) then init else init + [last]
  }

  /** `configuration.get("document_template", "")` with
      `configuration = config.get("configurable", {})`. */
  function Template(config: RunConfig): string
  {
    match config.configurable
    case None => ""
    case Some(c) => if "document_template" in c then c["document_template"] else ""
  }

  /** The template is the configured `document_template` when there is one,
      and the empty string when either the `configurable` dict or its key is
      missing. */
  lemma TemplateDefaults(config: RunConfig)
    ensures config.configurable.Some? && "document_template" in config.configurable.value ==>
      Template(config) == config.configurable.value["document_template"]
    ensures config.configurable.None? || "document_template" !in config.configurable.value ==>
      Template(config) == ""
  {
  }

  /** The loop that collects `other_sections`. */
  method OtherSections(sections: seq<Record>) returns (others: seq<Record>)
    ensures others == Unresearched(sections)
  {
    others := [];
    for i := 0 to |sections|
      invariant others == Unresearched(sections[..i])
    {
      assert sections[..i + 1][..i] == sections[..i];
      var s := sections[i];
      if !RequiresResearch(s) {
        others := others + [s];
      }
    }
    assert sections[..|sections|] == sections;
  }

  /** The node up to the prompt: the template, the text of the researched
      sections with their context, and the text of the other sections
      without it. The first AttributeError raised, if any, is the result. */
  method GenerateReportInputs(st: ReportState, config: RunConfig) returns (r: Result<ReportInputs, Error>)
    ensures var researched := st.researchedSections.GetOr([]);
      var others := Unresearched(st.sections.GetOr([]));
      && (r.Ok? <==> Blocks(researched, true).Ok? && Blocks(others, false).Ok?)
      && (Blocks(researched, true).Err? ==> r == Err(Blocks(researched, true).error))
      && (Blocks(researched, true).Ok? && Blocks(others, false).Err? ==> r == Err(Blocks(others, false).error))
      && (r.Ok? ==> r.value == ReportInputs(Template(config), Joined(researched, true).value, Joined(others, false).value))
    ensures st.researchedSections.None? && st.sections.None? ==> r == Ok(ReportInputs(Template(config), "", ""))
    ensures config.configurable.None? && r.Ok? ==> r.value.template == ""
  {
    var researchedSections := st.researchedSections.GetOr([]);
    var template := Template(config);
    var otherSections := OtherSections(st.sections.GetOr([]));
    var withContext :- Joined(researchedSections, true);
    var withoutContext :- Joined(otherSections, false);
    r := Ok(ReportInputs(template, withContext, withoutContext));
  }

  /** A field that is falsy (absent, `None`, empty, `False`, zero or an empty
      list) renders as the empty string through `or ''`, a string field as its
      stripped text; a plain dict has no attributes, so all of its fields
      render empty. */
  lemma FieldTextDefaults(s: Record, name: string)
    ensures !Truthy(GetAttr(s, name, EmptyText)) ==> FieldText(s, name) == Ok("")
    ensures s.Model? && name !in s.attrs ==> FieldText(s, name) == Ok("")
    ensures s.Mapping? ==> FieldText(s, name) == Ok("")
    ensures s.Model? && name in s.attrs && s.attrs[name].Atom? && s.attrs[name].a.Str? ==>
      FieldText(s, name) == Ok(Text.Strip(s.attrs[name].a.s))
  {
  }

  /** Each block is three lines, `Title: `, `Description: ` and
      `<title> section context: <context>`, whenever its fields hold no line break. */
  lemma BlockLines(s: Record, withContext: bool)
    requires Block(s, withContext).Ok?
    ensures var title := FieldText(s, "title").value;
      var description := FieldText(s, "description").value;
      var context := if withContext then FieldText(s, "section_context").value else "";
      '\n' !in title && '\n' !in description && '\n' !in context ==>
        Text.Split(Block(s, withContext).value, '\n')
        == ["Title: " + title, "Description: " + description, title + " section context: " + context]
  {
    var title := FieldText(s, "title").value;
    var description := FieldText(s, "description").value;
    var context := if withContext then FieldText(s, "section_context").value else "";
    var lines := ["Title: " + title, "Description: " + description, title + " section context: " + context];
    assert Block(s, withContext).value == Text.Join("\n", lines);
    if '\n' !in title && '\n' !in description && '\n' !in context {
      assert forall i :: 0 <= i < |lines| ==> '\n' !in lines[i];
      Text.SplitJoin(lines, '\n');
    }
  }

  /** A block without context never reads `section_context`: sections that
      agree on title and description give the same block, and that block ends
      in ` section context: `. */
  lemma WithoutContextIgnoresContext(s1: Record, s2: Record)
    requires GetAttr(s1, "title", EmptyText) == GetAttr(s2, "title", EmptyText)
    requires GetAttr(s1, "description", EmptyText) == GetAttr(s2, "description", EmptyText)
    ensures Block(s1, false) == Block(s2, false)
    ensures Block(s1, false).Ok? ==> Text.EndsWith(Block(s1, false).value, " section context: ")
  {
    if Block(s1, false).Ok? {
      var title := FieldText(s1, "title").value;
      var description := FieldText(s1, "description").value;
      BlockOfFields(s1, false, title, description, "");
      BlockTextShape(title, description, "");
      var head := "Title: " + title + "\n" + "Description: " + description + "\n" + title;
      assert BlockText(title, description, "") == head + " section context: ";
      Text.EndsWithAppend(head, " section context: ");
    }
  }

  /** The block of a section whose fields read as `title`, `description` and,
      when the context is rendered, `context`. */
  lemma BlockOfFields(s: Record, withContext: bool, title: string, description: string, context: string)
    requires FieldText(s, "title") == Ok(title)
    requires FieldText(s, "description") == Ok(description)
    requires withContext ==> FieldText(s, "section_context") == Ok(context)
    ensures Block(s, withContext) == Ok(BlockText(title, description, if withContext then context else ""))
  {
  }

  /** An attribute holding a string renders as that string stripped. */
  lemma StringField(s: Record, name: string, t: string)
    requires GetAttr(s, name, EmptyText) == Atom(Str(t))
    ensures FieldText(s, name) == Ok(Text.Strip(t))
  {
    var v := GetAttr(s, name, EmptyText);
    if t == "" {
      assert !Truthy(v);
      Text.StripEmpty();
    } else {
      assert Truthy(v);
    }
  }

  /** Sections given as plain dicts, as `search_web` returns them, have no
      attributes: they count as not needing research and render with empty
      title, description and context. */
  lemma DictSectionsRenderEmpty(entries: map<string, Value>, withContext: bool)
    ensures !RequiresResearch(Mapping(entries))
    ensures Block(Mapping(entries), withContext) == Ok("Title: \n" + "Description: \n" + " section context: ")
  {
    var s := Mapping(entries);
    assert FieldText(s, "title") == Ok("");
    assert FieldText(s, "description") == Ok("");
    assert FieldText(s, "section_context") == Ok("");
    BlockOfFields(s, withContext, "", "", "");
    EmptyBlockText();
  }

  /** The block of a section whose fields are all empty. */
  lemma EmptyBlockText()
    ensures BlockText("", "", "") == "Title: \n" + "Description: \n" + " section context: "
  {
    var t, d, c := "Title: ", "Description: ", " section context: ";
    assert t + "" == t && d + "" == d && "" + c + "" == c;
    assert BlockText("", "", "") == Text.Join("\n", [t, d, c]);
    Text.JoinThree("\n", t, d, c);
    assert t + "\n" == "Title: \n";
    assert d + "\n" == "Description: \n";
    assert t + "\n" + d + "\n" == (t + "\n") + (d + "\n");
  }

  /** A `Section` model is selected by its `require_research` flag and
      renders its stripped title, description and context. */
  lemma SectionModelRenders(title: string, description: string, requireResearch: bool,
                            searchQueries: seq<string>, searchResults: seq<Item>, sectionContext: string)
    ensures var s := Schema.SectionModel(title, description, requireResearch, searchQueries, searchResults, sectionContext);
      && RequiresResearch(s) == requireResearch
      && Block(s, true) == Ok(BlockText(Text.Strip(title), Text.Strip(description), Text.Strip(sectionContext)))
      && Block(s, false) == Ok(BlockText(Text.Strip(title), Text.Strip(description), ""))
  {
    var s := Schema.SectionModel(title, description, requireResearch, searchQueries, searchResults, sectionContext);
    Schema.SectionModelFields(title, description, requireResearch, searchQueries, searchResults, sectionContext);
    StringField(s, "title", title);
    StringField(s, "description", description);
    StringField(s, "section_context", sectionContext);
    BlockOfFields(s, true, Text.Strip(title), Text.Strip(description), Text.Strip(sectionContext));
    BlockOfFields(s, false, Text.Strip(title), Text.Strip(description), "");
  }

  /** Appending a section whose block renders appends that block. */
  lemma BlocksSnoc(xs: seq<Record>, x: Record, withContext: bool)
    requires Blocks(xs, withContext).Ok? && Block(x, withContext).Ok?
    ensures Blocks(xs + [x], withContext) == Ok(Blocks(xs, withContext).value + [Block(x, withContext).value])
  {
    var ys := xs + [x];
    forall i | 0 <= i < |ys| ensures Block(ys[i], withContext).Ok? {
      if i < |xs| { assert ys[i] == xs[i]; }
    }
    var bs := Blocks(xs, withContext).value + [Block(x, withContext).value];
    var cs := Blocks(ys, withContext).value;
    forall i | 0 <= i < |ys| ensures cs[i] == bs[i] {
      if i < |xs| { assert ys[i] == xs[i]; }
    }
    assert cs == bs;
  }

  /** No sections give the empty text; one section gives its block alone; one
      more section adds a blank line and its block at the end. */
  lemma {:induction false} JoinedBlocks(xs: seq<Record>, x: Record, withContext: bool)
    ensures Joined([], withContext) == Ok("")
    ensures Joined([x], withContext) == Block(x, withContext)
    ensures |xs| >= 1 && Joined(xs, withContext).Ok? && Block(x, withContext).Ok? ==>
      Joined(xs + [x], withContext) == Ok(Joined(xs, withContext).value + "\n\n" + Block(x, withContext).value)
  {
    if |xs| >= 1 && Joined(xs, withContext).Ok? && Block(x, withContext).Ok? {
      BlocksSnoc(xs, x, withContext);
      Text.JoinSnoc("\n\n", Blocks(xs, withContext).value, Block(x, withContext).value);
    }
  }

  /** Selecting the unresearched sections distributes over concatenation, so
      the selection keeps the input order. */
  lemma {:induction false} UnresearchedAppend(a: seq<Record>, b: seq<Record>)
    ensures Unresearched(a + b) == Unresearched(a) + Unresearched(b)
  {
    if b != [] {
      var b' := b[..|b| - 1];
      assert (a + b)[..|a + b| - 1] == a + b';
      UnresearchedAppend(a, b');
      assert (a + b)[|a + b| - 1] == b[|b| - 1];
    } else {
      assert a + b == a;
    }
  }

  /** A single section is kept exactly when it does not require research. */
  lemma UnresearchedSingle(s: Record)
    ensures Unresearched([s]) == if RequiresResearch(s) then [] else [s]
  {
    assert [s][..0] == [];
  }
}
