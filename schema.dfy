/** The pydantic schemas of src/schema.py as values of the dynamic model:
    what `model_dump()` gives for a search result, and a section model. */
module Schema {
  import opened Wrappers
  import opened Py

  /** An optional string field: `None` or the string. */
  function OptionalText(v: Option<string>): Scalar
  {
    match v
    case None => Null
    case Some(s) => Str(s)
  }

  /** `SearchResult(...).model_dump()`: every one of the four fields is a key,
      an unset field holding `None`; the score is carried as its text. */
  function SearchResultItem(title: Option<string>, url: Option<string>, content: Option<string>, score: Option<string>): (item: Item)
    ensures item.Keys == {"title", "url", "content", "score"}
  {
    map["title" := OptionalText(title), "url" := OptionalText(url), "content" := OptionalText(content),
        "score" := match score case None => Null case Some(s) => Num(s)]
  }

  /** A `Section` model: its six fields are its attributes. */
  function SectionModel(title: string, description: string, requireResearch: bool,
                        searchQueries: seq<string>, searchResults: seq<Item>, sectionContext: string): (r: Record)
    ensures r.Model? && r.attrs.Keys == {"title", "description", "require_research", "search_queries", "search_results", "section_context"}
  {
    Model(map[
      "title" := Atom(Str(title)),
      "description" := Atom(Str(description)),
      "require_research" := Atom(Bool(requireResearch)),
      "search_queries" := Strings(searchQueries),
      "search_results" := Items(searchResults),
      "section_context" := Atom(Str(sectionContext))])
  }

  /** The fields a section's rendering reads hold the values it was built with. */
  lemma SectionModelFields(title: string, description: string, requireResearch: bool,
                           searchQueries: seq<string>, searchResults: seq<Item>, sectionContext: string)
    ensures var r := SectionModel(title, description, requireResearch, searchQueries, searchResults, sectionContext);
      && GetAttr(r, "title", Atom(Str(""))) == Atom(Str(title))
      && GetAttr(r, "description", Atom(Str(""))) == Atom(Str(description))
      && GetAttr(r, "section_context", Atom(Str(""))) == Atom(Str(sectionContext))
      && GetAttr(r, "require_research", Atom(Bool(false))) == Atom(Bool(requireResearch))
  {
  }
}
