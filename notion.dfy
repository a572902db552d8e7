/**
 * The two payloads the sync driver exchanges with the task store:
 * the (partial) JSON of a database query response, which it reads, and the
 * property map of a new page, which it writes.
 */
module Notion {
  import opened Wrappers

  // ---------------------------------------------------------------------------
  // What a database query returns (only the keys the driver looks at)
  // ---------------------------------------------------------------------------

  /** The `text` object of a rich-text span; `content` may be absent. */
  datatype TextObject = TextObject(content: Option<string>)

  /** One rich-text span of a title; its `text` object may be absent (e.g. a mention). */
  datatype RichText = RichText(text: Option<TextObject>)

  /** A property value of a stored page; only a title property carries `title`. */
  datatype PropertyValue = PropertyValue(title: Option<seq<RichText>>)

  /** One entry of `results`: a stored page and its `properties` object. */
  datatype QueryResult = QueryResult(properties: map<string, PropertyValue>)

  /** The HTTP status of the query and the `results` array of its body, if present. */
  datatype QueryResponse = QueryResponse(status: int, results: Option<seq<QueryResult>>)

  /** The status the driver treats as success. */
  const HttpOk: int := 200

  /** Names of the database's properties the driver uses. */
  const NameKey: string := "Name"
  const CourseKey: string := "Course"
  const DueDateKey: string := "Due date"

  // ---------------------------------------------------------------------------
  // What a page-creation call sends
  // ---------------------------------------------------------------------------

  /** A `"type": "text"` span carrying its content and the URL it links to. */
  datatype TitleSpan = TitleSpan(content: string, link: string)

  /** The three property shapes the driver writes. */
  datatype PageProperty =
    | Title(spans: seq<TitleSpan>)   // "type": "title"
    | Relation(ids: seq<string>)     // "type": "relation", one {"id": …} per element
    | Date(start: string)            // "type": "date", {"start": …}

  /** A page to create: the parent database id and the property map. */
  datatype Page = Page(parentDatabase: string, properties: map<string, PageProperty>)

  // ---------------------------------------------------------------------------
  // How the store shows a created page in later query results
  // ---------------------------------------------------------------------------

  /** A written property as a later query returns it: title spans keep their content. */
  function AsPropertyValue(p: PageProperty): PropertyValue
  {
    match p
    case Title(spans) => PropertyValue(Some(seq(|spans|, i requires 0 <= i < |spans| => RichText(Some(TextObject(Some(spans[i].content)))))))
    case Relation(_) => PropertyValue(None)
    case Date(_) => PropertyValue(None)
  }

  /** A created page as it appears among the `results` of a later query. */
  function AsQueryResult(page: Page): QueryResult
  {
    QueryResult(map k | k in page.properties :: AsPropertyValue(page.properties[k]))
  }
}
