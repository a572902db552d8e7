# Canvas-to-Notion assignment sync, modelled in Dafny

`assignment_enterer.py` copies the assignments of the configured Canvas
courses into a Notion to-do database. For each configuration entry
(a Canvas course id and the id of the Notion course page), it does three things:

1. It fetches the course's assignments from Canvas.
2. It queries the database once for the titles already filed under that
   course page.
3. It creates a page for every assignment whose name is not among those
   titles. The page has a linked title, a relation to the course page, and a
   due date when the assignment has one.

This project models that decision logic:

- `wrappers.dfy` (`Wrappers`): `Option`, and `GetOr`, which stands for Python's `dict.get(key, default)`.
- `notion.dfy` (`Notion`): the parts of the query response the driver reads, and
  the property map of a new page. It also gives `AsQueryResult`, the model's
  assumption of how the store lists a created page in a later query. Only the
  re-run lemmas use that assumption.
- `titles.dfy` (`TitleLookup`): `get_titles`. `GetTitles` is the loop over
  `results`, proved equal to the function `Titles`. The lemmas cover
  fail-open on a non-200 status, result order, skipped untitled results, and
  the first-span-only rule.
- `sync.dfy` (`Sync`): page construction (`NewPage`), the skip/create inner
  loop (`CreateMissing`), one course (`SyncCourse`) and the whole of `main`
  (`Run`). Each method is proved equal to a specification function (`Missing`
  with `CreateCalls`, `CourseCalls`, `RunSpec`). The lemmas about those
  functions state the properties.
- `scenarios.dfy` (`Scenarios`): whole runs on concrete inputs. Either HW1 is
  already stored, or the lookup returns status 500, or the course cannot be
  fetched.

The remote services are inputs, held in an `Env` value:

- `canvas` maps a course id to its assignments. A course that is absent is one
  whose fetch raises.
- `store` maps a relation id to the response of the titles query. An id that is
  absent is one whose request raises.
- `databaseId` is `NOTION_DB_ID`.

Every remote call the driver makes is an entry of the returned log, in the
order it is made. The entries are `FetchAssignments`, `QueryTitles` and
`CreatePage`. The configuration file arrives already read, as
`Option<seq<CourseMapping>>`; `None` means the file is missing.

The code fetches `titles` once and never extends it
(assignment_enterer.py:89), so two same-named assignments that are both absent
from `titles` are both created; `Sync.MissingCount` states this.

## Model

| member | source | states |
|---|---|---|
| `TitleLookup.GetTitles` | assignment_enterer.py:49-68 | The loop returns exactly the titles `Titles` assigns to the response. A non-200 status gives no titles. There are never more titles than results, and an absent `results` key counts as an empty list. |
| `TitleLookup.ExtractTitles` | assignment_enterer.py:59-63 | A list of results yields at most one title per result. |
| `TitleLookup.FailOpen` | assignment_enterer.py:56-68 | Any status other than 200 yields no titles. |
| `TitleLookup.TitlesInResultOrder` | assignment_enterer.py:59-63 | The titles are the first-span contents of exactly the results whose Name title is present and non-empty. They come in result order: a strictly increasing index map, which lists every titled result. |
| `TitleLookup.TitledPositionsIncrease` | assignment_enterer.py:59-63 | The indices of the titled results are strictly increasing, and each one points at a result whose Name title is present and non-empty. |
| `TitleLookup.TitledPositionsMatch` | assignment_enterer.py:59-63 | There are as many titled indices as titles, and the k-th title is the first-span content of the result at the k-th titled index. |
| `TitleLookup.TitledPositionsCover` | assignment_enterer.py:59-63 | Every result whose Name title is present and non-empty is at one of the titled indices. |
| `TitleLookup.UntitledSkipped` | assignment_enterer.py:60-61 | A result with a missing or empty `Name.title` adds nothing, wherever it stands in the list. |
| `TitleLookup.FirstSpanOnly` | assignment_enterer.py:62 | A titled result contributes the `content` of its first span, or `""` when `text` or `content` is absent. Later spans do not matter. |
| `TitleLookup.EveryResultTitled` | assignment_enterer.py:59-63 | Results that each carry one title yield exactly those titles, in order. |
| `TitleLookup.ExtractTitlesAppend` | assignment_enterer.py:59-63 | The titles of two concatenated result lists are the concatenation of their titles. |
| `Sync.NewPage` | assignment_enterer.py:99-121 | The parent is the configured database. The properties are exactly Name and Course, plus Due date iff `due_at` is not None. Name is one text span with the assignment's name, linked to its URL. Course is the relation `[course_notion_id]`. Due date starts at `due_at`. |
| `Sync.PageRoundTrip` | assignment_enterer.py:99-119 | From a built page, reading back its name, URL, due date and course relation gives the original assignment and relation id. |
| `Sync.StoredPageTitle` | assignment_enterer.py:62 | A created page, listed by a later query, yields exactly the assignment's name as its title. |
| `Sync.Missing` | assignment_enterer.py:92-96 | The assignments left to create are never more than the course's assignments. |
| `Sync.CreateMissing` | assignment_enterer.py:92-121 | The inner loop issues one create call per assignment whose name is not in `titles`. The calls come in provider order, each with the page `NewPage` builds under the course's relation. |
| `Sync.MissingMembers` | assignment_enterer.py:94-96 | An assignment is created iff it is one of the course's assignments and its name is not in `titles`. So an assignment whose name is in `titles` gets no create call. |
| `Sync.MissingInOrder` | assignment_enterer.py:92-96 | The created assignments keep provider order: a strictly increasing index map into the assignments, covering every assignment whose name is not a title. |
| `Sync.MissingCount` | assignment_enterer.py:89-96 | Each copy of an assignment whose name is not a title is created, so two same-named ones are both created. No copy of one whose name is a title is created. |
| `Sync.NoTitlesCreatesAll` | assignment_enterer.py:94 | With no known titles, which is what a failed lookup gives, every assignment is created, in order. |
| `Sync.AllKnownCreatesNothing` | assignment_enterer.py:94-96 | When every assignment's name is already a title, nothing is created. |
| `Sync.StoredPagesTitles` | assignment_enterer.py:59-63 | A later query that lists the pages created for some assignments yields exactly those assignments' names. |
| `Sync.RerunCreatesNothing` | assignment_enterer.py:89-96 | Re-running a course creates nothing when the second lookup succeeds and lists the earlier known titles followed by the pages the first run created. |
| `Sync.SyncCourse` | assignment_enterer.py:79-121 | One course's calls are, in order: fetch the assignments, query the titles once, then create the missing assignments. A fetch or query that raises ends the course. The first call is always the fetch. |
| `Sync.CourseLog` | assignment_enterer.py:84-121 | A course that completes logs the fetch, one titles query for its relation under the configured database, then exactly one create call per missing assignment, in provider order. |
| `Sync.Run` | assignment_enterer.py:70-121 | The whole run's log and outcome are `RunSpec`'s. The outcome is `ConfigMissing` exactly when the configuration is missing. |
| `Sync.MissingConfigNoCalls` | assignment_enterer.py:72-77 | Without the configuration file the run makes no lookup and no create call, and it ends normally. |
| `Sync.AbortIsFinal` | assignment_enterer.py:84-89 | Once a course's fetch or query has raised, no further mappings add calls. |
| `Sync.RunAppend` | assignment_enterer.py:79 | Running two lists of mappings one after the other, when the first completes, logs the calls of each in turn. |
| `Sync.RunIsConcatenation` | assignment_enterer.py:79-121 | When every course can be fetched and queried, the run completes. Its log is the per-course logs concatenated in configuration order. |
| `Sync.OneQueryPerCourse` | assignment_enterer.py:89 | A completed run queries the titles exactly once per configured course. |
| `Scenarios.KnownTitleSkipped` | assignment_enterer.py:79-121 | Course 1001 has HW1 (due) and HW2 (no due date), and the lookup returns HW1. The run logs the fetch, the query and one create call, for HW2, and that page has no Due date. |
| `Scenarios.FailedLookupCreatesBoth` | assignment_enterer.py:56-68 | The lookup returns status 500. Both HW1 and HW2 get create calls, in order. |
| `Scenarios.FetchFailureStopsRun` | assignment_enterer.py:84-86 | A course that cannot be fetched ends the run after its fetch. There is no lookup and nothing for later courses. |

## Left out

- HTTP and client calls (`requests.post`, `canvas.get_course`, `course.get_assignments`, `notion.pages.create`): they are foreign network calls. Their answers are the `Env` input, and the calls are log entries.
- `get_course` and `get_assignments` are one log entry, `FetchAssignments`, and one failure point, placed before the titles query. The model does not tell which of the two raised.
- `Sync.SyncCourse` and `Scenarios.FetchFailureStopsRun` do not capture that the listing from `get_assignments` is fetched lazily, when the loop at line 92 iterates it. In the source, a listing that raises does so after the titles query, or after some `pages.create` calls when a later page of the listing fails. The model puts every Canvas failure before the query, so it cannot produce either of those logs.
- A failing `pages.create` is not modelled: every create call succeeds. In the source such a failure raises and ends the run.
- Lookup responses are fixed per relation id. A page created for one course is not seen by a later lookup of the same relation id in the same run, although the live store might list it.
- Environment and `.env` loading, the auth headers and the fixed base URL: they are configuration plumbing. Only `NOTION_DB_ID` appears, as `Env.databaseId`.
- Reading `course_ids.json` and catching `FileNotFoundError`: only the outcome is modelled, as `Option<seq<CourseMapping>>`. Entries without `canvas_id` or `notion_relation_id` are left out; in the source they raise `KeyError`.
- A result without a `properties` key (a `KeyError` in the source), a body that is not JSON, and a `content` holding JSON null: the model's types do not allow them.
- Console output (`print`), including the error line for a failed lookup: it is reporting only.
- The query-filter payload: it is a request sent to the remote store, with no local meaning.
- Pagination of either service: only the one page of query results that the source reads is modelled.
- The format of `due_at`: timestamps are passed through as opaque strings.
- The process exit status: a missing configuration ends with `ConfigMissing`, a normal return. The model has no exit codes.
- `Notion.AsQueryResult`: this is how the model assumes the store lists a created page. It is not code from the source. Only `StoredPageTitle`, `StoredPagesTitles` and `RerunCreatesNothing` rely on it.
