/** Whole runs on small concrete inputs: one course with two assignments, HW1 (due) and HW2 (no due date). */
module Scenarios {
  import opened Wrappers
  import opened Notion
  import opened TitleLookup
  import opened Sync

  const Hw1: Assignment := Assignment("HW1", "https://osu.instructure.com/courses/1001/assignments/1", Some("2024-05-01"))
  const Hw2: Assignment := Assignment("HW2", "https://osu.instructure.com/courses/1001/assignments/2", None)
  const Config: seq<CourseMapping> := [CourseMapping("1001", "rel-abc")]

  /** A stored page whose Name title is the single span `t`. */
  function StoredTitle(t: string): QueryResult
  {
    QueryResult(map[NameKey := PropertyValue(Some([RichText(Some(TextObject(Some(t))))]))])
  }

  /** The lookup returns HW1: exactly one page is created, for HW2, and it has no due date. */
  lemma KnownTitleSkipped(databaseId: string)
    ensures var env := Env(databaseId, map["1001" := [Hw1, Hw2]],
                           map["rel-abc" := QueryResponse(HttpOk, Some([StoredTitle("HW1")]))]);
            RunSpec(Some(Config), env) ==
              ([FetchAssignments("1001"), QueryTitles(databaseId, "rel-abc"),
                CreatePage(NewPage(databaseId, Hw2, "rel-abc"))], Completed)
    ensures DueDateKey !in NewPage(databaseId, Hw2, "rel-abc").properties
  {
    var env := Env(databaseId, map["1001" := [Hw1, Hw2]],
                   map["rel-abc" := QueryResponse(HttpOk, Some([StoredTitle("HW1")]))]);
    var results := [StoredTitle("HW1")];
    assert results[..0] == [];
    assert Titles(env.store["rel-abc"]) == ["HW1"];
    var assignments := [Hw1, Hw2];
    assert assignments[..1] == [Hw1];
    assert [Hw1][..0] == [];
    assert Missing(assignments, ["HW1"]) == [Hw2];
    assert CreateCalls(databaseId, "rel-abc", [Hw2]) == [CreatePage(NewPage(databaseId, Hw2, "rel-abc"))];
    assert env.canvas[Config[0].canvasId] == assignments;
    var creates := CreateCalls(databaseId, "rel-abc", Missing(assignments, Titles(env.store["rel-abc"])));
    assert [FetchAssignments("1001")] + [QueryTitles(databaseId, "rel-abc")] + creates ==
           [FetchAssignments("1001"), QueryTitles(databaseId, "rel-abc"), CreatePage(NewPage(databaseId, Hw2, "rel-abc"))];
    var course := CourseCalls(env, Config[0]);
    assert course == ([FetchAssignments("1001"), QueryTitles(databaseId, "rel-abc"),
                       CreatePage(NewPage(databaseId, Hw2, "rel-abc"))], true);
    RunCallsLast(env, [], Config[0]);
    assert [] + [Config[0]] == Config;
    assert [] + course.0 == course.0;
  }

  /** The lookup fails with status 500: no titles are known and both assignments are created. */
  lemma FailedLookupCreatesBoth(databaseId: string, body: Option<seq<QueryResult>>)
    ensures var env := Env(databaseId, map["1001" := [Hw1, Hw2]], map["rel-abc" := QueryResponse(500, body)]);
            RunSpec(Some(Config), env) ==
              ([FetchAssignments("1001"), QueryTitles(databaseId, "rel-abc"),
                CreatePage(NewPage(databaseId, Hw1, "rel-abc")),
                CreatePage(NewPage(databaseId, Hw2, "rel-abc"))], Completed)
  {
    var env := Env(databaseId, map["1001" := [Hw1, Hw2]], map["rel-abc" := QueryResponse(500, body)]);
    var course := CourseCalls(env, Config[0]);
    FailedLookupCourse(env, body);
    RunCallsLast(env, [], Config[0]);
    assert [] + [Config[0]] == Config;
    assert [] + course.0 == course.0;
  }

  /** The one course of the failed-lookup run: the fetch, the query, then both create calls. */
  lemma FailedLookupCourse(env: Env, body: Option<seq<QueryResult>>)
    requires env.canvas == map["1001" := [Hw1, Hw2]] && env.store == map["rel-abc" := QueryResponse(500, body)]
    ensures CourseCalls(env, Config[0]) ==
              ([FetchAssignments("1001"), QueryTitles(env.databaseId, "rel-abc"),
                CreatePage(NewPage(env.databaseId, Hw1, "rel-abc")),
                CreatePage(NewPage(env.databaseId, Hw2, "rel-abc"))], true)
  {
    var databaseId := env.databaseId;
    FailOpen(env.store["rel-abc"]);
    NoTitlesCreatesAll([Hw1, Hw2]);
    var creates := CreateCalls(databaseId, "rel-abc", Missing([Hw1, Hw2], []));
    assert creates == [CreatePage(NewPage(databaseId, Hw1, "rel-abc")), CreatePage(NewPage(databaseId, Hw2, "rel-abc"))];
    assert [FetchAssignments("1001")] + [QueryTitles(databaseId, "rel-abc")] + creates ==
           [FetchAssignments("1001"), QueryTitles(databaseId, "rel-abc"),
            CreatePage(NewPage(databaseId, Hw1, "rel-abc")), CreatePage(NewPage(databaseId, Hw2, "rel-abc"))];
  }

  /** A course whose assignments cannot be fetched ends the run before its lookup and before later courses. */
  lemma FetchFailureStopsRun(databaseId: string, later: seq<CourseMapping>)
    ensures var env := Env(databaseId, map[], map[]);
            RunSpec(Some(Config + later), env) == ([FetchAssignments("1001")], Aborted(Config[0]))
  {
    var env := Env(databaseId, map[], map[]);
    assert CourseCalls(env, Config[0]) == ([FetchAssignments("1001")], false);
    RunCallsLast(env, [], Config[0]);
    assert [] + [Config[0]] == Config;
    assert [] + [FetchAssignments("1001")] == [FetchAssignments("1001")];
    AbortIsFinal(env, Config, later);
  }
}
