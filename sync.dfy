/**
 * The sync driver (`main`): for each configured course, fetch the course's
 * assignments, look up the titles already filed under the course once, and
 * create a task page for every assignment whose name is not among them.
 *
 * The remote services are inputs (`Env`) and every call the driver issues is
 * an entry of the returned log, in the order it is issued.
 */
module Sync {
  import opened Wrappers
  import opened Notion
  import opened TitleLookup

  /** One configuration entry: a Canvas course id and the Notion course page it relates to. */
  datatype CourseMapping = CourseMapping(canvasId: string, relationId: string)

  /** An assignment as the Canvas client exposes it. */
  datatype Assignment = Assignment(name: string, htmlUrl: string, dueAt: Option<string>)

  /**
   * The remote side of a run. `canvas` gives each course's assignments; a course
   * absent from it is one whose fetch raises. `store` gives the response of the
   * titles query for each relation id; an id absent from it is one whose request
   * raises. `databaseId` is the configured task database.
   */
  datatype Env = Env(
    databaseId: string,
    canvas: map<string, seq<Assignment>>,
    store: map<string, QueryResponse>)

  /** The remote calls the driver issues. */
  datatype Call =
    | FetchAssignments(courseId: string)                  // get_course, then get_assignments
    | QueryTitles(databaseId: string, relationId: string) // the filtered database query
    | CreatePage(page: Page)                              // pages.create

  /** How a run ends: configuration file missing, all courses done, or a call raised. */
  datatype Outcome = ConfigMissing | Completed | Aborted(mapping: CourseMapping)

  // ---------------------------------------------------------------------------
  // Page construction
  // ---------------------------------------------------------------------------

  /**
   * The page created for an assignment: a Name title span holding the name and
   * linking to the URL, a Course relation to the course page, and a Due date
   * exactly when the assignment has a due timestamp; no other property.
   */
  function NewPage(databaseId: string, a: Assignment, relationId: string): (page: Page)
    ensures page.parentDatabase == databaseId
    ensures page.properties.Keys == {NameKey, CourseKey} + (if a.dueAt.Some? then {DueDateKey} else {})
    ensures page.properties[NameKey] == Title([TitleSpan(a.name, a.htmlUrl)])
    ensures page.properties[CourseKey] == Relation([relationId])
    ensures DueDateKey in page.properties <==> a.dueAt.Some?
    ensures a.dueAt.Some? ==> page.properties[DueDateKey] == Date(a.dueAt.value)
  {
    var base := map[NameKey := Title([TitleSpan(a.name, a.htmlUrl)]), CourseKey := Relation([relationId])];
    Page(databaseId, if a.dueAt.Some? then base[DueDateKey := Date(a.dueAt.value)] else base)
  }

  /** Reads an assignment and its course back out of a page of the shape `NewPage` builds. */
  function ReadBack(page: Page): Option<(Assignment, string)>
  {
    if NameKey in page.properties && page.properties[NameKey].Title? && |page.properties[NameKey].spans| == 1
       && CourseKey in page.properties && page.properties[CourseKey].Relation?
       && |page.properties[CourseKey].ids| == 1
       && (DueDateKey in page.properties ==> page.properties[DueDateKey].Date?)
    then
      var span := page.properties[NameKey].spans[0];
      var due := if DueDateKey in page.properties then Some(page.properties[DueDateKey].start) else None;
      Some((Assignment(span.content, span.link, due), page.properties[CourseKey].ids[0]))
    else None
  }

  /** A built page loses nothing: name, URL, due date and course can all be read back. */
  lemma PageRoundTrip(databaseId: string, a: Assignment, relationId: string)
    ensures ReadBack(NewPage(databaseId, a, relationId)) == Some((a, relationId))
  {
  }

  /** A created page, once returned by a later query, yields the assignment's name as its title. */
  lemma StoredPageTitle(databaseId: string, a: Assignment, relationId: string)
    ensures Contribution(AsQueryResult(NewPage(databaseId, a, relationId))) == [a.name]
  {
  }

  // ---------------------------------------------------------------------------
  // The skip/create decision for one course
  // ---------------------------------------------------------------------------

  /** The assignments not yet in the store: those whose name is not among `titles`, in order. */
  function Missing(assignments: seq<Assignment>, titles: seq<string>): (r: seq<Assignment>)
    ensures |r| <= |assignments|
  {
    if assignments == [] then []
    else
      var last := assignments[|assignments| - 1];
      Missing(assignments[..|assignments| - 1], titles) + if last.name in titles then [] else [last]
  }

  /** One create call per assignment, in order, each with the page built for it. */
  function CreateCalls(databaseId: string, relationId: string, assignments: seq<Assignment>): (calls: seq<Call>)
    ensures |calls| == |assignments|
  {
    seq(|assignments|, i requires 0 <= i < |assignments| => CreatePage(NewPage(databaseId, assignments[i], relationId)))
  }

  /** The names of a sequence of assignments. */
  function Names(assignments: seq<Assignment>): (names: seq<string>)
    ensures |names| == |assignments|
  {
    seq(|assignments|, i requires 0 <= i < |assignments| => assignments[i].name)
  }

  /**
   * The inner loop of `main`: skip every assignment whose name is already a
   * title, and create a page for each of the others.
   */
  method CreateMissing(databaseId: string, relationId: string, assignments: seq<Assignment>, titles: seq<string>)
    returns (created: seq<Call>)
    ensures created == CreateCalls(databaseId, relationId, Missing(assignments, titles))
    ensures |created| <= |assignments|
  {
    created := [];
    for i := 0 to |assignments|
      invariant created == CreateCalls(databaseId, relationId, Missing(assignments[..i], titles))
    {
      assert assignments[..i + 1][..i] == assignments[..i];
      ghost var before := Missing(assignments[..i], titles);
      var assignment := assignments[i];
      if assignment.name in titles {
        continue;
      }
      var page := NewPage(databaseId, assignment, relationId);
      assert CreateCalls(databaseId, relationId, before + [assignment]) ==
             CreateCalls(databaseId, relationId, before) + [CreatePage(page)];
      created := created + [CreatePage(page)];
    }
    assert assignments[..|assignments|] == assignments;
  }

  /** An assignment is created iff it is one of the course's assignments and its name is not a title. */
  lemma {:induction false} MissingMembers(assignments: seq<Assignment>, titles: seq<string>, a: Assignment)
    ensures a in Missing(assignments, titles) <==> a in assignments && a.name !in titles
    decreases |assignments|
  {
    if assignments != [] {
      var n := |assignments| - 1;
      MissingMembers(assignments[..n], titles, a);
      assert assignments == assignments[..n] + [assignments[n]];
    }
  }

  /**
   * The created assignments keep provider order: `positions` gives, strictly
   * increasing, where each comes from, and every assignment whose name is not
   * a title is among them.
   */
  lemma {:induction false} MissingInOrder(assignments: seq<Assignment>, titles: seq<string>) returns (positions: seq<nat>)
    ensures |positions| == |Missing(assignments, titles)|
    ensures forall k :: 0 <= k < |positions| ==>
              positions[k] < |assignments| && Missing(assignments, titles)[k] == assignments[positions[k]]
    ensures forall k, l :: 0 <= k < l < |positions| ==> positions[k] < positions[l]
    ensures forall j :: 0 <= j < |assignments| && assignments[j].name !in titles ==> j in positions
    decreases |assignments|
  {
    if assignments == [] {
      positions := [];
    } else {
      var n := |assignments| - 1;
      var front := assignments[..n];
      var earlier := MissingInOrder(front, titles);
      var last := assignments[n];
      var tail := if last.name in titles then [] else [n];
      var missing, before := Missing(assignments, titles), Missing(front, titles);
      assert missing == before + if last.name in titles then [] else [last];
      positions := earlier + tail;
      forall k, l | 0 <= k < l < |positions|
        ensures positions[k] < positions[l]
      {
        assert positions[k] == earlier[k] && earlier[k] < n;
        if l < |earlier| {
          assert positions[l] == earlier[l];
        }
      }
      forall k | 0 <= k < |positions|
        ensures positions[k] < |assignments| && missing[k] == assignments[positions[k]]
      {
        if k < |earlier| {
          assert positions[k] == earlier[k] && missing[k] == before[k];
          assert front[earlier[k]] == assignments[earlier[k]];
        }
      }
      forall j | 0 <= j < |assignments| && assignments[j].name !in titles
        ensures j in positions
      {
        if j < n {
          assert front[j] == assignments[j];
          assert j in earlier;
        }
      }
    }
  }

  /**
   * Titles are fetched once and never extended, so every copy of an assignment
   * whose name is not a title is created — two same-named ones both are — and
   * no copy of one whose name is a title.
   */
  lemma {:induction false} MissingCount(assignments: seq<Assignment>, titles: seq<string>, a: Assignment)
    ensures multiset(Missing(assignments, titles))[a] == if a.name in titles then 0 else multiset(assignments)[a]
    decreases |assignments|
  {
    if assignments != [] {
      var n := |assignments| - 1;
      var front, last := assignments[..n], assignments[n];
      MissingCount(front, titles, a);
      assert assignments == front + [last];
      assert multiset(assignments) == multiset(front) + multiset{last};
      var tail := if last.name in titles then [] else [last];
      assert Missing(assignments, titles) == Missing(front, titles) + tail;
      assert multiset(Missing(assignments, titles)) == multiset(Missing(front, titles)) + multiset(tail);
    }
  }

  /** With no titles known (a failed lookup), every assignment of the course is created. */
  lemma {:induction false} NoTitlesCreatesAll(assignments: seq<Assignment>)
    ensures Missing(assignments, []) == assignments
    decreases |assignments|
  {
    if assignments != [] {
      var n := |assignments| - 1;
      NoTitlesCreatesAll(assignments[..n]);
      assert assignments == assignments[..n] + [assignments[n]];
    }
  }

  /** When every assignment's name is already a title, nothing is created. */
  lemma {:induction false} AllKnownCreatesNothing(assignments: seq<Assignment>, titles: seq<string>)
    requires forall i :: 0 <= i < |assignments| ==> assignments[i].name in titles
    ensures Missing(assignments, titles) == []
    decreases |assignments|
  {
    if assignments != [] {
      AllKnownCreatesNothing(assignments[..|assignments| - 1], titles);
    }
  }

  /** The pages created for some assignments, as a later query lists them. */
  function StoredPages(databaseId: string, relationId: string, assignments: seq<Assignment>): (results: seq<QueryResult>)
    ensures |results| == |assignments|
  {
    seq(|assignments|, i requires 0 <= i < |assignments| => AsQueryResult(NewPage(databaseId, assignments[i], relationId)))
  }

  /** A later query over the pages created for some assignments yields exactly their names. */
  lemma StoredPagesTitles(databaseId: string, relationId: string, assignments: seq<Assignment>)
    ensures ExtractTitles(StoredPages(databaseId, relationId, assignments)) == Names(assignments)
  {
    var stored, names := StoredPages(databaseId, relationId, assignments), Names(assignments);
    forall i | 0 <= i < |stored|
      ensures Contribution(stored[i]) == [names[i]]
    {
      StoredPageTitle(databaseId, assignments[i], relationId);
    }
    EveryResultTitled(stored, names);
  }

  /**
   * Re-running a course creates nothing: if the second lookup succeeds and its
   * results hold every title the first lookup knew (`kept`) followed by the
   * pages the first run created, no assignment is missing any more.
   */
  lemma RerunCreatesNothing(databaseId: string, relationId: string, assignments: seq<Assignment>,
                            first: QueryResponse, kept: seq<QueryResult>)
    requires forall t :: t in Titles(first) ==> t in ExtractTitles(kept)
    ensures var created := Missing(assignments, Titles(first));
            var second := QueryResponse(HttpOk, Some(kept + StoredPages(databaseId, relationId, created)));
            Missing(assignments, Titles(second)) == []
  {
    var known := Titles(first);
    var created := Missing(assignments, known);
    var stored := StoredPages(databaseId, relationId, created);
    var titles := Titles(QueryResponse(HttpOk, Some(kept + stored)));
    ExtractTitlesAppend(kept, stored);
    StoredPagesTitles(databaseId, relationId, created);
    assert titles == ExtractTitles(kept) + Names(created);
    forall i | 0 <= i < |assignments|
      ensures assignments[i].name in titles
    {
      var a := assignments[i];
      if a.name in known {
        assert a.name in ExtractTitles(kept);
      } else {
        MissingMembers(assignments, known, a);
        assert a in created;
        NameOfMember(created, a);
      }
    }
    AllKnownCreatesNothing(assignments, titles);
  }

  /** The name of a member of a sequence of assignments is among their names. */
  lemma NameOfMember(assignments: seq<Assignment>, a: Assignment)
    requires a in assignments
    ensures a.name in Names(assignments)
  {
    var k :| 0 <= k < |assignments| && assignments[k] == a;
    assert Names(assignments)[k] == a.name;
  }

  // ---------------------------------------------------------------------------
  // One course, and the whole run
  // ---------------------------------------------------------------------------

  /**
   * The calls issued for one course, and whether the course completed: the
   * assignments are fetched (a failure ends the run), the titles are queried
   * once (a raised request ends the run), then the missing assignments are created.
   */
  function CourseCalls(env: Env, m: CourseMapping): (r: (seq<Call>, bool))
  {
    var fetch := [FetchAssignments(m.canvasId)];
    if m.canvasId !in env.canvas then (fetch, false)
    else
      var query := fetch + [QueryTitles(env.databaseId, m.relationId)];
      if m.relationId !in env.store then (query, false)
      else
        var titles := Titles(env.store[m.relationId]);
        (query + CreateCalls(env.databaseId, m.relationId, Missing(env.canvas[m.canvasId], titles)), true)
  }

  /** The calls of a run over some mappings, and how it ended; a course that fails ends the run. */
  function RunCalls(env: Env, mappings: seq<CourseMapping>): (r: (seq<Call>, Outcome))
    ensures r.1 != ConfigMissing
  {
    if mappings == [] then ([], Completed)
    else Extend(env, RunCalls(env, mappings[..|mappings| - 1]), mappings[|mappings| - 1])
  }

  /** One more mapping after a run: nothing if the run already ended, else that course's calls. */
  function Extend(env: Env, earlier: (seq<Call>, Outcome), last: CourseMapping): (r: (seq<Call>, Outcome))
    ensures earlier.1 != ConfigMissing ==> r.1 != ConfigMissing
  {
    if earlier.1 != Completed then earlier
    else
      var course := CourseCalls(env, last);
      (earlier.0 + course.0, if course.1 then Completed else Aborted(last))
  }

  /** A whole run: nothing at all without a configuration, otherwise the mappings in order. */
  function RunSpec(config: Option<seq<CourseMapping>>, env: Env): (seq<Call>, Outcome)
  {
    match config
    case None => ([], ConfigMissing)
    case Some(mappings) => RunCalls(env, mappings)
  }

  /** One iteration of the outer loop of `main`. */
  method SyncCourse(env: Env, m: CourseMapping) returns (calls: seq<Call>, ok: bool)
    ensures (calls, ok) == CourseCalls(env, m)
    ensures |calls| >= 1 && calls[0] == FetchAssignments(m.canvasId)
  {
    calls := [FetchAssignments(m.canvasId)];
    if m.canvasId !in env.canvas {
      return calls, false;
    }
    var assignments := env.canvas[m.canvasId];
    calls := calls + [QueryTitles(env.databaseId, m.relationId)];
    if m.relationId !in env.store {
      return calls, false;
    }
    var titles := GetTitles(env.store[m.relationId]);
    var created := CreateMissing(env.databaseId, m.relationId, assignments, titles);
    calls := calls + created;
    ok := true;
  }

  /** An aborted run issues nothing further, whatever mappings follow. */
  lemma {:induction false} AbortIsFinal(env: Env, before: seq<CourseMapping>, after: seq<CourseMapping>)
    requires RunCalls(env, before).1 != Completed
    ensures RunCalls(env, before + after) == RunCalls(env, before)
    decreases |after|
  {
    if after != [] {
      var n := |after| - 1;
      var all := before + after;
      assert all[..|all| - 1] == before + after[..n];
      AbortIsFinal(env, before, after[..n]);
      assert RunCalls(env, all[..|all| - 1]) == RunCalls(env, before);
    } else {
      assert before + after == before;
    }
  }

  /**
   * `main` with the configuration file already read (`None`: the file is
   * missing, and the run returns at once without calling anything).
   */
  method Run(config: Option<seq<CourseMapping>>, env: Env) returns (log: seq<Call>, outcome: Outcome)
    ensures (log, outcome) == RunSpec(config, env)
    ensures config.None? <==> outcome == ConfigMissing
  {
    if config.None? {
      return [], ConfigMissing;
    }
    var mappings := config.value;
    log := [];
    for i := 0 to |mappings|
      invariant RunCalls(env, mappings[..i]) == (log, Completed)
    {
      assert mappings[..i + 1][..i] == mappings[..i];
      var calls, ok := SyncCourse(env, mappings[i]);
      log := log + calls;
      if !ok {
        outcome := Aborted(mappings[i]);
        AbortIsFinal(env, mappings[..i + 1], mappings[i + 1..]);
        assert mappings[..i + 1] + mappings[i + 1..] == mappings;
        return;
      }
    }
    assert mappings[..|mappings|] == mappings;
    outcome := Completed;
  }

  /** Without a configuration file there is no lookup and no create call, and the run ends normally. */
  lemma MissingConfigNoCalls(env: Env)
    ensures RunSpec(None, env) == ([], ConfigMissing)
  {
  }

  /** The per-course logs of the mappings, concatenated in configuration order. */
  function ConcatCourseLogs(env: Env, mappings: seq<CourseMapping>): seq<Call>
  {
    if mappings == [] then [] else CourseCalls(env, mappings[0]).0 + ConcatCourseLogs(env, mappings[1..])
  }

  /** Every course of the mappings can be fetched and queried. */
  predicate AllReachable(env: Env, mappings: seq<CourseMapping>)
  {
    forall i :: 0 <= i < |mappings| ==> mappings[i].canvasId in env.canvas && mappings[i].relationId in env.store
  }

  /** The run over some mappings followed by one more is the `Extend` of the shorter run. */
  lemma RunCallsLast(env: Env, front: seq<CourseMapping>, last: CourseMapping)
    ensures RunCalls(env, front + [last]) == Extend(env, RunCalls(env, front), last)
  {
    assert (front + [last])[..|front|] == front;
  }

  /** Extending a run whose log has some calls in front keeps those calls in front. */
  lemma ExtendAfter(env: Env, before: seq<Call>, earlier: (seq<Call>, Outcome), last: CourseMapping)
    ensures Extend(env, (before + earlier.0, earlier.1), last) ==
            (before + Extend(env, earlier, last).0, Extend(env, earlier, last).1)
  {
    if earlier.1 == Completed {
      var course := CourseCalls(env, last);
      assert before + earlier.0 + course.0 == before + (earlier.0 + course.0);
    }
  }

  /** Running two lists of mappings back to back is the run over their concatenation. */
  lemma {:induction false} RunAppend(env: Env, a: seq<CourseMapping>, b: seq<CourseMapping>)
    requires RunCalls(env, a).1 == Completed
    ensures RunCalls(env, a + b) == (RunCalls(env, a).0 + RunCalls(env, b).0, RunCalls(env, b).1)
    decreases |b|
  {
    if b == [] {
      assert a + b == a;
      assert RunCalls(env, a).0 + [] == RunCalls(env, a).0;
    } else {
      var n := |b| - 1;
      var front, last := b[..n], b[n];
      assert b == front + [last];
      assert a + b == (a + front) + [last];
      RunAppend(env, a, front);
      RunCallsLast(env, a + front, last);
      RunCallsLast(env, front, last);
      ExtendAfter(env, RunCalls(env, a).0, RunCalls(env, front), last);
    }
  }

  /** When every course is reachable the run completes, and its log is the per-course logs in order. */
  lemma {:induction false} RunIsConcatenation(env: Env, mappings: seq<CourseMapping>)
    requires AllReachable(env, mappings)
    ensures RunCalls(env, mappings) == (ConcatCourseLogs(env, mappings), Completed)
    decreases |mappings|
  {
    if mappings != [] {
      var single := [mappings[0]];
      assert RunCalls(env, single) == (CourseCalls(env, mappings[0]).0, Completed) by {
        RunCallsLast(env, [], mappings[0]);
        assert [] + [mappings[0]] == single;
        assert mappings[0].canvasId in env.canvas && mappings[0].relationId in env.store;
        assert CourseCalls(env, mappings[0]).1;
        assert [] + CourseCalls(env, mappings[0]).0 == CourseCalls(env, mappings[0]).0;
      }
      RunIsConcatenation(env, mappings[1..]);
      RunAppend(env, single, mappings[1..]);
      assert single + mappings[1..] == mappings;
    }
  }

  /** The number of title queries in a log. */
  function QueryCount(log: seq<Call>): nat
  {
    if log == [] then 0 else (if log[0].QueryTitles? then 1 else 0) + QueryCount(log[1..])
  }

  /** Query counts add up over concatenated logs. */
  lemma {:induction false} QueryCountAppend(a: seq<Call>, b: seq<Call>)
    ensures QueryCount(a + b) == QueryCount(a) + QueryCount(b)
    decreases |a|
  {
    if a != [] {
      assert (a + b)[1..] == a[1..] + b;
      QueryCountAppend(a[1..], b);
    } else {
      assert a + b == b;
    }
  }

  /** Create calls hold no titles query. */
  lemma {:induction false} CreateCallsHaveNoQuery(databaseId: string, relationId: string, assignments: seq<Assignment>)
    ensures QueryCount(CreateCalls(databaseId, relationId, assignments)) == 0
    decreases |assignments|
  {
    if assignments != [] {
      assert CreateCalls(databaseId, relationId, assignments)[1..] == CreateCalls(databaseId, relationId, assignments[1..]);
      CreateCallsHaveNoQuery(databaseId, relationId, assignments[1..]);
    }
  }

  /** A completed run queries the titles exactly once per configured course. */
  lemma {:induction false} OneQueryPerCourse(env: Env, mappings: seq<CourseMapping>)
    requires RunCalls(env, mappings).1 == Completed
    ensures QueryCount(RunCalls(env, mappings).0) == |mappings|
    decreases |mappings|
  {
    if mappings != [] {
      var n := |mappings| - 1;
      var m := mappings[n];
      OneQueryPerCourse(env, mappings[..n]);
      var course := CourseCalls(env, m);
      var titles := Titles(env.store[m.relationId]);
      var creates := CreateCalls(env.databaseId, m.relationId, Missing(env.canvas[m.canvasId], titles));
      CreateCallsHaveNoQuery(env.databaseId, m.relationId, Missing(env.canvas[m.canvasId], titles));
      QueryCountAppend([FetchAssignments(m.canvasId), QueryTitles(env.databaseId, m.relationId)], creates);
      assert QueryCount([FetchAssignments(m.canvasId), QueryTitles(env.databaseId, m.relationId)]) == 1 by {
        assert [FetchAssignments(m.canvasId), QueryTitles(env.databaseId, m.relationId)][1..] ==
               [QueryTitles(env.databaseId, m.relationId)];
        assert [QueryTitles(env.databaseId, m.relationId)][1..] == [];
      }
      QueryCountAppend(RunCalls(env, mappings[..n]).0, course.0);
    }
  }

  /**
   * The log of a course that completes: the fetch, one title query, then one
   * create call per missing assignment, in provider order, with the page
   * built for it under the course's relation and the configured database.
   */
  lemma CourseLog(env: Env, m: CourseMapping)
    requires m.canvasId in env.canvas && m.relationId in env.store
    ensures var missing := Missing(env.canvas[m.canvasId], Titles(env.store[m.relationId]));
            var calls := CourseCalls(env, m).0;
            && CourseCalls(env, m).1
            && |calls| == 2 + |missing|
            && calls[0] == FetchAssignments(m.canvasId)
            && calls[1] == QueryTitles(env.databaseId, m.relationId)
            && forall k :: 0 <= k < |missing| ==>
                calls[2 + k] == CreatePage(NewPage(env.databaseId, missing[k], m.relationId))
  {
    var missing := Missing(env.canvas[m.canvasId], Titles(env.store[m.relationId]));
    var creates := CreateCalls(env.databaseId, m.relationId, missing);
    var calls := CourseCalls(env, m).0;
    assert calls == [FetchAssignments(m.canvasId), QueryTitles(env.databaseId, m.relationId)] + creates;
    forall k | 0 <= k < |missing|
      ensures calls[2 + k] == CreatePage(NewPage(env.databaseId, missing[k], m.relationId))
    {
      assert calls[2 + k] == creates[k];
    }
  }
}
