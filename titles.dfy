/**
 * Existing-titles lookup (`get_titles`): turning the response of the filtered
 * database query into the titles already filed under one course.
 */
module TitleLookup {
  import opened Wrappers
  import opened Notion

  /** The result's `Name` property; an absent key reads as an empty object. */
  function NameProperty(r: QueryResult): PropertyValue
  {
    if NameKey in r.properties then r.properties[NameKey] else PropertyValue(None)
  }

  /** The `title` list of the Name property is present and non-empty (it is truthy). */
  predicate HasTitle(r: QueryResult)
  {
    NameProperty(r).title.Some? && |NameProperty(r).title.value| > 0
  }

  /** The `content` of a span's `text` object, with `""` for an absent `text` or `content`. */
  function SpanContent(span: RichText): string
  {
    span.text.GetOr(TextObject(None)).content.GetOr("")
  }

  /** The title of a titled result: the content of the first span, later spans unread. */
  function FirstSpanContent(r: QueryResult): string
    requires HasTitle(r)
  {
    SpanContent(NameProperty(r).title.value[0])
  }

  /** What one result adds to the titles: one title if it has one, nothing otherwise. */
  function Contribution(r: QueryResult): seq<string>
  {
    if HasTitle(r) then [FirstSpanContent(r)] else []
  }

  /** The titles of a list of results, accumulated from the front as the loop does. */
  function ExtractTitles(results: seq<QueryResult>): (titles: seq<string>)
    ensures |titles| <= |results|
  {
    if results == [] then []
    else ExtractTitles(results[..|results| - 1]) + Contribution(results[|results| - 1])
  }

  /** What the lookup yields for a response: the results' titles on 200, and no titles otherwise. */
  function Titles(response: QueryResponse): seq<string>
  {
    if response.status == HttpOk then ExtractTitles(response.results.GetOr([])) else []
  }

  /**
   * get_titles with the HTTP request replaced by its response: loop over
   * `results` (an absent key is an empty list) and append each titled
   * result's first-span content.
   */
  method GetTitles(response: QueryResponse) returns (titles: seq<string>)
    ensures titles == Titles(response)
    ensures response.status != HttpOk ==> titles == []
    ensures |titles| <= |response.results.GetOr([])|
  {
    titles := [];
    if response.status == HttpOk {
      var results := response.results.GetOr([]);
      for i := 0 to |results|
        invariant titles == ExtractTitles(results[..i])
      {
        assert results[..i + 1][..i] == results[..i];
        var titleProperty := NameProperty(results[i]);
        if titleProperty.title.Some? && |titleProperty.title.value| > 0 {
          var title := SpanContent(titleProperty.title.value[0]);
          titles := titles + [title];
        }
      }
      assert results[..|results|] == results;
    }
  }

  /** A failed query (any status but 200) is read as "no titles known" — fail-open. */
  lemma FailOpen(response: QueryResponse)
    requires response.status != HttpOk
    ensures Titles(response) == []
  {
  }

  /** Titles of concatenated result lists concatenate. */
  lemma {:induction false} ExtractTitlesAppend(a: seq<QueryResult>, b: seq<QueryResult>)
    ensures ExtractTitles(a + b) == ExtractTitles(a) + ExtractTitles(b)
    decreases |b|
  {
    if b == [] {
      assert a + b == a;
    } else {
      var n := |b| - 1;
      assert (a + b)[..|a + b| - 1] == a + b[..n];
      assert (a + b)[|a + b| - 1] == b[n];
      ExtractTitlesAppend(a, b[..n]);
    }
  }

  /** Results that each carry one known title yield exactly those titles, in order. */
  lemma {:induction false} EveryResultTitled(results: seq<QueryResult>, titles: seq<string>)
    requires |results| == |titles|
    requires forall i :: 0 <= i < |results| ==> Contribution(results[i]) == [titles[i]]
    ensures ExtractTitles(results) == titles
    decreases |results|
  {
    if results != [] {
      var n := |results| - 1;
      var front := results[..n];
      forall i | 0 <= i < n
        ensures Contribution(front[i]) == [titles[..n][i]]
      {
        assert front[i] == results[i];
      }
      EveryResultTitled(front, titles[..n]);
      assert Contribution(results[n]) == [titles[n]];
      assert ExtractTitles(results) == ExtractTitles(front) + Contribution(results[n]);
      assert titles == titles[..n] + [titles[n]];
    }
  }

  /** The indices of the titled results, in increasing order. */
  ghost function TitledPositions(results: seq<QueryResult>): seq<nat>
  {
    if results == [] then []
    else
      var n := |results| - 1;
      TitledPositions(results[..n]) + if HasTitle(results[n]) then [n] else []
  }

  /** Every listed position is a titled result, and the positions increase. */
  lemma {:induction false} TitledPositionsIncrease(results: seq<QueryResult>)
    ensures forall k :: 0 <= k < |TitledPositions(results)| ==>
              TitledPositions(results)[k] < |results| && HasTitle(results[TitledPositions(results)[k]])
    ensures forall k, l :: 0 <= k < l < |TitledPositions(results)| ==>
              TitledPositions(results)[k] < TitledPositions(results)[l]
    decreases |results|
  {
    if results != [] {
      var n := |results| - 1;
      var front := results[..n];
      TitledPositionsIncrease(front);
      var earlier, positions := TitledPositions(front), TitledPositions(results);
      assert positions == earlier + if HasTitle(results[n]) then [n] else [];
      forall k | 0 <= k < |positions|
        ensures positions[k] < |results| && HasTitle(results[positions[k]])
      {
        if k < |earlier| {
          assert positions[k] == earlier[k] && front[earlier[k]] == results[earlier[k]];
        }
      }
      forall k, l | 0 <= k < l < |positions|
        ensures positions[k] < positions[l]
      {
        assert positions[k] == earlier[k] && earlier[k] < n;
        if l < |earlier| {
          assert positions[l] == earlier[l];
        }
      }
    }
  }

  /** The k-th title is the first-span content of the result at the k-th titled position. */
  lemma {:induction false} TitledPositionsMatch(results: seq<QueryResult>)
    ensures |TitledPositions(results)| == |ExtractTitles(results)|
    ensures forall k :: 0 <= k < |TitledPositions(results)| ==>
              TitledPositions(results)[k] < |results| && HasTitle(results[TitledPositions(results)[k]]) &&
              ExtractTitles(results)[k] == FirstSpanContent(results[TitledPositions(results)[k]])
    decreases |results|
  {
    TitledPositionsIncrease(results);
    if results != [] {
      var n := |results| - 1;
      var front := results[..n];
      TitledPositionsMatch(front);
      var earlier, positions := TitledPositions(front), TitledPositions(results);
      var before, titles := ExtractTitles(front), ExtractTitles(results);
      assert positions == earlier + if HasTitle(results[n]) then [n] else [];
      assert titles == before + Contribution(results[n]);
      forall k | 0 <= k < |positions|
        ensures titles[k] == FirstSpanContent(results[positions[k]])
      {
        if k < |earlier| {
          assert positions[k] == earlier[k] && titles[k] == before[k];
          assert front[earlier[k]] == results[earlier[k]];
        }
      }
    }
  }

  /** Every titled result is at one of the titled positions. */
  lemma {:induction false} TitledPositionsCover(results: seq<QueryResult>)
    ensures forall j :: 0 <= j < |results| && HasTitle(results[j]) ==> j in TitledPositions(results)
    decreases |results|
  {
    if results != [] {
      var n := |results| - 1;
      var front := results[..n];
      TitledPositionsCover(front);
      var earlier, positions := TitledPositions(front), TitledPositions(results);
      assert positions == earlier + if HasTitle(results[n]) then [n] else [];
      forall j | 0 <= j < |results| && HasTitle(results[j])
        ensures j in positions
      {
        if j < n {
          assert front[j] == results[j];
          assert j in earlier;
        }
      }
    }
  }

  /**
   * The titles are the first-span contents of exactly the titled results, in
   * result order: `positions` lists, strictly increasing, the index of the
   * result each title comes from, and every titled result is listed.
   */
  lemma TitlesInResultOrder(results: seq<QueryResult>) returns (positions: seq<nat>)
    ensures |positions| == |ExtractTitles(results)|
    ensures forall k :: 0 <= k < |positions| ==>
              positions[k] < |results| && HasTitle(results[positions[k]]) &&
              ExtractTitles(results)[k] == FirstSpanContent(results[positions[k]])
    ensures forall k, l :: 0 <= k < l < |positions| ==> positions[k] < positions[l]
    ensures forall j :: 0 <= j < |results| && HasTitle(results[j]) ==> j in positions
  {
    positions := TitledPositions(results);
    TitledPositionsIncrease(results);
    TitledPositionsMatch(results);
    TitledPositionsCover(results);
  }


  /** Results whose Name title is absent or empty add nothing, wherever they stand. */
  lemma UntitledSkipped(before: seq<QueryResult>, r: QueryResult, after: seq<QueryResult>)
    requires !HasTitle(r)
    ensures ExtractTitles(before + [r] + after) == ExtractTitles(before + after)
  {
    var single := ExtractTitles([r]);
    assert single == [] by {
      assert [r][..0] == [];
      assert single == ExtractTitles([]) + Contribution(r);
    }
    ExtractTitlesAppend(before + [r], after);
    ExtractTitlesAppend(before, [r]);
    ExtractTitlesAppend(before, after);
  }

  /**
   * A titled result contributes the content of its first span whatever the
   * later spans hold, and `""` when that span lacks `text` or `content`.
   */
  lemma FirstSpanOnly(props: map<string, PropertyValue>, first: RichText, later: seq<RichText>)
    ensures Contribution(QueryResult(props[NameKey := PropertyValue(Some([first] + later))])) ==
            [if first.text.Some? && first.text.value.content.Some? then first.text.value.content.value else ""]
  {
  }
}
