/**
 The roadmap server actions: reading roadmaps with their steps (steps ordered
 by `step_order` and reduced to titles) and creating a roadmap, which writes
 the roadmap row and then one step row per step with `step_order = index + 1`.
 The two tables are in-memory sequences; the database's insert failures are
 parameters.
 */
module Roadmaps {
  import opened Wrappers
  import Text
  import Lists
  import Sorting

  /** A roadmap as the application uses it. */
  datatype RoadmapItem = RoadmapItem(id: Text.Id, title: string, field: string, color: string, steps: seq<string>)

  /** A step as the joined query returns it. */
  datatype StepRow = StepRow(title: string, stepOrder: int)

  /** A roadmap row with its joined `roadmap_steps`. */
  datatype RoadmapRow = RoadmapRow(id: Text.Id, title: string, field: string, color: string, steps: seq<StepRow>)

  /** The outcome of the roadmaps query. */
  datatype Query = QueryError | NoData | Rows(rows: seq<RoadmapRow>)

  function StepOrder(s: StepRow): int { s.stepOrder }

  function Titles(steps: seq<StepRow>): (r: seq<string>)
    ensures |r| == |steps| && forall k :: 0 <= k < |steps| ==> r[k] == steps[k].title
  {
    seq(|steps|, k requires 0 <= k < |steps| => steps[k].title)
  }

  /** The step titles in ascending `step_order` (a stable sort). */
  function OrderedTitles(steps: seq<StepRow>): (r: seq<string>)
    ensures |r| == |steps|
    ensures exists sorted :: Sorting.SortedBy(sorted, StepOrder) && multiset(sorted) == multiset(steps) && r == Titles(sorted)
  {
    Sorting.SortByPermutes(steps, StepOrder);
    Titles(Sorting.SortBy(steps, StepOrder))
  }

  /** One row of the query as a roadmap item. */
  function ToItem(r: RoadmapRow): (item: RoadmapItem)
    ensures item.id == r.id && item.title == r.title && item.field == r.field && item.color == r.color
    ensures item.steps == OrderedTitles(r.steps)
  {
    RoadmapItem(r.id, r.title, r.field, r.color, OrderedTitles(r.steps))
  }

  /**
   `getRoadmaps`: nothing on a query error or missing data; otherwise one item
   per row, in row order.
   */
  function GetRoadmaps(q: Query): (items: seq<RoadmapItem>)
    ensures !q.Rows? ==> items == []
    ensures q.Rows? ==> |items| == |q.rows| && forall k :: 0 <= k < |items| ==> items[k] == ToItem(q.rows[k])
  {
    match q
    case QueryError => []
    case NoData => []
    case Rows(rows) => seq(|rows|, k requires 0 <= k < |rows| => ToItem(rows[k]))
  }

  /** A stored row of the `roadmaps` table. */
  datatype RoadmapRecord = RoadmapRecord(id: string, title: string, field: string, color: string)

  /** A stored row of the `roadmap_steps` table. */
  datatype StepRecord = StepRecord(roadmapId: string, title: string, stepOrder: int)

  /** The step rows `createRoadmap` writes for `steps`: `step_order` counts from 1. */
  function StepRecords(roadmapId: string, steps: seq<string>): (rows: seq<StepRecord>)
    ensures |rows| == |steps|
    ensures forall k :: 0 <= k < |steps| ==> rows[k] == StepRecord(roadmapId, steps[k], k + 1)
  {
    seq(|steps|, k requires 0 <= k < |steps| => StepRecord(roadmapId, steps[k], k + 1))
  }

  function HasRoadmapId(id: string): StepRecord -> bool {
    (s: StepRecord) => s.roadmapId == id
  }

  function ToStepRow(s: StepRecord): StepRow { StepRow(s.title, s.stepOrder) }

  /** A roadmap's step rows, in table order (the join may return them in any order). */
  function StepsOf(table: seq<StepRecord>, id: string): (r: seq<StepRow>)
  {
    var mine := Lists.Filter(table, HasRoadmapId(id));
    seq(|mine|, k requires 0 <= k < |mine| => ToStepRow(mine[k]))
  }

  /**
   Round trip: steps written by `createRoadmap` into a table holding no other
   steps of that roadmap come back from the read in their original order, in
   whatever order the join returns the step rows: the sort by `step_order`
   restores it, since the written orders 1..n are distinct.
   */
  lemma CreatedStepsReadBack(before: seq<StepRecord>, after: seq<StepRecord>, id: string, steps: seq<string>, rows: seq<StepRow>)
    requires forall k :: 0 <= k < |before| ==> before[k].roadmapId != id
    requires forall k :: 0 <= k < |after| ==> after[k].roadmapId != id
    requires multiset(rows) == multiset(StepsOf(before + StepRecords(id, steps) + after, id))
    ensures OrderedTitles(rows) == steps
  {
    var stored := StepsOf(before + StepRecords(id, steps) + after, id);
    WrittenStepsOf(before, after, id, steps);
    assert Sorting.StrictlySortedBy(stored, StepOrder);
    var sorted := Sorting.SortBy(rows, StepOrder);
    Sorting.SortByPermutes(rows, StepOrder);
    Sorting.SortedUnique(stored, sorted, StepOrder);
    assert Titles(stored) == steps;
  }

  /** The stored step rows of a created roadmap are its steps with orders 1..n, in write order. */
  lemma WrittenStepsOf(before: seq<StepRecord>, after: seq<StepRecord>, id: string, steps: seq<string>)
    requires forall k :: 0 <= k < |before| ==> before[k].roadmapId != id
    requires forall k :: 0 <= k < |after| ==> after[k].roadmapId != id
    ensures var stored := StepsOf(before + StepRecords(id, steps) + after, id);
      |stored| == |steps| && forall k :: 0 <= k < |steps| ==> stored[k] == StepRow(steps[k], k + 1)
  {
    var written := StepRecords(id, steps);
    var p := HasRoadmapId(id);
    Lists.FilterAppend(before + written, after, p);
    Lists.FilterAppend(before, written, p);
    Lists.FilterNone(before, p);
    Lists.FilterNone(after, p);
    Lists.FilterAll(written, p);
    assert Lists.Filter(before + written + after, p) == written;
  }

  /**
   Read back as a roadmap item, a created roadmap has its own title, field,
   colour and steps, whatever order its step rows come back in.
   */
  lemma CreatedRoadmapReadsBack(item: RoadmapItem, before: seq<StepRecord>, rows: seq<StepRow>)
    requires forall k :: 0 <= k < |before| ==> before[k].roadmapId != Text.IdToString(item.id)
    requires multiset(rows) == multiset(StepsOf(before + StepRecords(Text.IdToString(item.id), item.steps), Text.IdToString(item.id)))
    ensures var id := Text.IdToString(item.id);
      ToItem(RoadmapRow(Text.Str(id), item.title, item.field, item.color, rows)) == item.(id := Text.Str(id))
  {
    var id := Text.IdToString(item.id);
    assert before + StepRecords(id, item.steps) + [] == before + StepRecords(id, item.steps);
    CreatedStepsReadBack(before, [], id, item.steps, rows);
  }

  /** `{ success: true }`, or the message of the error thrown. */
  datatype CreateResult = Created | Thrown(message: string)

  /** The two roadmap tables. */
  class RoadmapStore {
    var roadmaps: seq<RoadmapRecord>
    var steps: seq<StepRecord>

    constructor (roadmaps: seq<RoadmapRecord>, steps: seq<StepRecord>)
      ensures this.roadmaps == roadmaps && this.steps == steps
    {
      this.roadmaps := roadmaps;
      this.steps := steps;
    }

    /**
     `createRoadmap`: insert the roadmap row, throwing before any step insert if
     that fails; then, for a non-empty step list, insert all step rows in one
     statement (all or nothing), throwing if that fails. A failed step insert
     leaves the roadmap row in place.
     */
    method CreateRoadmap(item: RoadmapItem, roadmapError: Option<string>, stepsError: Option<string>) returns (r: CreateResult)
      modifies this
      ensures var id := Text.IdToString(item.id);
        && (roadmapError.Some? ==>
              r == Thrown(roadmapError.value) && roadmaps == old(roadmaps) && steps == old(steps))
        && (roadmapError.None? ==>
              roadmaps == old(roadmaps) + [RoadmapRecord(id, item.title, item.field, item.color)])
        && (roadmapError.None? && (item.steps == [] || stepsError.None?) ==> r == Created)
        && (roadmapError.None? && item.steps != [] && stepsError.Some? ==>
              r == Thrown(stepsError.value) && steps == old(steps))
        && (roadmapError.None? && item.steps != [] && stepsError.None? ==>
              steps == old(steps) + StepRecords(id, item.steps))
        && (item.steps == [] ==> steps == old(steps))
    {
      var roadmapId := Text.IdToString(item.id);
      if roadmapError.Some? {
        return Thrown(roadmapError.value);
      }
      roadmaps := roadmaps + [RoadmapRecord(roadmapId, item.title, item.field, item.color)];
      if |item.steps| > 0 {
        var stepsData := StepRecords(roadmapId, item.steps);
        if stepsError.Some? {
          return Thrown(stepsError.value);
        }
        steps := steps + stepsData;
      }
      return Created;
    }
  }
}
