/**
 The roadmap detail view derived from a catalogue entry: one module per step,
 the first in progress and the rest locked, each with the same three topics.
 The catalogue is a parameter.
 */
module RoadmapDetails {
  import opened Wrappers
  import Text
  import Lists
  import Roadmaps

  datatype TopicKind = Video | Article | Code
  datatype Topic = Topic(name: string, kind: TopicKind, duration: string)
  datatype Status = Completed | InProgress | Locked
  datatype Module = Module(id: int, title: string, status: Status, topics: seq<Topic>)
  datatype RoadmapDetail = RoadmapDetail(title: string, field: string, color: string, description: string, modules: seq<Module>)

  /** The three topics of a step: a video, an article and a coding project. */
  function TopicsFor(step: string): (ts: seq<Topic>)
    ensures |ts| == 3
    ensures ts[0].kind == Video && ts[1].kind == Article && ts[2].kind == Code
    ensures ts[0].duration == "45m" && ts[1].duration == "1h" && ts[2].duration == "2h"
  {
    [ Topic(step + " Fundamentals", Video, "45m"),
      Topic("Deep Dive into " + step, Article, "1h"),
      Topic(step + " Practice Project", Code, "2h") ]
  }

  /** `generateModulesFromSteps`. */
  function GenerateModules(steps: seq<string>): (ms: seq<Module>)
    ensures |ms| == |steps|
    ensures forall i :: 0 <= i < |steps| ==>
      && ms[i].id == i + 1
      && ms[i].title == steps[i]
      && ms[i].status == (if i == 0 then InProgress else Locked)
      && ms[i].topics == TopicsFor(steps[i])
  {
    seq(|steps|, i requires 0 <= i < |steps| =>
      Module(i + 1, steps[i], if i == 0 then InProgress else Locked, TopicsFor(steps[i])))
  }

  /** Exactly one module is in progress, the first, whenever there are steps. */
  lemma OnlyFirstModuleInProgress(steps: seq<string>)
    requires |steps| > 0
    ensures Lists.Count(GenerateModules(steps), (m: Module) => m.status == InProgress) == 1
  {
    var ms := GenerateModules(steps);
    var p := (m: Module) => m.status == InProgress;
    assert ms == [ms[0]] + ms[1..];
    assert forall k :: 0 <= k < |ms[1..]| ==> !p(ms[1..][k]);
  }

  function SameId(key: string): Roadmaps.RoadmapItem -> bool {
    (r: Roadmaps.RoadmapItem) => Text.IdToString(r.id) == key
  }

  function Description(title: string): string {
    "Comprehensive mastery path for becoming a world-class " + title
    + ". Covers all essential skills from basics to advanced concepts."
  }

  /**
   `getRoadmapDetails`: the first catalogue entry whose id has the same string
   form as `id`, or None when there is none.
   */
  function GetRoadmapDetails(catalogue: seq<Roadmaps.RoadmapItem>, id: Text.Id): (r: Option<RoadmapDetail>)
    ensures r.None? <==> forall k :: 0 <= k < |catalogue| ==> Text.IdToString(catalogue[k].id) != Text.IdToString(id)
    ensures r.Some? ==> exists k ::
      && 0 <= k < |catalogue| && Text.IdToString(catalogue[k].id) == Text.IdToString(id)
      && (forall j :: 0 <= j < k ==> Text.IdToString(catalogue[j].id) != Text.IdToString(id))
      && r.value == RoadmapDetail(catalogue[k].title, catalogue[k].field, catalogue[k].color,
                                  Description(catalogue[k].title), GenerateModules(catalogue[k].steps))
  {
    var k := Lists.FirstIndex(catalogue, SameId(Text.IdToString(id)));
    if k < 0 then None
    else
      var e := catalogue[k];
      Some(RoadmapDetail(e.title, e.field, e.color, Description(e.title), GenerateModules(e.steps)))
  }

  /** A numeric id and a string id with the same text find the same roadmap. */
  lemma NumberAndStringIdsAgree(catalogue: seq<Roadmaps.RoadmapItem>, n: int)
    ensures GetRoadmapDetails(catalogue, Text.Num(n)) == GetRoadmapDetails(catalogue, Text.Str(Text.IntToString(n)))
  {
    assert Text.IdToString(Text.Num(n)) == Text.IdToString(Text.Str(Text.IntToString(n)));
  }
}
