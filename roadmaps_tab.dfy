/**
 The roadmaps tab: the per-colour style table with its purple fallback and
 the case-insensitive search on title or field.
 */
module RoadmapsTab {
  import Text
  import Lists
  import Roadmaps

  /** The class strings of one accent colour. */
  datatype ColorStyle = ColorStyle(bg: string, text: string, border: string, shadow: string, dot: string, glow: string)

  /** The colour table, keyed by colour name. */
  const Colors: map<string, ColorStyle> := map[
      "blue" := ColorStyle("bg-blue-500/10", "text-blue-500", "hover:border-blue-500/50",
                         "shadow-blue-500/5", "bg-blue-500", "shadow-[0_0_10px_rgba(59,130,246,0.8)]"),
      "purple" := ColorStyle("bg-purple-500/10", "text-purple-500", "hover:border-purple-500/50",
                         "shadow-purple-500/5", "bg-purple-500", "shadow-[0_0_10px_rgba(168,85,247,0.8)]"),
      "emerald" := ColorStyle("bg-emerald-500/10", "text-emerald-500", "hover:border-emerald-500/50",
                         "shadow-emerald-500/5", "bg-emerald-500", "shadow-[0_0_10px_rgba(16,185,129,0.8)]"),
      "amber" := ColorStyle("bg-amber-500/10", "text-amber-500", "hover:border-amber-500/50",
                         "shadow-amber-500/5", "bg-amber-500", "shadow-[0_0_10px_rgba(245,158,11,0.8)]"),
      "orange" := ColorStyle("bg-orange-500/10", "text-orange-500", "hover:border-orange-500/50",
                         "shadow-orange-500/5", "bg-orange-500", "shadow-[0_0_10px_rgba(249,115,22,0.8)]"),
      "cyan" := ColorStyle("bg-cyan-500/10", "text-cyan-500", "hover:border-cyan-500/50",
                         "shadow-cyan-500/5", "bg-cyan-500", "shadow-[0_0_10px_rgba(6,182,212,0.8)]"),
      "pink" := ColorStyle("bg-pink-500/10", "text-pink-500", "hover:border-pink-500/50",
                         "shadow-pink-500/5", "bg-pink-500", "shadow-[0_0_10px_rgba(236,72,153,0.8)]")
  ]

  /** `getColorStyles`: the entry for a known colour, the purple entry for any other. */
  function GetColorStyles(color: string): (s: ColorStyle)
    ensures color in Colors ==> s == Colors[color]
    ensures color !in Colors ==> s == Colors["purple"]
  {
    if color in Colors then Colors[color] else Colors["purple"]
  }

  /** The seven known colours, and the fallback actually being purple's entry. */
  lemma KnownColors()
    ensures Colors.Keys == {"blue", "purple", "emerald", "amber", "orange", "cyan", "pink"}
    ensures GetColorStyles("teal") == GetColorStyles("purple")
    ensures GetColorStyles("blue").dot == "bg-blue-500"
    ensures GetColorStyles("Blue") == GetColorStyles("purple")
  {
  }

  function Matches(query: string): Roadmaps.RoadmapItem -> bool {
    (r: Roadmaps.RoadmapItem) => Text.ContainsIgnoringCase(r.title, query) || Text.ContainsIgnoringCase(r.field, query)
  }

  /** `filteredRoadmaps`: the roadmaps whose title or field contains the query, ignoring case, in order. */
  function FilteredRoadmaps(roadmaps: seq<Roadmaps.RoadmapItem>, query: string): (r: seq<Roadmaps.RoadmapItem>)
    ensures Lists.IsSubseq(r, roadmaps)
    ensures forall k :: 0 <= k < |roadmaps| ==>
      (roadmaps[k] in r <==> Text.ContainsIgnoringCase(roadmaps[k].title, query) || Text.ContainsIgnoringCase(roadmaps[k].field, query))
  {
    Lists.Filter(roadmaps, Matches(query))
  }

  /** The empty query keeps every roadmap. */
  lemma EmptyQueryKeepsAll(roadmaps: seq<Roadmaps.RoadmapItem>)
    ensures FilteredRoadmaps(roadmaps, "") == roadmaps
  {
    forall k | 0 <= k < |roadmaps| ensures Matches("")(roadmaps[k]) {
      Text.ContainsIgnoringCaseProperties(roadmaps[k].title, "");
    }
    Lists.FilterAll(roadmaps, Matches(""));
  }

  /** Queries with the same lower-case form select the same roadmaps. */
  lemma CaseInsensitive(roadmaps: seq<Roadmaps.RoadmapItem>, q1: string, q2: string)
    requires Text.Lower(q1) == Text.Lower(q2)
    ensures FilteredRoadmaps(roadmaps, q1) == FilteredRoadmaps(roadmaps, q2)
  {
    Lists.FilterCongruent(roadmaps, Matches(q1), Matches(q2));
  }

  /** In particular an upper-cased query selects the same roadmaps. */
  lemma UpperCaseQuery(roadmaps: seq<Roadmaps.RoadmapItem>, q: string)
    ensures FilteredRoadmaps(roadmaps, Text.Upper(q)) == FilteredRoadmaps(roadmaps, q)
  {
    Text.LowerOfUpper(q);
    CaseInsensitive(roadmaps, Text.Upper(q), q);
  }
}
