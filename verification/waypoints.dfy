/**
 Waypoints of a route: one point at each end of the route, and one at every
 junction between consecutive sections.
 */
module Waypoints {
  import opened Points
  import opened Sections

  /**
   The outcome of an iOS computation that may stop the process. Swift traps,
   for instance when a closed range has its upper bound below its lower bound.
   */
  datatype Checked<T> = Value(value: T) | Trap(reason: string)

  /** The junction points between consecutive sections, in order. */
  function Junctions(sections: seq<SectionInfo>): (r: seq<RoutePoint>)
    requires sections != []
    ensures |r| == |sections| - 1
    ensures forall i | 0 <= i < |r| ::
              r[i] == MaxPoint(sections[i].points.endPoint, sections[i + 1].points.startPoint)
    decreases |sections|
  {
    if |sections| == 1 then []
    else [MaxPoint(sections[0].points.endPoint, sections[1].points.startPoint)] + Junctions(sections[1..])
  }

  /**
   The waypoints of a route with N sections: N + 1 points, or none at all for
   an empty route. The first point is the first section's start and the last
   point is the last section's end. Each point in between is the
   higher-priority one of the end of the section before it and the start of
   the section after it. On a tie it is the start of the later section.
   */
  function CreateRoutePoints(sections: seq<SectionInfo>): (r: seq<RoutePoint>)
    ensures sections == [] ==> r == []
    ensures sections != [] ==> |r| == |sections| + 1
    ensures sections != [] ==> r[0] == sections[0].points.startPoint
    ensures sections != [] ==> r[|sections|] == sections[|sections| - 1].points.endPoint
    ensures forall i | 0 < i < |sections| ::
              r[i] == MaxPoint(sections[i - 1].points.endPoint, sections[i].points.startPoint)
  {
    if sections == [] then []
    else [sections[0].points.startPoint] + Junctions(sections) + [sections[|sections| - 1].points.endPoint]
  }

  /**
   Every interior waypoint is one of the two boundary points that meet there.
   It outranks or ties both of them, and it is strictly above the earlier
   section's end whenever it is that end.
   */
  lemma JunctionIsHigherBoundary(sections: seq<SectionInfo>, i: int)
    requires 0 < i < |sections|
    ensures var p := CreateRoutePoints(sections)[i];
            var e := sections[i - 1].points.endPoint;
            var b := sections[i].points.startPoint;
            && (p == e || p == b)
            && p.zIndex >= e.zIndex && p.zIndex >= b.zIndex
            && (p != b ==> e.zIndex > b.zIndex)
  {
  }

  /**
   The iOS version: for one section, the loop range `0...count - 2` is the
   closed range `0...-1`, and building that range traps. For every other
   length it computes the same waypoints as the Android version.
   */
  function SwiftCreateRoutePoints(sections: seq<SectionInfo>): (r: Checked<seq<RoutePoint>>)
    ensures r.Trap? <==> |sections| == 1
    ensures r.Value? ==> r.value == CreateRoutePoints(sections)
  {
    if sections == [] then Value([])
    else if |sections| - 2 < 0 then Trap("Range requires lowerBound <= upperBound")
    else Value([sections[0].points.startPoint] + Junctions(sections)
               + [sections[|sections| - 1].points.endPoint])
  }

  /** A one-section route: iOS traps where Android returns two waypoints. */
  lemma SwiftTrapsOnSingleSection(s: SectionInfo)
    ensures SwiftCreateRoutePoints([s]).Trap?
    ensures CreateRoutePoints([s]) == [s.points.startPoint, s.points.endPoint]
  {
  }
}
