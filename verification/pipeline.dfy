/**
 Building a mass-transit route for the caller. Each section of the first
 route alternative is classified. Consecutive walking sections are then
 consolidated, and the waypoints are derived from what remains.
 */
module Pipeline {
  import opened Points
  import opened Sections
  import opened Waypoints
  import opened Classification

  /** The sections and waypoints reported back for one route. */
  datatype BuiltRoute = BuiltRoute(sections: seq<SectionInfo>, points: seq<RoutePoint>)

  function ClassifyAll(route: seq<RawSection>): (r: seq<SectionInfo>)
    ensures |r| == |route|
    ensures forall i | 0 <= i < |route| :: r[i] == GetMasstransitSectionInfo(route[i])
  {
    seq(|route|, i requires 0 <= i < |route| => GetMasstransitSectionInfo(route[i]))
  }

  function SwiftClassifyAll(route: seq<RawSection>): (r: seq<SectionInfo>)
    ensures |r| == |route|
    ensures forall i | 0 <= i < |route| :: r[i] == SwiftGetMasstransitSectionInfo(route[i])
  {
    seq(|route|, i requires 0 <= i < |route| => SwiftGetMasstransitSectionInfo(route[i]))
  }

  /** Total time of the raw sections of a route. */
  function RawDuration(route: seq<RawSection>): real {
    if route == [] then 0.0 else route[0].duration + RawDuration(route[1..])
  }

  /** The raw sections without transports (walks, waits and transfers). */
  ghost predicate AllOnFoot(route: seq<RawSection>) {
    forall i | 0 <= i < |route| :: route[i].transports.None?
  }

  lemma {:induction false} ClassifyKeepsDuration(route: seq<RawSection>)
    ensures TotalDuration(ClassifyAll(route)) == RawDuration(route)
    ensures TotalDuration(SwiftClassifyAll(route)) == RawDuration(route)
    decreases |route|
  {
    if route != [] {
      ClassifyKeepsDuration(route[1..]);
      assert ClassifyAll(route)[1..] == ClassifyAll(route[1..]);
      assert SwiftClassifyAll(route)[1..] == SwiftClassifyAll(route[1..]);
    }
  }

  /** On either platform a classified route is all walks exactly when no section has transports. */
  lemma ClassifiedWalksIff(route: seq<RawSection>)
    ensures AllWalks(ClassifyAll(route)) <==> AllOnFoot(route)
    ensures AllWalks(SwiftClassifyAll(route)) <==> AllOnFoot(route)
  {
    if !AllOnFoot(route) {
      var i :| 0 <= i < |route| && route[i].transports.Some?;
      assert !IsPedestrian(ClassifyAll(route)[i]);
      assert !IsPedestrian(SwiftClassifyAll(route)[i]);
    }
  }

  /**
   The Android route handler on the route-building path. There is at most one
   section per raw section, and no two consecutive walks remain. The total
   time is the route's total time. There is one more waypoint than there are
   sections, and no waypoint at all for an empty route.
   */
  function OnMasstransitRoutes(route: seq<RawSection>): (r: BuiltRoute)
    ensures |r.sections| <= |route|
    ensures r.sections == [] <==> route == []
    ensures r.points == [] <==> route == []
    ensures route != [] ==> |r.points| == |r.sections| + 1
    ensures r.points == CreateRoutePoints(r.sections)
    ensures NoAdjacentWalks(r.sections)
    ensures TotalDuration(r.sections) == RawDuration(route)
    ensures Rides(r.sections) == Rides(ClassifyAll(route))
  {
    var sections := MergeSectionInfoList(ClassifyAll(route));
    MergedHasNoAdjacentWalks(ClassifyAll(route));
    MergeKeepsTotals(ClassifyAll(route));
    MergeKeepsRides(ClassifyAll(route));
    ClassifyKeepsDuration(route);
    BuiltRoute(sections, CreateRoutePoints(sections))
  }

  /**
   The iOS route handler on the route-building path. It traps when the
   consolidated route has exactly one section. That happens for a route of
   one section and for any non-empty route made only of walks.
   */
  function SwiftOnMasstransitRouteReceived(route: seq<RawSection>): (r: Checked<BuiltRoute>)
    ensures r.Trap? <==> |route| == 1 || (route != [] && AllOnFoot(route))
    ensures r.Value? ==> r.value.points == CreateRoutePoints(r.value.sections)
    ensures r.Value? ==> |r.value.sections| <= |route| && NoAdjacentWalks(r.value.sections)
  {
    var sections := MergeSectionInfoList(SwiftClassifyAll(route));
    MergeSingleIff(SwiftClassifyAll(route));
    ClassifiedWalksIff(route);
    MergedHasNoAdjacentWalks(SwiftClassifyAll(route));
    match SwiftCreateRoutePoints(sections)
    case Trap(reason) => Trap(reason)
    case Value(points) => Value(BuiltRoute(sections, points))
  }

  /**
   With no sections collected, as on the iOS estimation path, where no
   section is classified, iOS still consolidates and derives waypoints. It
   reports an empty route and does not trap.
   */
  lemma SwiftEmptyRouteIsEmpty()
    ensures SwiftOnMasstransitRouteReceived([]) == Value(BuiltRoute([], []))
  {
  }

  /**
   Two walking sections in a row. Android merges them and reports one section
   with two waypoints. iOS merges them too, then traps while deriving the
   waypoints.
   */
  lemma SwiftTrapsOnWalkOnlyRoute()
    ensures var walk := RawSection(None, [], 60.0, 80.0);
            && |OnMasstransitRoutes([walk, walk]).sections| == 1
            && |OnMasstransitRoutes([walk, walk]).points| == 2
            && SwiftOnMasstransitRouteReceived([walk, walk]).Trap?
  {
    var walk := RawSection(None, [], 60.0, 80.0);
    assert AllOnFoot([walk, walk]);
    MergeSingleIff(ClassifyAll([walk, walk]));
    ClassifiedWalksIff([walk, walk]);
  }
}
