/**
 Route sections and the consolidation of consecutive walking sections.

 `MergeSectionInfoList` walks the section list once, carrying the section it
 has not emitted yet. When both the carried section and the next one are
 tagged "pedestrian", it replaces the carried section with their join.
 Otherwise it emits the carried section and carries the next one. The
 recursion below keeps exactly that shape: `prev` is the carried section and
 `rest` is what the loop still has to visit.
 */
module Sections {
  import opened Points

  /** The tag that marks a walking section. */
  const Pedestrian: string := "pedestrian"

  /**
   One leg of a trip. Walking sections are `Plain`. Public-transport rides
   are `Transit` and carry the extra line data. Both share the first five
   fields, and only the tag decides whether sections are merged.
   */
  datatype SectionInfo =
    | Plain(tag: string, duration: real, walkingDistance: real, color: bv32, points: PointBound)
    | Transit(tag: string, duration: real, walkingDistance: real, color: bv32, points: PointBound,
              lineName: string, lineId: string, directionDesc: string, interval: string,
              intermediateStations: seq<string>)

  predicate IsPedestrian(s: SectionInfo) {
    s.tag == Pedestrian
  }

  /** No two neighbouring sections are both walking sections. */
  ghost predicate NoAdjacentWalks(s: seq<SectionInfo>) {
    forall i | 0 < i < |s| :: !(IsPedestrian(s[i - 1]) && IsPedestrian(s[i]))
  }

  ghost predicate AllWalks(s: seq<SectionInfo>) {
    forall i | 0 <= i < |s| :: IsPedestrian(s[i])
  }

  /** Total travel time of a list of sections. */
  function TotalDuration(s: seq<SectionInfo>): real {
    if s == [] then 0.0 else s[0].duration + TotalDuration(s[1..])
  }

  /** Total walking distance of a list of sections. */
  function TotalWalkingDistance(s: seq<SectionInfo>): real {
    if s == [] then 0.0 else s[0].walkingDistance + TotalWalkingDistance(s[1..])
  }

  /** The non-walking sections of a list, in their order. */
  function Rides(s: seq<SectionInfo>): seq<SectionInfo> {
    if s == [] then []
    else if IsPedestrian(s[0]) then Rides(s[1..])
    else [s[0]] + Rides(s[1..])
  }

  /**
   The section that replaces two consecutive walking sections. The result keeps
   the first section's tag and colour. It adds up the time and the walking
   distance, and merges the bounds point by point.
   */
  function JoinWalks(prev: SectionInfo, next: SectionInfo): (r: SectionInfo)
    ensures r.Plain?
    ensures r.tag == prev.tag && r.color == prev.color
    ensures r.duration == prev.duration + next.duration
    ensures r.walkingDistance == prev.walkingDistance + next.walkingDistance
  {
    Plain(prev.tag, prev.duration + next.duration, prev.walkingDistance + next.walkingDistance,
          prev.color, MergePoints(prev.points, next.points))
  }

  /**
   The loop of `MergeSectionInfoList` from the state where `prev` is carried
   and `rest` is still to be visited.
   */
  function MergeFrom(prev: SectionInfo, rest: seq<SectionInfo>): (r: seq<SectionInfo>)
    ensures 1 <= |r| <= |rest| + 1
    ensures r[0].tag == prev.tag && r[0].color == prev.color
    decreases |rest|
  {
    if rest == [] then [prev]
    else if IsPedestrian(prev) && IsPedestrian(rest[0]) then MergeFrom(JoinWalks(prev, rest[0]), rest[1..])
    else [prev] + MergeFrom(rest[0], rest[1..])
  }

  /** Collapses every maximal run of walking sections into one section. */
  function MergeSectionInfoList(sections: seq<SectionInfo>): (r: seq<SectionInfo>)
    ensures r == [] <==> sections == []
    ensures |r| <= |sections|
    ensures sections != [] ==> r[0].tag == sections[0].tag && r[0].color == sections[0].color
  {
    if sections == [] then [] else MergeFrom(sections[0], sections[1..])
  }

  // ---------------------------------------------------------------------------
  // Length, adjacency and fixpoints
  // ---------------------------------------------------------------------------

  lemma NoAdjacentWalksOfCons(x: SectionInfo, s: seq<SectionInfo>)
    ensures NoAdjacentWalks([x] + s) <==>
            NoAdjacentWalks(s) && !(s != [] && IsPedestrian(x) && IsPedestrian(s[0]))
  {
    var xs := [x] + s;
    assert xs[0] == x;
    assert forall i | 1 <= i < |xs| :: xs[i] == s[i - 1];
    if NoAdjacentWalks(xs) {
      if s != [] {
        assert !(IsPedestrian(xs[0]) && IsPedestrian(xs[1]));
      }
      forall i | 0 < i < |s|
        ensures !(IsPedestrian(s[i - 1]) && IsPedestrian(s[i]))
      {
        assert xs[i] == s[i - 1] && xs[i + 1] == s[i];
      }
    }
    if NoAdjacentWalks(s) && !(s != [] && IsPedestrian(x) && IsPedestrian(s[0])) {
      forall i | 0 < i < |xs|
        ensures !(IsPedestrian(xs[i - 1]) && IsPedestrian(xs[i]))
      {
        if i >= 2 {
          assert xs[i - 1] == s[i - 2] && xs[i] == s[i - 1];
        }
      }
    }
  }

  lemma {:induction false} MergeFromLengthIff(prev: SectionInfo, rest: seq<SectionInfo>)
    ensures |MergeFrom(prev, rest)| == |rest| + 1 <==> NoAdjacentWalks([prev] + rest)
    decreases |rest|
  {
    var xs := [prev] + rest;
    if rest == [] {
    } else if IsPedestrian(prev) && IsPedestrian(rest[0]) {
      assert xs[0] == prev && xs[1] == rest[0];
    } else {
      MergeFromLengthIff(rest[0], rest[1..]);
      assert [rest[0]] + rest[1..] == rest;
      NoAdjacentWalksOfCons(prev, rest);
    }
  }

  /**
   Consolidation keeps the length of the list exactly when no two neighbouring
   sections are both walking sections, and shortens it otherwise.
   */
  lemma MergeKeepsLengthIff(sections: seq<SectionInfo>)
    ensures |MergeSectionInfoList(sections)| == |sections| <==> NoAdjacentWalks(sections)
  {
    if sections != [] {
      MergeFromLengthIff(sections[0], sections[1..]);
      assert [sections[0]] + sections[1..] == sections;
    }
  }

  lemma {:induction false} MergeFromNoAdjacentWalks(prev: SectionInfo, rest: seq<SectionInfo>)
    ensures NoAdjacentWalks(MergeFrom(prev, rest))
    decreases |rest|
  {
    if rest == [] {
    } else if IsPedestrian(prev) && IsPedestrian(rest[0]) {
      MergeFromNoAdjacentWalks(JoinWalks(prev, rest[0]), rest[1..]);
    } else {
      MergeFromNoAdjacentWalks(rest[0], rest[1..]);
      var tail := MergeFrom(rest[0], rest[1..]);
      var r := [prev] + tail;
      assert forall i | 1 <= i < |r| :: r[i] == tail[i - 1];
    }
  }

  /** After consolidation no two neighbouring sections are both walking sections. */
  lemma MergedHasNoAdjacentWalks(sections: seq<SectionInfo>)
    ensures NoAdjacentWalks(MergeSectionInfoList(sections))
  {
    if sections != [] {
      MergeFromNoAdjacentWalks(sections[0], sections[1..]);
    }
  }

  lemma {:induction false} MergeFromIdentity(prev: SectionInfo, rest: seq<SectionInfo>)
    requires NoAdjacentWalks([prev] + rest)
    ensures MergeFrom(prev, rest) == [prev] + rest
    decreases |rest|
  {
    if rest != [] {
      NoAdjacentWalksOfCons(prev, rest);
      assert [rest[0]] + rest[1..] == rest;
      MergeFromIdentity(rest[0], rest[1..]);
    }
  }

  /**
   A list is left unchanged by consolidation exactly when it has no two
   neighbouring walking sections.
   */
  lemma MergeFixpointIff(sections: seq<SectionInfo>)
    ensures MergeSectionInfoList(sections) == sections <==> NoAdjacentWalks(sections)
  {
    MergeKeepsLengthIff(sections);
    if sections != [] && NoAdjacentWalks(sections) {
      assert [sections[0]] + sections[1..] == sections;
      MergeFromIdentity(sections[0], sections[1..]);
    }
  }

  /** Consolidating an already consolidated list changes nothing. */
  lemma MergeIdempotent(sections: seq<SectionInfo>)
    ensures MergeSectionInfoList(MergeSectionInfoList(sections)) == MergeSectionInfoList(sections)
  {
    MergedHasNoAdjacentWalks(sections);
    MergeFixpointIff(MergeSectionInfoList(sections));
  }

  lemma {:induction false} MergeFromSingleIff(prev: SectionInfo, rest: seq<SectionInfo>)
    ensures |MergeFrom(prev, rest)| == 1 <==> rest == [] || (IsPedestrian(prev) && AllWalks(rest))
    decreases |rest|
  {
    if rest == [] {
    } else if IsPedestrian(prev) && IsPedestrian(rest[0]) {
      MergeFromSingleIff(JoinWalks(prev, rest[0]), rest[1..]);
      assert AllWalks(rest) <==> AllWalks(rest[1..]) by {
        if AllWalks(rest[1..]) {
          assert forall i | 1 <= i < |rest| :: rest[i] == rest[1..][i - 1];
        }
      }
    } else {
      assert !(IsPedestrian(prev) && AllWalks(rest));
    }
  }

  /**
   Consolidation leaves exactly one section when the list is a single section
   or a non-empty list of walking sections.
   */
  lemma MergeSingleIff(sections: seq<SectionInfo>)
    ensures |MergeSectionInfoList(sections)| == 1 <==> |sections| == 1 || (sections != [] && AllWalks(sections))
  {
    if sections != [] {
      MergeFromSingleIff(sections[0], sections[1..]);
      assert AllWalks(sections) <==> IsPedestrian(sections[0]) && AllWalks(sections[1..]) by {
        if IsPedestrian(sections[0]) && AllWalks(sections[1..]) {
          assert forall i | 1 <= i < |sections| :: sections[i] == sections[1..][i - 1];
        }
      }
    }
  }

  // ---------------------------------------------------------------------------
  // What consolidation keeps
  // ---------------------------------------------------------------------------

  lemma {:induction false} RidesOfCons(x: SectionInfo, s: seq<SectionInfo>)
    ensures Rides([x] + s) == (if IsPedestrian(x) then [] else [x]) + Rides(s)
  {
    assert ([x] + s)[0] == x && ([x] + s)[1..] == s;
  }

  lemma {:induction false} MergeFromKeepsRides(prev: SectionInfo, rest: seq<SectionInfo>)
    ensures Rides(MergeFrom(prev, rest)) == Rides([prev] + rest)
    decreases |rest|
  {
    RidesOfCons(prev, rest);
    if rest == [] {
    } else if IsPedestrian(prev) && IsPedestrian(rest[0]) {
      var j := JoinWalks(prev, rest[0]);
      MergeFromKeepsRides(j, rest[1..]);
      RidesOfCons(j, rest[1..]);
      RidesOfCons(rest[0], rest[1..]);
      assert [rest[0]] + rest[1..] == rest;
    } else {
      MergeFromKeepsRides(rest[0], rest[1..]);
      RidesOfCons(prev, MergeFrom(rest[0], rest[1..]));
      RidesOfCons(rest[0], rest[1..]);
      assert [rest[0]] + rest[1..] == rest;
    }
  }

  /**
   Every section that is not a walk comes out of consolidation unchanged,
   with the same relative order, and no other ride appears.
   */
  lemma MergeKeepsRides(sections: seq<SectionInfo>)
    ensures Rides(MergeSectionInfoList(sections)) == Rides(sections)
  {
    if sections != [] {
      MergeFromKeepsRides(sections[0], sections[1..]);
      assert [sections[0]] + sections[1..] == sections;
    }
  }

  lemma {:induction false} TotalsOfCons(x: SectionInfo, s: seq<SectionInfo>)
    ensures TotalDuration([x] + s) == x.duration + TotalDuration(s)
    ensures TotalWalkingDistance([x] + s) == x.walkingDistance + TotalWalkingDistance(s)
  {
    assert ([x] + s)[0] == x && ([x] + s)[1..] == s;
  }

  lemma {:induction false} MergeFromKeepsTotals(prev: SectionInfo, rest: seq<SectionInfo>)
    ensures TotalDuration(MergeFrom(prev, rest)) == TotalDuration([prev] + rest)
    ensures TotalWalkingDistance(MergeFrom(prev, rest)) == TotalWalkingDistance([prev] + rest)
    decreases |rest|
  {
    TotalsOfCons(prev, rest);
    if rest == [] {
    } else if IsPedestrian(prev) && IsPedestrian(rest[0]) {
      var j := JoinWalks(prev, rest[0]);
      MergeFromKeepsTotals(j, rest[1..]);
      TotalsOfCons(j, rest[1..]);
      TotalsOfCons(rest[0], rest[1..]);
      assert [rest[0]] + rest[1..] == rest;
    } else {
      MergeFromKeepsTotals(rest[0], rest[1..]);
      TotalsOfCons(prev, MergeFrom(rest[0], rest[1..]));
      TotalsOfCons(rest[0], rest[1..]);
      assert [rest[0]] + rest[1..] == rest;
    }
  }

  /** Consolidation preserves the route's total time and total walking distance. */
  lemma MergeKeepsTotals(sections: seq<SectionInfo>)
    ensures TotalDuration(MergeSectionInfoList(sections)) == TotalDuration(sections)
    ensures TotalWalkingDistance(MergeSectionInfoList(sections)) == TotalWalkingDistance(sections)
  {
    if sections != [] {
      MergeFromKeepsTotals(sections[0], sections[1..]);
      assert [sections[0]] + sections[1..] == sections;
    }
  }

  // ---------------------------------------------------------------------------
  // Reference definition: split into maximal runs, collapse each run
  // ---------------------------------------------------------------------------

  /** Number of walking sections at the front of `s`. */
  function LeadingWalks(s: seq<SectionInfo>): (n: nat)
    ensures n <= |s|
    ensures forall i | 0 <= i < n :: IsPedestrian(s[i])
    ensures n < |s| ==> !IsPedestrian(s[n])
  {
    if s == [] || !IsPedestrian(s[0]) then 0 else 1 + LeadingWalks(s[1..])
  }

  /** Length of the maximal run at the front of `s`: its walks, or one ride. */
  function RunLength(s: seq<SectionInfo>): (n: nat)
    requires s != []
    ensures 1 <= n <= |s|
  {
    if IsPedestrian(s[0]) then LeadingWalks(s) else 1
  }

  /** `s` cut into maximal runs: each run is a lone ride or all walks. */
  function Runs(s: seq<SectionInfo>): (runs: seq<seq<SectionInfo>>)
    ensures forall i | 0 <= i < |runs| :: runs[i] != []
    ensures s != [] ==> runs != [] && runs[0][0] == s[0]
    decreases |s|
  {
    if s == [] then [] else [s[..RunLength(s)]] + Runs(s[RunLength(s)..])
  }

  function Flatten(runs: seq<seq<SectionInfo>>): seq<SectionInfo> {
    if runs == [] then [] else runs[0] + Flatten(runs[1..])
  }

  /**
   `runs` is a split of `s` into maximal runs. Together the runs give back
   `s`. Each run is a single ride or a non-empty block of walks. No two walk
   blocks are neighbours.
   */
  ghost predicate IsRunSplit(s: seq<SectionInfo>, runs: seq<seq<SectionInfo>>) {
    && Flatten(runs) == s
    && (forall i | 0 <= i < |runs| ::
          runs[i] != [] && (AllWalks(runs[i]) || (|runs[i]| == 1 && !IsPedestrian(runs[i][0]))))
    && (forall i | 0 < i < |runs| :: !(AllWalks(runs[i - 1]) && AllWalks(runs[i])))
  }

  /** `Runs` splits every list into maximal runs. */
  lemma {:induction false} RunsAreMaximal(s: seq<SectionInfo>)
    ensures IsRunSplit(s, Runs(s))
    decreases |s|
  {
    if s != [] {
      var n := RunLength(s);
      var head := s[..n];
      var tail := Runs(s[n..]);
      var runs := Runs(s);
      RunsAreMaximal(s[n..]);
      assert runs == [head] + tail;
      assert runs[1..] == tail;
      assert head + s[n..] == s;
      assert forall i | 1 <= i < |runs| :: runs[i] == tail[i - 1];
      if IsPedestrian(s[0]) {
        assert AllWalks(head);
        if tail != [] {
          assert tail[0][0] == s[n] && !IsPedestrian(s[n]);
          assert !AllWalks(tail[0]);
        }
      } else {
        assert !AllWalks(head);
      }
    }
  }

  /** Left fold of `JoinWalks` over `rest`, starting from `acc`. */
  function CollapseFrom(acc: SectionInfo, rest: seq<SectionInfo>): SectionInfo
    decreases |rest|
  {
    if rest == [] then acc else CollapseFrom(JoinWalks(acc, rest[0]), rest[1..])
  }

  /** The single section a run becomes. */
  function Collapse(run: seq<SectionInfo>): SectionInfo
    requires run != []
  {
    CollapseFrom(run[0], run[1..])
  }

  function CollapseAll(runs: seq<seq<SectionInfo>>): seq<SectionInfo>
    requires forall i | 0 <= i < |runs| :: runs[i] != []
  {
    if runs == [] then [] else [Collapse(runs[0])] + CollapseAll(runs[1..])
  }

  function Starts(s: seq<SectionInfo>): (ps: seq<RoutePoint>)
    ensures |ps| == |s| && forall i | 0 <= i < |s| :: ps[i] == s[i].points.startPoint
  {
    seq(|s|, i requires 0 <= i < |s| => s[i].points.startPoint)
  }

  function Ends(s: seq<SectionInfo>): (ps: seq<RoutePoint>)
    ensures |ps| == |s| && forall i | 0 <= i < |s| :: ps[i] == s[i].points.endPoint
  {
    seq(|s|, i requires 0 <= i < |s| => s[i].points.endPoint)
  }

  lemma {:induction false} CollapseFromFacts(acc: SectionInfo, rest: seq<SectionInfo>)
    ensures CollapseFrom(acc, rest).tag == acc.tag
    ensures CollapseFrom(acc, rest).color == acc.color
    ensures CollapseFrom(acc, rest).duration == acc.duration + TotalDuration(rest)
    ensures CollapseFrom(acc, rest).walkingDistance == acc.walkingDistance + TotalWalkingDistance(rest)
    ensures CollapseFrom(acc, rest).points.startPoint == PeakFrom(acc.points.startPoint, Starts(rest))
    ensures CollapseFrom(acc, rest).points.endPoint == PeakFrom(acc.points.endPoint, Ends(rest))
    decreases |rest|
  {
    if rest != [] {
      var j := JoinWalks(acc, rest[0]);
      CollapseFromFacts(j, rest[1..]);
      assert Starts(rest)[1..] == Starts(rest[1..]);
      assert Ends(rest)[1..] == Ends(rest[1..]);
    }
  }

  /**
   What a run of walking sections becomes. The merged section has the first
   section's tag and colour, and the summed time and walking distance. Its
   start is the LAST start point of highest priority in the run, and its end
   is the last end point of highest priority. The start is therefore not
   necessarily the first section's start.
   */
  lemma CollapseRun(run: seq<SectionInfo>)
    requires run != []
    ensures Collapse(run).tag == run[0].tag && Collapse(run).color == run[0].color
    ensures Collapse(run).duration == TotalDuration(run)
    ensures Collapse(run).walkingDistance == TotalWalkingDistance(run)
    ensures exists k :: IsLastPeak(Starts(run), k) && Collapse(run).points.startPoint == run[k].points.startPoint
    ensures exists k :: IsLastPeak(Ends(run), k) && Collapse(run).points.endPoint == run[k].points.endPoint
  {
    CollapseFromFacts(run[0], run[1..]);
    var starts := Starts(run);
    var ends := Ends(run);
    assert [run[0].points.startPoint] + Starts(run[1..]) == starts;
    assert [run[0].points.endPoint] + Ends(run[1..]) == ends;
    var ks := PeakFromIsLastPeak(run[0].points.startPoint, Starts(run[1..]));
    var ke := PeakFromIsLastPeak(run[0].points.endPoint, Ends(run[1..]));
    assert starts[ks] == run[ks].points.startPoint;
    assert ends[ke] == run[ke].points.endPoint;
    assert IsLastPeak(Starts(run), ks) && Collapse(run).points.startPoint == run[ks].points.startPoint;
    assert IsLastPeak(Ends(run), ke) && Collapse(run).points.endPoint == run[ke].points.endPoint;
  }

  /** A walking prefix absorbed from the carried walk becomes one collapsed section. */
  lemma {:induction false} MergeFromAbsorbsWalks(prev: SectionInfo, rest: seq<SectionInfo>)
    requires IsPedestrian(prev)
    ensures var n := LeadingWalks(rest);
            MergeFrom(prev, rest) ==
              [CollapseFrom(prev, rest[..n])] + (if n == |rest| then [] else MergeFrom(rest[n], rest[n + 1..]))
    decreases |rest|
  {
    var n := LeadingWalks(rest);
    if rest != [] && IsPedestrian(rest[0]) {
      var j := JoinWalks(prev, rest[0]);
      MergeFromAbsorbsWalks(j, rest[1..]);
      assert LeadingWalks(rest[1..]) == n - 1;
      assert rest[..n][1..] == rest[1..][..n - 1];
      if n < |rest| {
        assert rest[1..][n - 1] == rest[n] && rest[1..][n..] == rest[n + 1..];
      }
    }
  }

  /**
   Consolidation agrees with the reference definition: cut the list into
   maximal runs (see `RunsAreMaximal`) and collapse each run into one section
   (see `CollapseRun`).
   */
  lemma {:induction false} MergeIsCollapsedRuns(sections: seq<SectionInfo>)
    ensures MergeSectionInfoList(sections) == CollapseAll(Runs(sections))
    decreases |sections|
  {
    var s := sections;
    if s != [] {
      var n := RunLength(s);
      MergeIsCollapsedRuns(s[n..]);
      assert Runs(s) == [s[..n]] + Runs(s[n..]);
      assert CollapseAll(Runs(s)) == [Collapse(s[..n])] + CollapseAll(Runs(s[n..]));
      MergeSplitsFirstRun(s);
    }
  }

  /** Consolidation emits the first run collapsed, then consolidates the rest. */
  lemma MergeSplitsFirstRun(s: seq<SectionInfo>)
    requires s != []
    ensures MergeSectionInfoList(s) == [Collapse(s[..RunLength(s)])] + MergeSectionInfoList(s[RunLength(s)..])
  {
    var n := RunLength(s);
    if IsPedestrian(s[0]) {
      MergeFromAbsorbsWalks(s[0], s[1..]);
      assert LeadingWalks(s[1..]) == n - 1;
      assert s[..n][1..] == s[1..][..n - 1];
      if n < |s| {
        assert s[1..][n - 1] == s[n] && s[1..][n..] == s[n + 1..];
      }
    } else {
      assert s[..n] == [s[0]];
    }
  }

  /**
   Two walks merged. The merged start is the second walk's start, because the
   two starts tie. The merged end is the FIRST walk's end, because it has the
   higher priority. The outer bounds of a run are therefore not simply its
   first start and its last end.
   */
  lemma MergedWalkBoundsFollowPriority()
    ensures var a1 := RoutePoint("A1", 0, 0);
            var a2 := RoutePoint("A2", 0, 1);
            var b1 := RoutePoint("B1", 0, 0);
            var b2 := RoutePoint("B2", 0, 0);
            var w1 := Plain(Pedestrian, 5.0, 10.0, 7, PointBound(a1, a2));
            var w2 := Plain(Pedestrian, 3.0, 7.0, 9, PointBound(b1, b2));
            MergeSectionInfoList([w1, w2]) == [Plain(Pedestrian, 8.0, 17.0, 7, PointBound(b1, a2))]
  {
    var a1 := RoutePoint("A1", 0, 0);
    var a2 := RoutePoint("A2", 0, 1);
    var b1 := RoutePoint("B1", 0, 0);
    var b2 := RoutePoint("B2", 0, 0);
    var w1 := Plain(Pedestrian, 5.0, 10.0, 7, PointBound(a1, a2));
    var w2 := Plain(Pedestrian, 3.0, 7.0, 9, PointBound(b1, b2));
    assert [w1, w2][1..] == [w2];
    assert MergeFrom(w1, [w2]) == MergeFrom(JoinWalks(w1, w2), []);
  }
}
