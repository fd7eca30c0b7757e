/**
 Turning one section reported by the routing engine into a `SectionInfo`.

 The routing engine's section is abstracted to what the classification reads.
 That is its list of transports (absent for walking, waiting and transfer
 sections), the names of its stops, its time and its walking distance. A
 transport is abstracted to its line name, optional line colour and vehicle
 types. Both platforms share the shape of the computation, but the iOS
 version differs in three places (see `SwiftGetMasstransitSectionInfo`).
 */
module Classification {
  import opened Points
  import opened Sections

  datatype Option<T> = None | Some(value: T)

  /** One public-transport line that serves a ride section. */
  datatype Transport = Transport(lineName: string, styleColor: Option<bv32>, vehicleTypes: seq<string>)

  /** The parts of a routing-engine section that the classification reads. */
  datatype RawSection = RawSection(
    transports: Option<seq<Transport>>,
    stops: seq<string>,
    duration: real,
    walkingDistance: real)

  /** A section's display style while it is being classified. */
  datatype Style = Style(color: bv32, tag: string, zIndex: int)

  const DefaultColor: bv32 := 0xFFA06ED9
  const WalkColor: bv32 := 0xFF7073EE
  const RideColor: bv32 := 0xFF33B609
  const OpaqueAlpha: bv32 := 0xFF000000

  const KnownVehicleTypes: set<string> := {"bus", "tramway", "underground"}

  /** The endpoint used for both ends of a section without stops. */
  const SentinelPoint: RoutePoint := RoutePoint("", 0, -1)

  /**
   The first vehicle type of a line, in list order, that the caller knows.
   The list goes from specific types to general ones.
   */
  function GetVehicleType(vehicleTypes: seq<string>, known: set<string>): (r: Option<string>)
    ensures r.None? <==> forall i | 0 <= i < |vehicleTypes| :: vehicleTypes[i] !in known
    ensures r.Some? ==> r.value in known
    ensures r.Some? ==> exists i | 0 <= i < |vehicleTypes| ::
              vehicleTypes[i] == r.value && forall j | 0 <= j < i :: vehicleTypes[j] !in known
  {
    if vehicleTypes == [] then None
    else if vehicleTypes[0] in known then Some(vehicleTypes[0])
    else
      var r := GetVehicleType(vehicleTypes[1..], known);
      if r.Some? then
        var i :| 0 <= i < |vehicleTypes[1..]| && vehicleTypes[1..][i] == r.value
                 && forall j | 0 <= j < i :: vehicleTypes[1..][j] !in known;
        assert vehicleTypes[i + 1] == r.value;
        assert forall j | 1 <= j < i + 1 :: vehicleTypes[j] == vehicleTypes[1..][j - 1];
        r
      else r
  }

  function VehicleTypeOf(t: Transport): Option<string> {
    GetVehicleType(t.vehicleTypes, KnownVehicleTypes)
  }

  /**
   The first loop over the transports. It records each line's name until it
   reaches a line that has a colour. That colour, made opaque, becomes the
   section's colour. Without such a line the colour stays as it was, and the
   name is the last line's.
   */
  function LineStyle(ts: seq<Transport>, color: bv32, lineName: string): (r: (bv32, string))
    ensures ts == [] ==> r == (color, lineName)
    ensures NoLineColor(ts) && ts != [] ==> r == (color, ts[|ts| - 1].lineName)
    ensures forall k | FirstLineColorAt(ts, k) :: r == (ts[k].styleColor.value | OpaqueAlpha, ts[k].lineName)
    decreases |ts|
  {
    if ts == [] then (color, lineName)
    else if ts[0].styleColor.Some? then
      assert forall k | FirstLineColorAt(ts, k) :: k == 0;
      (ts[0].styleColor.value | OpaqueAlpha, ts[0].lineName)
    else
      var r := LineStyle(ts[1..], color, ts[0].lineName);
      FirstLineColorOfTail(ts);
      assert NoLineColor(ts) ==> NoLineColor(ts[1..]);
      r
  }

  /** No line of the section has a colour. */
  ghost predicate NoLineColor(ts: seq<Transport>) {
    forall i | 0 <= i < |ts| :: ts[i].styleColor.None?
  }

  /** `ts[k]` is the first line that has a colour. */
  ghost predicate FirstLineColorAt(ts: seq<Transport>, k: int) {
    && 0 <= k < |ts|
    && ts[k].styleColor.Some?
    && forall j | 0 <= j < k :: ts[j].styleColor.None?
  }

  lemma FirstLineColorOfTail(ts: seq<Transport>)
    requires ts != [] && ts[0].styleColor.None?
    ensures forall k | FirstLineColorAt(ts, k) :: k > 0 && FirstLineColorAt(ts[1..], k - 1)
  {
    forall k | FirstLineColorAt(ts, k)
      ensures k > 0 && FirstLineColorAt(ts[1..], k - 1)
    {
      assert forall j | 0 <= j < k - 1 :: ts[1..][j] == ts[j + 1];
    }
  }

  /** The colour `LineStyle` produces is always opaque or the colour it was given. */
  lemma LineStyleColor(ts: seq<Transport>, color: bv32, lineName: string)
    ensures var c := LineStyle(ts, color, lineName).0;
            c == color || c & OpaqueAlpha == OpaqueAlpha
  {
  }

  /** One round of the Android vehicle loop: (stop the loop?, new style). */
  function JavaStep(vehicleType: Option<string>, st: Style): (bool, Style) {
    if vehicleType.None? then (true, st)
    else if vehicleType.value == "bus" then (false, Style(RideColor, "bus", 1))
    else if vehicleType.value == "tramway" then (false, Style(RideColor, "tramway", 2))
    else if vehicleType.value == "underground" then (false, Style(st.color, "underground", 3))
    else (false, st)
  }

  /** What `getVehicleType` reports for each transport of a ride section, in order. */
  function VehicleTypes(ts: seq<Transport>): (vs: seq<Option<string>>)
    ensures |vs| == |ts|
    ensures forall i | 0 <= i < |ts| :: vs[i] == VehicleTypeOf(ts[i])
    ensures forall i | 0 <= i < |vs| && vs[i].Some? :: vs[i].value in KnownVehicleTypes
  {
    seq(|ts|, i requires 0 <= i < |ts| => VehicleTypeOf(ts[i]))
  }

  /** The Android vehicle loop, over the vehicle types reported for the transports. */
  function JavaVehicleStyle(vs: seq<Option<string>>, st: Style): Style
    decreases |vs|
  {
    if vs == [] then st
    else
      var (stop, next) := JavaStep(vs[0], st);
      if stop then st else JavaVehicleStyle(vs[1..], next)
  }

  /** The first `n` transports have a known vehicle type, and the next one (if any) does not. */
  ghost predicate KnownPrefix(vs: seq<Option<string>>, n: int) {
    && 0 <= n <= |vs|
    && (forall i | 0 <= i < n :: vs[i].Some? && vs[i].value in KnownVehicleTypes)
    && (n < |vs| ==> vs[n].None?)
  }

  predicate IsBusOrTram(vehicleType: Option<string>) {
    vehicleType == Some("bus") || vehicleType == Some("tramway")
  }

  /** Some transport among the first `n` is a bus or a tramway. */
  ghost predicate PaintsRideColor(vs: seq<Option<string>>, n: int) {
    exists i | 0 <= i < n && i < |vs| :: IsBusOrTram(vs[i])
  }

  lemma PaintsRideColorOfCons(vs: seq<Option<string>>, n: int)
    requires 1 <= n <= |vs|
    ensures PaintsRideColor(vs, n) <==> IsBusOrTram(vs[0]) || PaintsRideColor(vs[1..], n - 1)
  {
    if PaintsRideColor(vs[1..], n - 1) {
      var i :| 0 <= i < n - 1 && i < |vs[1..]| && IsBusOrTram(vs[1..][i]);
      assert vs[1..][i] == vs[i + 1];
    }
    if PaintsRideColor(vs, n) && !IsBusOrTram(vs[0]) {
      var i :| 0 <= i < n && i < |vs| && IsBusOrTram(vs[i]);
      assert i > 0 && vs[i] == vs[1..][i - 1];
    }
  }

  function Rank(vehicleType: string): int {
    if vehicleType == "bus" then 1 else if vehicleType == "tramway" then 2 else 3
  }

  /**
   What the Android vehicle loop computes. It stops at the first transport
   without a known vehicle type. Tag and priority come from the LAST
   transport before that point. The colour is the ride colour if any of
   those transports is a bus or a tramway, because an underground line keeps
   the colour it finds. With no known transport first, the style is unchanged.
   */
  lemma {:induction false} JavaVehicleStyleIsLastKnown(vs: seq<Option<string>>, st: Style, n: int)
    requires KnownPrefix(vs, n)
    ensures n == 0 ==> JavaVehicleStyle(vs, st) == st
    ensures n > 0 ==>
              (JavaVehicleStyle(vs, st) ==
               Style(if PaintsRideColor(vs, n) then RideColor else st.color,
                     vs[n - 1].value,
                     Rank(vs[n - 1].value)))
    decreases |vs|
  {
    if n > 0 {
      var next := JavaStep(vs[0], st).1;
      JavaStepOnKnown(vs[0], st);
      assert JavaVehicleStyle(vs, st) == JavaVehicleStyle(vs[1..], next);
      assert KnownPrefix(vs[1..], n - 1) by {
        assert forall i | 1 <= i < |vs| :: vs[i] == vs[1..][i - 1];
      }
      JavaVehicleStyleIsLastKnown(vs[1..], next, n - 1);
      PaintsRideColorOfCons(vs, n);
      if n > 1 {
        assert vs[1..][n - 2] == vs[n - 1];
      } else {
        assert !PaintsRideColor(vs[1..], 0);
      }
    }
  }

  /** Every list of reported vehicle types has a known prefix: the loop always has a stopping point. */
  lemma {:induction false} KnownPrefixExists(vs: seq<Option<string>>) returns (n: int)
    requires forall i | 0 <= i < |vs| && vs[i].Some? :: vs[i].value in KnownVehicleTypes
    ensures KnownPrefix(vs, n)
    decreases |vs|
  {
    if vs == [] || vs[0].None? {
      n := 0;
    } else {
      assert forall i | 0 <= i < |vs[1..]| && vs[1..][i].Some? :: vs[1..][i].value in KnownVehicleTypes by {
        assert forall i | 0 <= i < |vs[1..]| :: vs[1..][i] == vs[i + 1];
      }
      var m := KnownPrefixExists(vs[1..]);
      n := m + 1;
      assert forall i | 1 <= i < |vs| :: vs[i] == vs[1..][i - 1];
    }
  }

  /** Every ride is covered by `RideClassification`, for the known prefix of its transports. */
  lemma EveryRideHasKnownPrefix(raw: RawSection) returns (n: int)
    requires raw.transports.Some?
    ensures KnownPrefix(VehicleTypes(raw.transports.value), n)
  {
    n := KnownPrefixExists(VehicleTypes(raw.transports.value));
  }

  lemma JavaStepOnKnown(v: Option<string>, st: Style)
    requires v.Some? && v.value in KnownVehicleTypes
    ensures !JavaStep(v, st).0
    ensures JavaStep(v, st).1 == Style(if IsBusOrTram(v) then RideColor else st.color, v.value, Rank(v.value))
  {
  }

  /**
   One round of the iOS vehicle loop. The loop breaks as soon as a known type
   IS found. The branches that would assign a style test a type that is known
   to be absent, so they can never run. One of them also spells the tag
   "undeground".
   */
  function SwiftStep(vehicleType: Option<string>, st: Style): (bool, Style) {
    if vehicleType.Some? then (true, st)
    else if vehicleType == Some("bus") then (false, Style(RideColor, "bus", 1))
    else if vehicleType == Some("tramway") then (false, Style(RideColor, "tramway", 2))
    else if vehicleType == Some("underground") then (false, Style(st.color, "undeground", 3))
    else (false, st)
  }

  /** The iOS vehicle loop, over the vehicle types reported for the transports. */
  function SwiftVehicleStyle(vs: seq<Option<string>>, st: Style): Style
    decreases |vs|
  {
    if vs == [] then st
    else
      var (stop, next) := SwiftStep(vs[0], st);
      if stop then st else SwiftVehicleStyle(vs[1..], next)
  }

  /** The iOS vehicle loop never changes the style it starts from. */
  lemma {:induction false} SwiftVehicleStyleIsInert(vs: seq<Option<string>>, st: Style)
    ensures SwiftVehicleStyle(vs, st) == st
    decreases |vs|
  {
    if vs != [] {
      SwiftVehicleStyleIsInert(vs[1..], st);
    }
  }

  /** The style a ride section has before the vehicle loop: its line colour, no tag, priority 0. */
  function RideSeed(ts: seq<Transport>): Style {
    Style(LineStyle(ts, DefaultColor, "").0, "", 0)
  }

  /** Both ends of a section: its first and last stop, or the sentinel if it has no stops. */
  function Endpoints(stops: seq<string>, color: bv32, zIndex: int): PointBound {
    if |stops| > 0 then
      PointBound(RoutePoint(stops[0], color, zIndex), RoutePoint(stops[|stops| - 1], color, zIndex))
    else
      PointBound(SentinelPoint, SentinelPoint)
  }

  /**
   The stops strictly between the first and the last. Filled only when there
   are more than two stops.
   */
  function IntermediateStations(stops: seq<string>): (r: seq<string>)
    ensures |r| == (if |stops| > 2 then |stops| - 2 else 0)
    ensures forall i | 0 <= i < |r| :: r[i] == stops[i + 1]
  {
    if |stops| > 2 then stops[1..|stops| - 1] else []
  }

  /** With more than two stops, first stop, intermediate stations and last stop rebuild the stop list. */
  lemma StationsRebuildStops(stops: seq<string>)
    requires |stops| > 2
    ensures [stops[0]] + IntermediateStations(stops) + [stops[|stops| - 1]] == stops
  {
    var r := [stops[0]] + IntermediateStations(stops) + [stops[|stops| - 1]];
    assert forall i | 0 <= i < |stops| :: r[i] == stops[i];
  }

  /** The Android direction description: the second stop, when there are more than two. */
  function DirectionDesc(stops: seq<string>): string {
    if |stops| > 2 then stops[1] else ""
  }

  /** The Android classification of one routing-engine section. */
  function GetMasstransitSectionInfo(raw: RawSection): (r: SectionInfo)
    ensures r.Plain? <==> raw.transports.None?
    ensures r.duration == raw.duration && r.walkingDistance == raw.walkingDistance
    ensures raw.transports.None? ==> r.tag == Pedestrian && r.color == WalkColor
    ensures raw.transports.Some? ==> r.tag in {"", "bus", "tramway", "underground"}
    ensures raw.stops == [] ==> r.points == PointBound(SentinelPoint, SentinelPoint)
    ensures raw.stops != [] ==>
              && r.points.startPoint.name == raw.stops[0]
              && r.points.endPoint.name == raw.stops[|raw.stops| - 1]
              && r.points.startPoint.color == r.color == r.points.endPoint.color
              && r.points.startPoint.zIndex == r.points.endPoint.zIndex
              && 0 <= r.points.startPoint.zIndex <= 3
              && (raw.transports.None? ==> r.points.startPoint.zIndex == 0)
    ensures raw.transports.Some? ==> r.Transit? && r.lineName == LineStyle(raw.transports.value, DefaultColor, "").1
    ensures r.Transit? ==>
              && r.intermediateStations == IntermediateStations(raw.stops)
              && r.directionDesc == DirectionDesc(raw.stops)
              && r.lineId == "?" && r.interval == "?"
  {
    var lineName := if raw.transports.None? then "" else LineStyle(raw.transports.value, DefaultColor, "").1;
    var st :=
      if raw.transports.None? then Style(WalkColor, Pedestrian, 0)
      else
        JavaVehicleStyle(VehicleTypes(raw.transports.value), RideSeed(raw.transports.value));
    JavaVehicleStyleRange(raw.transports, st);
    var points := Endpoints(raw.stops, st.color, st.zIndex);
    if st.tag == Pedestrian then
      Plain(st.tag, raw.duration, raw.walkingDistance, st.color, points)
    else
      Transit(st.tag, raw.duration, raw.walkingDistance, st.color, points,
              lineName, "?", DirectionDesc(raw.stops), "?", IntermediateStations(raw.stops))
  }

  /** Every style the Android vehicle loop reaches has a ride tag (or none) and a priority from 0 to 3. */
  lemma {:induction false} JavaVehicleStyleTags(vs: seq<Option<string>>, st: Style)
    requires st.tag in {"", "bus", "tramway", "underground"} && 0 <= st.zIndex <= 3
    ensures JavaVehicleStyle(vs, st).tag in {"", "bus", "tramway", "underground"}
    ensures 0 <= JavaVehicleStyle(vs, st).zIndex <= 3
    decreases |vs|
  {
    if vs != [] && vs[0].Some? {
      JavaVehicleStyleTags(vs[1..], JavaStep(vs[0], st).1);
    }
  }

  /** The style chosen for a section: walking sections are pedestrian, rides are never. */
  lemma JavaVehicleStyleRange(transports: Option<seq<Transport>>, st: Style)
    requires transports.None? ==> st == Style(WalkColor, Pedestrian, 0)
    requires transports.Some? ==>
               st == JavaVehicleStyle(VehicleTypes(transports.value), RideSeed(transports.value))
    ensures transports.Some? ==> st.tag in {"", "bus", "tramway", "underground"}
    ensures 0 <= st.zIndex <= 3
  {
    if transports.Some? {
      JavaVehicleStyleTags(VehicleTypes(transports.value), RideSeed(transports.value));
    }
  }

  /**
   The tag, priority and colour Android gives a ride section. The first `n`
   transports have a known vehicle type. With none, the section keeps an
   empty tag, priority 0 and its line colour. Otherwise it takes the type of
   the last of those transports.
   */
  lemma RideClassification(raw: RawSection, n: int)
    requires raw.transports.Some? && KnownPrefix(VehicleTypes(raw.transports.value), n)
    ensures n == 0 ==> GetMasstransitSectionInfo(raw).tag == ""
    ensures n == 0 ==> GetMasstransitSectionInfo(raw).color == LineStyle(raw.transports.value, DefaultColor, "").0
    ensures n > 0 ==> GetMasstransitSectionInfo(raw).tag == VehicleTypeOf(raw.transports.value[n - 1]).value
    ensures n > 0 ==>
              GetMasstransitSectionInfo(raw).color ==
              (if PaintsRideColor(VehicleTypes(raw.transports.value), n) then RideColor
               else LineStyle(raw.transports.value, DefaultColor, "").0)
    ensures raw.stops != [] ==>
              GetMasstransitSectionInfo(raw).points.startPoint.zIndex
              == (if n == 0 then 0 else Rank(GetMasstransitSectionInfo(raw).tag))
  {
    var ts := raw.transports.value;
    JavaVehicleStyleIsLastKnown(VehicleTypes(ts), RideSeed(ts), n);
  }

  /**
   The iOS classification of one routing-engine section. It differs from
   Android in three ways. The vehicle loop never assigns a style, so a ride
   keeps the empty tag and priority 0. The direction description is bound to
   a new local inside the loop, so the field stays empty. The function's
   optional result is never empty.
   */
  function SwiftGetMasstransitSectionInfo(raw: RawSection): (r: SectionInfo)
    ensures r.Plain? <==> raw.transports.None?
    ensures raw.transports.None? ==> r == GetMasstransitSectionInfo(raw)
    ensures raw.transports.Some? ==>
              && r.tag == ""
              && r.directionDesc == ""
              && r.color == LineStyle(raw.transports.value, DefaultColor, "").0
              && (raw.stops != [] ==> r.points.startPoint.zIndex == 0 && r.points.endPoint.zIndex == 0)
    ensures raw.transports.Some? ==>
              var a := GetMasstransitSectionInfo(raw);
              var c := LineStyle(raw.transports.value, DefaultColor, "").0;
              a.Transit? && r == a.(tag := "", color := c, directionDesc := "", points := Endpoints(raw.stops, c, 0))
  {
    var lineName := if raw.transports.None? then "" else LineStyle(raw.transports.value, DefaultColor, "").1;
    var ts := if raw.transports.None? then [] else raw.transports.value;
    SwiftVehicleStyleIsInert(VehicleTypes(ts), RideSeed(ts));
    var st :=
      if raw.transports.None? then Style(WalkColor, Pedestrian, 0)
      else SwiftVehicleStyle(VehicleTypes(ts), RideSeed(ts));
    var points := Endpoints(raw.stops, st.color, st.zIndex);
    if st.tag == Pedestrian then
      Plain(st.tag, raw.duration, raw.walkingDistance, st.color, points)
    else
      Transit(st.tag, raw.duration, raw.walkingDistance, st.color, points,
              lineName, "?", "", "?", IntermediateStations(raw.stops))
  }

  /**
   A bus ride with three stops. Android tags it "bus" with priority 1 and
   names the middle stop as its direction. iOS leaves the tag empty, the
   priority 0 and the direction empty.
   */
  lemma SwiftDropsVehicleStyle()
    ensures var raw := RawSection(Some([Transport("12", None, ["bus"])]), ["A", "B", "C"], 600.0, 0.0);
            && GetMasstransitSectionInfo(raw).tag == "bus"
            && GetMasstransitSectionInfo(raw).points.startPoint.zIndex == 1
            && GetMasstransitSectionInfo(raw).directionDesc == "B"
            && SwiftGetMasstransitSectionInfo(raw).tag == ""
            && SwiftGetMasstransitSectionInfo(raw).points.startPoint.zIndex == 0
            && SwiftGetMasstransitSectionInfo(raw).directionDesc == ""
  {
    var raw := RawSection(Some([Transport("12", None, ["bus"])]), ["A", "B", "C"], 600.0, 0.0);
    var ts := raw.transports.value;
    assert VehicleTypeOf(ts[0]) == Some("bus");
    assert KnownPrefix(VehicleTypes(ts), 1);
    RideClassification(raw, 1);
  }
}
