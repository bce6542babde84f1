/** The body of the data preparation: routing each grouped trip into the
    `containers` table keyed by (section, day, bus type), sorting every list
    by start time, and laying the table out as the `data.json` document. */
module Prepare {
  import opened Wrappers
  import opened Text
  import opened Sorting
  import opened Timetable
  import opened Times
  import opened Days
  import opened StopSearch
  import opened Reconstruct

  /** One group of `df.groupby(["Tipus_dia", "Direccio", "Tipus_bus",
      "Id_viatge_dia"])`: its key (the day and trip identifier as their
      `str()`, the direction and bus type as `None` where pandas reads NaN)
      and its rows. */
  datatype Group = Group(dayRaw: string, direction: Option<string>, busRaw: Option<string>,
                         tripId: string, rows: seq<Row>)

  /** An entry of `SECTIONS`. */
  datatype SectionSpec = SectionSpec(id: string, title: string, order: seq<string>)

  const ManresaBarcelona: string := "Manresa - Barcelona"
  const BarcelonaManresa: string := "Barcelona - Manresa"

  const E22Types: seq<string> := ["e22", "semidirecte"]
  const E23Types: seq<string> := ["e23", "semidirecte"]

  /** `SECTIONS`. */
  const Sections: seq<SectionSpec> := [
    SectionSpec("m2b", "Manresa → Barcelona", E22Types),
    SectionSpec("b2m", "Barcelona → Manresa", E22Types),
    SectionSpec("o2b", "Olesa o Monistrol → Barcelona", E23Types),
    SectionSpec("b2o", "Barcelona → Olesa o Monistrol", E23Types)
  ]

  const SectionIds: seq<string> := ["m2b", "b2m", "o2b", "b2o"]

  /** The bus types every day holds a list for. */
  const BusTypes: seq<string> := ["e22", "e23", "semidirecte"]

  /** A key of the `containers` table. */
  datatype Slot = Slot(section: string, day: string, busType: string)

  /** Every key `containers` is created with. */
  const AllSlots: set<Slot> :=
    set sid, d, bt | sid in SectionIds && d in DayOrder && bt in BusTypes :: Slot(sid, d, bt)

  /** The bus types a section's lists may receive: those of its
      `busTypeOrder`. */
  function AllowedTypes(sid: string): seq<string>
  {
    if sid == "m2b" || sid == "b2m" then E22Types else E23Types
  }

  /** `bt if bt in allowed else "semidirecte"`. */
  function Coerce(bt: string, allowed: seq<string>): string
  {
    if bt in allowed then bt else "semidirecte"
  }

  /** `int(trip_id) if str(trip_id).isdigit() else str(trip_id)`. */
  function TripIdOut(raw: string): (id: TripId)
    ensures id.Number? <==> raw != [] && AllDigits(raw)
    ensures id.Number? ==> AllDigits(IdText(id)) && DigitsValue(IdText(id)) == DigitsValue(raw)
    ensures id.Label? ==> IdText(id) == raw
  {
    if raw != [] && AllDigits(raw) then
      NatToStringRoundTrip(DigitsValue(raw));
      Number(DigitsValue(raw))
    else Label(raw)
  }

  /** A trip as `add` records it: at least two stops, starting at the time
      of its first stop and ending at the time of its last. */
  predicate WellFormedTrip(t: Trip)
  {
    |t.stops| >= 2 && t.startTime == t.stops[0].time && t.endTime == t.stops[|t.stops| - 1].time
  }

  /** The trip record `add` appends. */
  function MakeTrip(id: TripId, sub: Slice): Trip
  {
    Trip(id, sub.startTime, sub.endTime, sub.stops)
  }

  /** A trip routed to a slot. */
  datatype Placement = Placement(slot: Slot, trip: Trip)

  /** The sub-line of a trip: added only when a stop matching `from` comes
      strictly before a stop matching `to`. */
  function SubLine(section: string, day: string, bt: string, id: TripId, stops: seq<StopTime>,
                   si: Option<nat>, ei: Option<nat>): (ps: seq<Placement>)
    requires si.Some? ==> si.value < |stops|
    requires ei.Some? ==> ei.value < |stops|
    requires section in SectionIds && day in DayOrder
    ensures |ps| <= 1
    ensures |ps| == 1 <==> si.Some? && ei.Some? && si.value < ei.value
    ensures forall k :: 0 <= k < |ps| ==>
              ps[k].slot.section == section && ps[k].slot.day == day && ps[k].slot.busType in E23Types
    ensures forall k :: 0 <= k < |ps| ==> ps[k].slot.busType == Coerce(bt, E23Types) && ps[k].trip.tripId == id
    ensures forall k :: 0 <= k < |ps| ==> WellFormedTrip(ps[k].trip)
    ensures |ps| == 1 ==> (si.Some? && ei.Some? && si.value < ei.value
                           && ps[0].trip.stops == stops[si.value..ei.value + 1])
    ensures Sorted(stops, StopKey) ==> forall k :: 0 <= k < |ps| ==> Sorted(ps[k].trip.stops, StopKey)
  {
    if si.Some? && ei.Some? && si.value < ei.value then
      SliceOfSorted(stops, si.value, ei.value);
      [Placement(Slot(section, day, Coerce(bt, E23Types)), MakeTrip(id, SliceTrip(stops, si.value, ei.value)))]
    else []
  }

  /** One direction's placements: the whole trip under `section`, then its
      sub-line from the first stop matching `from` to the last stop matching
      `to` under `subSection`. */
  function Branch(section: string, subSection: string, from: seq<string>, to: seq<string>,
                  day: string, bt: string, id: TripId, stops: seq<StopTime>): (ps: seq<Placement>)
    requires section in SectionIds && subSection in SectionIds && day in DayOrder && |stops| >= 2
    ensures 1 <= |ps| <= 2 && ps[0].trip.stops == stops
    ensures ps[0].slot == Slot(section, day, Coerce(bt, E22Types))
    ensures forall k :: 0 <= k < |ps| ==> ps[k].slot.day == day
    ensures forall k :: 0 <= k < |ps| ==> WellFormedTrip(ps[k].trip)
    ensures |ps| == 2 ==> ps[1].slot.section == subSection && ps[1].slot.busType in E23Types
    ensures |ps| == 2 ==> ps[1].slot == Slot(subSection, day, Coerce(bt, E23Types))
    ensures forall k :: 0 <= k < |ps| ==> ps[k].trip.tripId == id
    ensures Sorted(stops, StopKey) ==> forall k :: 0 <= k < |ps| ==> Sorted(ps[k].trip.stops, StopKey)
  {
    var names := StopNames(stops);
    var whole := Placement(Slot(section, day, Coerce(bt, E22Types)), MakeTrip(id, SliceTrip(stops, 0, |stops| - 1)));
    assert whole.trip.stops == stops && WellFormedTrip(whole.trip) by {
      assert stops[0..|stops|] == stops;
    }
    var sub := SubLine(subSection, day, bt, id, stops, FirstMatch(names, from), LastMatch(names, to));
    if sub == [] then [whole] else [whole, sub[0]]
  }

  /** What one group adds, given its day bucket and its reconstructed stops:
      nothing for an unknown day, fewer than two stops or another direction;
      otherwise the whole trip under `m2b`/`b2m`, then possibly its
      Olesa/Monistrol sub-line under `o2b`/`b2o`. */
  function RouteStops(day: string, direction: Option<string>, busRaw: Option<string>, id: TripId,
                      stops: seq<StopTime>): (ps: seq<Placement>)
    ensures |ps| <= 2
    ensures ps != [] <==> (day in DayOrder && |stops| >= 2
                           && (direction == Some(ManresaBarcelona) || direction == Some(BarcelonaManresa)))
    ensures ps != [] ==> ps[0].trip.stops == stops
    ensures ps != [] ==> ps[0].slot == Slot(if direction == Some(ManresaBarcelona) then "m2b" else "b2m", day,
                                            Coerce(ClassifyBusType(StopNames(stops), busRaw), E22Types))
    ensures |ps| == 2 ==> ps[1].slot == Slot(if direction == Some(ManresaBarcelona) then "o2b" else "b2o", day,
                                             Coerce(ClassifyBusType(StopNames(stops), busRaw), E23Types))
    ensures forall k :: 0 <= k < |ps| ==> ps[k].slot.day == day && ps[k].trip.tripId == id
    ensures InSections(ps)
    ensures forall k :: 0 <= k < |ps| ==> WellFormedTrip(ps[k].trip)
    ensures Sorted(stops, StopKey) ==> forall k :: 0 <= k < |ps| ==> Sorted(ps[k].trip.stops, StopKey)
  {
    if day !in DayOrder || |stops| < 2 then []
    else
      var bt := ClassifyBusType(StopNames(stops), busRaw);
      if direction == Some(ManresaBarcelona) then
        var ps := Branch("m2b", "o2b", OlesaMonistrol, Barcelona, day, bt, id, stops);
        BranchInSections("m2b", "o2b", bt, ps);
        ps
      else if direction == Some(BarcelonaManresa) then
        var ps := Branch("b2m", "b2o", Barcelona, OlesaMonistrol, day, bt, id, stops);
        BranchInSections("b2m", "b2o", bt, ps);
        ps
      else []
  }

  /** Every placement is for a known section and a bus type it has lists
      for. */
  predicate InSections(ps: seq<Placement>)
  {
    forall k :: 0 <= k < |ps| ==> ps[k].slot.section in SectionIds && ps[k].slot.busType in AllowedTypes(ps[k].slot.section)
  }

  /** A direction's placements, as `Branch` makes them, are for known
      sections and bus types those sections list. */
  lemma BranchInSections(section: string, subSection: string, bt: string, ps: seq<Placement>)
    requires (section == "m2b" && subSection == "o2b") || (section == "b2m" && subSection == "b2o")
    requires 1 <= |ps| <= 2 && ps[0].slot.section == section && ps[0].slot.busType == Coerce(bt, E22Types)
    requires |ps| == 2 ==> ps[1].slot.section == subSection && ps[1].slot.busType in E23Types
    ensures InSections(ps)
  {
    SectionTypes();
    CoerceAllowed(bt, E22Types);
  }

  /** The two line sections list `e22`, the two sub-line sections `e23`. */
  lemma SectionTypes()
    ensures "m2b" in SectionIds && "b2m" in SectionIds && "o2b" in SectionIds && "b2o" in SectionIds
    ensures AllowedTypes("m2b") == E22Types && AllowedTypes("b2m") == E22Types
    ensures AllowedTypes("o2b") == E23Types && AllowedTypes("b2o") == E23Types
  {
    assert "o2b"[0] != "m2b"[0] && "o2b"[0] != "b2m"[0];
    assert "b2o"[0] != "m2b"[0] && "b2o"[2] != "b2m"[2];
    assert SectionIds == ["m2b", "b2m", "o2b", "b2o"];
  }

  lemma CoerceAllowed(bt: string, allowed: seq<string>)
    requires "semidirecte" in allowed
    ensures Coerce(bt, allowed) in allowed
  {
  }

  /** What one group adds to `containers`, in order. */
  function Route(g: Group): seq<Placement>
  {
    RouteStops(DayBucket(g.dayRaw), g.direction, g.busRaw, TripIdOut(g.tripId), Reconstructed(g.rows))
  }

  /** The trips among `ps` placed in `slot`, in order. */
  function SlotTrips(ps: seq<Placement>, slot: Slot): seq<Trip>
  {
    if ps == [] then []
    else SlotTrips(ps[..|ps| - 1], slot) + (if ps[|ps| - 1].slot == slot then [ps[|ps| - 1].trip] else [])
  }

  /** The list `containers[slot]` holds after the groups, before sorting. */
  function Placed(gs: seq<Group>, slot: Slot): seq<Trip>
  {
    if gs == [] then [] else Placed(gs[..|gs| - 1], slot) + SlotTrips(Route(gs[|gs| - 1]), slot)
  }

  /** A table after appending each placement's trip to its slot's list, in
      order. A placement for a slot the table lacks would be a `KeyError`;
      the methods below show `add` is never called with one, and here it is
      passed over. */
  function AddAll(m: map<Slot, seq<Trip>>, ps: seq<Placement>): (r: map<Slot, seq<Trip>>)
    ensures r.Keys == m.Keys
  {
    if ps == [] then m
    else
      var r := AddAll(m, ps[..|ps| - 1]);
      var p := ps[|ps| - 1];
      if p.slot in r then r[p.slot := r[p.slot] + [p.trip]] else r
  }

  /** Each slot gains exactly the trips placed in it, in order. */
  lemma {:induction false} AddAllSpec(m: map<Slot, seq<Trip>>, ps: seq<Placement>)
    ensures forall s :: s in m ==> AddAll(m, ps)[s] == m[s] + SlotTrips(ps, s)
  {
    if ps != [] {
      AddAllSpec(m, ps[..|ps| - 1]);
    }
  }

  /** The sort key of line 273: start minutes, where `00:00` and unparseable
      times both count as `10**9`, then the identifier's text. */
  function TripKey(t: Trip): SortKey
  {
    SortKey(FalsyOrBillion(t.startTime), IdText(t.tripId))
  }

  /** `containers` after the sorting loop. */
  ghost function SortedContainers(gs: seq<Group>): map<Slot, seq<Trip>>
  {
    map s | s in AllSlots :: SortBy(Placed(gs, s), TripKey)
  }

  /** `containers[sid][d]`: the three lists of a day. */
  function BusesOf(c: map<Slot, seq<Trip>>, sid: string, day: string): map<string, seq<Trip>>
    requires forall bt :: bt in BusTypes ==> Slot(sid, day, bt) in c
  {
    map bt | bt in BusTypes :: c[Slot(sid, day, bt)]
  }

  /** `out_data`: the sections in `SECTIONS` order, each with its days in
      `DAY_ORDER` order. */
  function ToDocument(c: map<Slot, seq<Trip>>): Document
    requires forall sid, d, bt :: sid in SectionIds && d in DayOrder && bt in BusTypes ==> Slot(sid, d, bt) in c
  {
    Document(seq(|Sections|, k requires 0 <= k < |Sections| =>
      Section(Sections[k].id, Sections[k].title, Some(Sections[k].order),
        seq(|DayOrder|, d requires 0 <= d < |DayOrder| =>
          Day(DayOrder[d], BusesOf(c, SectionIds[k], DayOrder[d]))))))
  }

  /** The `containers` table: a list per slot, appended to by `add` and
      sorted in place at the end. */
  class Containers {
    var lists: map<Slot, seq<Trip>>

    /** Every slot starts with an empty list. */
    constructor ()
      ensures lists == map s | s in AllSlots :: []
    {
      lists := map s | s in AllSlots :: [];
    }

    /** `add`: appends a trip to one slot's list. */
    method Add(slot: Slot, trip: Trip)
      requires slot in lists
      modifies this
      ensures lists == old(lists)[slot := old(lists)[slot] + [trip]]
    {
      lists := lists[slot := lists[slot] + [trip]];
    }

    /** The final loop: sorts every list by `TripKey`, stably. */
    method SortAll()
      modifies this
      ensures lists == map s | s in old(lists) :: SortBy(old(lists)[s], TripKey)
    {
      ghost var before := lists;
      var remaining := lists.Keys;
      while remaining != {}
        invariant remaining <= lists.Keys && lists.Keys == before.Keys
        invariant forall s :: s in lists && s !in remaining ==> lists[s] == SortBy(before[s], TripKey)
        invariant forall s :: s in remaining ==> lists[s] == before[s]
        decreases remaining
      {
        var s :| s in remaining;
        lists := lists[s := SortBy(lists[s], TripKey)];
        remaining := remaining - {s};
      }
    }
  }

  /** The slots `add` is called with exist from the start. */
  lemma SlotExists(sid: string, day: string, bt: string, allowed: seq<string>)
    requires sid in SectionIds && day in DayOrder && (allowed == E22Types || allowed == E23Types)
    ensures Slot(sid, day, Coerce(bt, allowed)) in AllSlots
  {
  }

  /** One direction branch of `main`'s loop: the whole trip under `section`,
      then, when a stop matching `from` comes strictly before a stop matching
      `to`, the slice between them under `subSection`. */
  method AddDirection(c: Containers, section: string, subSection: string, from: seq<string>, to: seq<string>,
                      day: string, bt: string, id: TripId, stopList: seq<StopTime>, names: seq<string>)
    requires section in SectionIds && subSection in SectionIds && day in DayOrder
    requires |stopList| >= 2 && names == StopNames(stopList)
    requires c.lists.Keys == AllSlots
    modifies c
    ensures c.lists == AddAll(old(c.lists), Branch(section, subSection, from, to, day, bt, id, stopList))
  {
    ghost var prev := c.lists;
    var slot := Slot(section, day, Coerce(bt, E22Types));
    SlotExists(section, day, bt, E22Types);
    c.Add(slot, MakeTrip(id, SliceTrip(stopList, 0, |stopList| - 1)));
    ghost var ps := [Placement(slot, MakeTrip(id, SliceTrip(stopList, 0, |stopList| - 1)))];
    assert ps[..0] == [];
    assert c.lists == AddAll(prev, ps);
    var si := IdxFirst(names, from);
    var ei := IdxLast(names, to);
    if si.Some? && ei.Some? && si.value < ei.value {
      var sub := Slot(subSection, day, Coerce(bt, E23Types));
      SlotExists(subSection, day, bt, E23Types);
      c.Add(sub, MakeTrip(id, SliceTrip(stopList, si.value, ei.value)));
      ps := ps + [Placement(sub, MakeTrip(id, SliceTrip(stopList, si.value, ei.value)))];
      assert ps[..1] == [ps[0]];
    }
    assert c.lists == AddAll(prev, ps);
  }

  /** The body of `main`'s loop over the groups: bucket the day, rebuild the
      stops, drop short trips, classify, and add the trip (and its sub-line)
      for the group's direction. */
  method RouteGroup(c: Containers, g: Group)
    requires c.lists.Keys == AllSlots
    modifies c
    ensures c.lists == AddAll(old(c.lists), Route(g))
  {
    var day := DayBucket(g.dayRaw);
    if day !in DayOrder {
      assert Route(g) == [];
      return;
    }
    var stopList := ReconstructStops(g.rows);
    if |stopList| < 2 {
      assert Route(g) == [];
      return;
    }
    var names := StopNames(stopList);
    var bt := ClassifyBusType(names, g.busRaw);
    var id := TripIdOut(g.tripId);
    assert Route(g) == RouteStops(day, g.direction, g.busRaw, id, stopList);
    if g.direction == Some(ManresaBarcelona) {
      AddDirection(c, "m2b", "o2b", OlesaMonistrol, Barcelona, day, bt, id, stopList, names);
    } else if g.direction == Some(BarcelonaManresa) {
      AddDirection(c, "b2m", "b2o", Barcelona, OlesaMonistrol, day, bt, id, stopList, names);
    } else {
      assert Route(g) == [];
    }
  }

  /** `main` from grouping to `out_data`: routes every group into
      `containers`, sorts every list and builds the document. */
  method Prepare(groups: seq<Group>) returns (doc: Document)
    ensures doc == ToDocument(SortedContainers(groups))
  {
    var c := new Containers();
    for i := 0 to |groups|
      invariant c.lists.Keys == AllSlots
      invariant forall s :: s in AllSlots ==> c.lists[s] == Placed(groups[..i], s)
    {
      assert groups[..i + 1][..i] == groups[..i];
      ghost var prev := c.lists;
      RouteGroup(c, groups[i]);
      AddAllSpec(prev, Route(groups[i]));
    }
    assert groups[..|groups|] == groups;
    ghost var unsorted := c.lists;
    c.SortAll();
    SortingGivesContainers(unsorted, groups);
    doc := ToDocument(c.lists);
  }

  /** Sorting every list of the filled table gives `SortedContainers`. */
  lemma SortingGivesContainers(m: map<Slot, seq<Trip>>, groups: seq<Group>)
    requires m.Keys == AllSlots && forall s :: s in AllSlots ==> m[s] == Placed(groups, s)
    ensures (map s | s in m :: SortBy(m[s], TripKey)) == SortedContainers(groups)
  {
  }

  // ---------------------------------------------------------------- lemmas

  /** A sub-line starts at stop `si` and ends at stop `ei`. */
  lemma SubLineEnds(section: string, day: string, bt: string, id: TripId, stops: seq<StopTime>,
                    si: Option<nat>, ei: Option<nat>)
    requires si.Some? ==> si.value < |stops|
    requires ei.Some? ==> ei.value < |stops|
    requires section in SectionIds && day in DayOrder
    ensures var ps := SubLine(section, day, bt, id, stops, si, ei);
            |ps| == 1 ==> |ps[0].trip.stops| >= 2
                          && ps[0].trip.stops[0] == stops[si.value]
                          && ps[0].trip.stops[|ps[0].trip.stops| - 1] == stops[ei.value]
  {
    var ps := SubLine(section, day, bt, id, stops, si, ei);
    if |ps| == 1 {
      var t := ps[0].trip.stops;
      assert t == stops[si.value..ei.value + 1];
      assert |t| == ei.value - si.value + 1;
    }
  }

  /** The sub-line is added exactly when a stop matching `from` comes
      strictly before a stop matching `to`, and it is then the second of
      the direction's placements. */
  lemma SubLineRule(section: string, subSection: string, from: seq<string>, to: seq<string>,
                    day: string, bt: string, id: TripId, stops: seq<StopTime>)
    requires section in SectionIds && subSection in SectionIds && day in DayOrder && |stops| >= 2
    ensures var si := FirstMatch(StopNames(stops), from);
            var ei := LastMatch(StopNames(stops), to);
            |Branch(section, subSection, from, to, day, bt, id, stops)| == 2
            <==> si.Some? && ei.Some? && si.value < ei.value
    ensures Branch(section, subSection, from, to, day, bt, id, stops)[1..]
            == SubLine(subSection, day, bt, id, stops, FirstMatch(StopNames(stops), from), LastMatch(StopNames(stops), to))
  {
    var names := StopNames(stops);
    var ps := Branch(section, subSection, from, to, day, bt, id, stops);
    assert ps[1..] == SubLine(subSection, day, bt, id, stops, FirstMatch(names, from), LastMatch(names, to));
  }

  /** For a routed group, the sub-line is added exactly when, towards
      Barcelona, a stop of Olesa or Monistrol comes strictly before a stop of
      Barcelona, and, towards Manresa, a stop of Barcelona comes strictly
      before one of Olesa or Monistrol. */
  lemma RouteStopsSubLine(day: string, direction: Option<string>, busRaw: Option<string>, id: TripId,
                          stops: seq<StopTime>)
    requires RouteStops(day, direction, busRaw, id, stops) != []
    ensures var names := StopNames(stops);
            var from := if direction == Some(ManresaBarcelona) then OlesaMonistrol else Barcelona;
            var to := if direction == Some(ManresaBarcelona) then Barcelona else OlesaMonistrol;
            |RouteStops(day, direction, busRaw, id, stops)| == 2
            <==> FirstMatch(names, from).Some? && LastMatch(names, to).Some?
                 && FirstMatch(names, from).value < LastMatch(names, to).value
  {
    var bt := ClassifyBusType(StopNames(stops), busRaw);
    SectionTypes();
    if direction == Some(ManresaBarcelona) {
      SubLineRule("m2b", "o2b", OlesaMonistrol, Barcelona, day, bt, id, stops);
    } else {
      SubLineRule("b2m", "b2o", Barcelona, OlesaMonistrol, day, bt, id, stops);
    }
  }

  /** At least two stops, the first matching `from` and the last matching
      `to`. */
  predicate Spans(t: seq<StopTime>, from: seq<string>, to: seq<string>)
  {
    |t| >= 2 && MatchesAny(t[0].stop, from) && MatchesAny(t[|t| - 1].stop, to)
  }

  /** The sub-line runs from the first stop matching `from` to the last stop
      matching `to`: it starts at a stop matching `from` and ends at one
      matching `to`. */
  lemma SubLineStops(section: string, from: seq<string>, to: seq<string>,
                     day: string, bt: string, id: TripId, stops: seq<StopTime>)
    requires section in SectionIds && day in DayOrder
    ensures var ps := SubLine(section, day, bt, id, stops, FirstMatch(StopNames(stops), from), LastMatch(StopNames(stops), to));
            |ps| == 1 ==> Spans(ps[0].trip.stops, from, to)
  {
    var names := StopNames(stops);
    var si := FirstMatch(names, from);
    var ei := LastMatch(names, to);
    var ps := SubLine(section, day, bt, id, stops, si, ei);
    if |ps| == 1 {
      SubLineEnds(section, day, bt, id, stops, si, ei);
      var t := ps[0].trip.stops;
      assert t[0].stop == names[si.value] && t[|t| - 1].stop == names[ei.value];
      assert Spans(t, from, to);
    }
  }

  /** A trip in a slot's list was placed there by one of the groups. */
  lemma {:induction false} SlotTripsMember(ps: seq<Placement>, s: Slot, t: Trip)
    requires t in SlotTrips(ps, s)
    ensures Placement(s, t) in ps
  {
    var init := ps[..|ps| - 1];
    if t in SlotTrips(init, s) {
      SlotTripsMember(init, s, t);
      assert init <= ps;
    }
  }

  lemma {:induction false} PlacedFrom(gs: seq<Group>, s: Slot, t: Trip)
    requires t in Placed(gs, s)
    ensures exists i :: 0 <= i < |gs| && Placement(s, t) in Route(gs[i])
  {
    var init := gs[..|gs| - 1];
    if t in Placed(init, s) {
      PlacedFrom(init, s, t);
      var i :| 0 <= i < |init| && Placement(s, t) in Route(init[i]);
      assert gs[i] == init[i];
    } else {
      SlotTripsMember(Route(gs[|gs| - 1]), s, t);
    }
  }

  /** Every trip in every list has at least two stops in time order, starts
      at its first stop's time and ends at its last's, and sits in a list
      whose bus type its section admits. */
  lemma PlacedTrips(gs: seq<Group>, s: Slot, t: Trip)
    requires t in Placed(gs, s)
    ensures s.section in SectionIds && s.day in DayOrder && s.busType in AllowedTypes(s.section)
    ensures WellFormedTrip(t) && Sorted(t.stops, StopKey)
  {
    PlacedFrom(gs, s, t);
    var i :| 0 <= i < |gs| && Placement(s, t) in Route(gs[i]);
    ReconstructedOrdered(gs[i].rows);
  }

  /** The document has the four sections in `SECTIONS` order, each with its
      `busTypeOrder` and the three days in `DAY_ORDER` order, each day with a
      list for every bus type. */
  lemma DocumentShape(c: map<Slot, seq<Trip>>)
    requires forall sid, d, bt :: sid in SectionIds && d in DayOrder && bt in BusTypes ==> Slot(sid, d, bt) in c
    ensures |ToDocument(c).sections| == |Sections|
    ensures forall k :: 0 <= k < |Sections| ==>
              && ToDocument(c).sections[k].id == SectionIds[k]
              && ToDocument(c).sections[k].title == Sections[k].title
              && ToDocument(c).sections[k].busTypeOrder == Some(AllowedTypes(SectionIds[k]))
              && |ToDocument(c).sections[k].days| == |DayOrder|
    ensures forall k, d :: 0 <= k < |Sections| && 0 <= d < |DayOrder| ==>
              && ToDocument(c).sections[k].days[d].name == DayOrder[d]
              && (forall bt :: bt in ToDocument(c).sections[k].days[d].buses <==> bt in BusTypes)
              && (forall bt :: bt in BusTypes ==>
                    ToDocument(c).sections[k].days[d].buses[bt] == c[Slot(SectionIds[k], DayOrder[d], bt)])
  {
  }

  /** Every list of the document holds the trips routed to it, sorted by
      (start minutes, identifier text); a non-empty list is always one of its
      section's `busTypeOrder`. */
  lemma DocumentLists(groups: seq<Group>, k: nat, d: nat, bt: string)
    requires k < |Sections| && d < |DayOrder| && bt in BusTypes
    ensures var list := ToDocument(SortedContainers(groups)).sections[k].days[d].buses[bt];
            && Sorted(list, TripKey)
            && multiset(list) == multiset(Placed(groups, Slot(SectionIds[k], DayOrder[d], bt)))
            && (list != [] ==> bt in AllowedTypes(SectionIds[k]))
            && (forall t :: t in list ==> WellFormedTrip(t) && Sorted(t.stops, StopKey))
  {
    var c := SortedContainers(groups);
    var s := Slot(SectionIds[k], DayOrder[d], bt);
    assert s in AllSlots;
    DocumentShape(c);
    var list := c[s];
    forall t | t in list ensures WellFormedTrip(t) && Sorted(t.stops, StopKey) && bt in AllowedTypes(SectionIds[k]) {
      assert t in multiset(list);
      PlacedTrips(groups, s, t);
    }
    if list != [] {
      assert list[0] in list;
    }
  }

  /** The `00:00` quirk of line 273: a trip leaving at `00:00` sorts after
      every trip leaving at any other parseable time. */
  lemma MidnightStartSortsLast(t: Trip, u: Trip)
    requires t.startTime == "00:00" && TMin(u.startTime).Some? && TMin(u.startTime).value != 0
    ensures KeyLe(TripKey(u), TripKey(t)) && !KeyLe(TripKey(t), TripKey(u))
  {
    TMinSpec(u.startTime);
    TMinSpec("00:00");
    ShortDigitsValue("00");
  }
}
