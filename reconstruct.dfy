/** Rebuilding a trip's full stop sequence from its rows of the
    origin-destination matrix (`reconstruct_stops_from_matrix`), and cutting
    a sub-trip out of it (`slice_trip`). */
module Reconstruct {
  import opened Wrappers
  import opened Text
  import opened Times
  import opened Sorting
  import opened Timetable

  /** One matrix row: departure stop and time, arrival stop and time, each the
      `str()` of its cell, or `None` where pandas reads NaN. */
  datatype Row = Row(departStop: Option<string>, departTime: Option<string>,
                     arriveStop: Option<string>, arriveTime: Option<string>)

  /** A stop reached at a time that parsed to `minutes`. */
  datatype Visit = Visit(stop: string, time: string, minutes: nat)

  /** Every visit's minutes are those of its time. */
  predicate Consistent(vs: seq<Visit>)
  {
    vs == [] || (Consistent(vs[..|vs| - 1]) && TMin(vs[|vs| - 1].time) == Some(vs[|vs| - 1].minutes))
  }

  lemma {:induction false} ConsistentAt(vs: seq<Visit>, v: Visit)
    requires Consistent(vs) && v in vs
    ensures TMin(v.time) == Some(v.minutes)
  {
    if v != vs[|vs| - 1] {
      var k :| 0 <= k < |vs| && vs[k] == v;
      assert vs[..|vs| - 1][k] == v;
      ConsistentAt(vs[..|vs| - 1], v);
    }
  }

  lemma {:induction false} ConsistentAppend(xs: seq<Visit>, ys: seq<Visit>)
    requires Consistent(xs) && Consistent(ys)
    ensures Consistent(xs + ys)
  {
    if ys == [] {
      assert xs + ys == xs;
    } else {
      assert (xs + ys)[..|xs + ys| - 1] == xs + ys[..|ys| - 1];
      ConsistentAppend(xs, ys[..|ys| - 1]);
    }
  }

  /** The two visits of a row whose cells are all present, given its
      stripped stops and normalised times; nothing when a time is `-` or does
      not parse. */
  function PairVisits(a: string, ta: string, b: string, tb: string): (vs: seq<Visit>)
    ensures Consistent(vs)
  {
    if ta == "-" || tb == "-" then []
    else if TMin(ta).None? || TMin(tb).None? then []
    else [Visit(a, ta, TMin(ta).value), Visit(b, tb, TMin(tb).value)]
  }

  /** What one row contributes: its departure visit then its arrival visit,
      or nothing when a cell is missing, a normalised time is `-`, or a
      normalised time does not parse. */
  function RowVisits(r: Row): seq<Visit>
  {
    if r.departStop.None? || r.arriveStop.None? || r.departTime.None? || r.arriveTime.None? then []
    else PairVisits(Strip(r.departStop.value), NormTime(r.departTime.value),
                    Strip(r.arriveStop.value), NormTime(r.arriveTime.value))
  }

  /** The visits of all rows, in row order. */
  function AllVisits(rows: seq<Row>): seq<Visit>
  {
    if rows == [] then [] else AllVisits(rows[..|rows| - 1]) + RowVisits(rows[|rows| - 1])
  }

  lemma RowVisitsConsistent(r: Row)
    ensures Consistent(RowVisits(r))
  {
  }

  /** Every visit of every row carries the minutes of its own time. */
  lemma {:induction false} AllVisitsConsistent(rows: seq<Row>)
    ensures Consistent(AllVisits(rows))
  {
    if rows != [] {
      AllVisitsConsistent(rows[..|rows| - 1]);
      RowVisitsConsistent(rows[|rows| - 1]);
      ConsistentAppend(AllVisits(rows[..|rows| - 1]), RowVisits(rows[|rows| - 1]));
    }
  }

  /** `stop_to_time` together with its key order, which a Python dict keeps
      (the order in which stops were first seen). */
  datatype StopTable = StopTable(order: seq<string>, times: map<string, string>)

  ghost predicate WellFormed(t: StopTable)
  {
    && (forall i, j :: 0 <= i < j < |t.order| ==> t.order[i] != t.order[j])
    && (forall s :: s in t.times <==> s in t.order)
  }

  /** One update of `stop_to_time`: an unseen stop is added; a seen stop takes
      the new time when its minutes are below `tmin(old) or 10**9`. */
  function Record(t: StopTable, v: Visit): StopTable
  {
    if v.stop !in t.times then StopTable(t.order + [v.stop], t.times[v.stop := v.time])
    else if v.minutes < FalsyOrBillion(t.times[v.stop]) then StopTable(t.order, t.times[v.stop := v.time])
    else t
  }

  /** `stop_to_time` after the given visits. Its stops are exactly the
      visited ones. */
  function Table(vs: seq<Visit>): (t: StopTable)
    ensures WellFormed(t)
    ensures forall s :: s in t.times <==> exists k :: 0 <= k < |vs| && vs[k].stop == s
  {
    if vs == [] then StopTable([], map[])
    else
      var prev := Table(vs[..|vs| - 1]);
      assert forall k :: 0 <= k < |vs| - 1 ==> vs[k] == vs[..|vs| - 1][k];
      Record(prev, vs[|vs| - 1])
  }

  /** `[{"stop": s, "time": t} for s, t in stop_to_time.items()]`. */
  function Items(t: StopTable): seq<StopTime>
    requires WellFormed(t)
  {
    seq(|t.order|, i requires 0 <= i < |t.order| => StopTime(t.order[i], t.times[t.order[i]]))
  }

  /** The sort key of line 169: minutes, with only `None` replaced by
      `10**9`, then the stop name. */
  function StopKey(st: StopTime): SortKey
  {
    SortKey(NoneOrBillion(st.time), st.stop)
  }

  /** What `reconstruct_stops_from_matrix` returns for a group of rows. */
  function Reconstructed(rows: seq<Row>): seq<StopTime>
  {
    SortBy(Items(Table(AllVisits(rows))), StopKey)
  }

  /** Lines 163-166, once for a stop: the update of `stop_to_time` that
      `Record` describes. */
  method Update(order: seq<string>, times: map<string, string>, stop: string, time: string, minutes: nat)
    returns (order': seq<string>, times': map<string, string>)
    ensures StopTable(order', times') == Record(StopTable(order, times), Visit(stop, time, minutes))
  {
    order', times' := order, times;
    if stop !in times || minutes < FalsyOrBillion(times[stop]) {
      if stop !in times {
        order' := order + [stop];
      }
      times' := times[stop := time];
    }
  }

  /** A row's two visits are recorded one after the other. */
  lemma TablePair(vs: seq<Visit>, va: Visit, vb: Visit)
    ensures Table(vs + [va, vb]) == Record(Record(Table(vs), va), vb)
  {
    assert (vs + [va])[..|vs|] == vs;
    assert (vs + [va, vb])[..|vs| + 1] == vs + [va];
  }

  /** `reconstruct_stops_from_matrix`: one pass over the rows updating
      `stop_to_time`, then the list of items sorted by (minutes, stop). */
  method ReconstructStops(rows: seq<Row>) returns (items: seq<StopTime>)
    ensures items == Reconstructed(rows)
    ensures Sorted(items, StopKey) && DistinctNames(items, StopKey)
  {
    var stopToTime: map<string, string> := map[];
    var order: seq<string> := [];
    for i := 0 to |rows|
      invariant StopTable(order, stopToTime) == Table(AllVisits(rows[..i]))
    {
      ghost var vs := AllVisits(rows[..i]);
      assert rows[..i + 1][..i] == rows[..i];
      assert AllVisits(rows[..i + 1]) == vs + RowVisits(rows[i]);
      var r := rows[i];
      if r.departStop.None? || r.arriveStop.None? || r.departTime.None? || r.arriveTime.None? {
        assert vs + RowVisits(r) == vs;
        continue;
      }
      var a := Strip(r.departStop.value);
      var b := Strip(r.arriveStop.value);
      var ta := NormTime(r.departTime.value);
      var tb := NormTime(r.arriveTime.value);
      assert RowVisits(r) == PairVisits(a, ta, b, tb);
      if ta == "-" || tb == "-" {
        assert vs + RowVisits(r) == vs;
        continue;
      }
      var ma := TMin(ta);
      var mb := TMin(tb);
      if ma.None? || mb.None? {
        assert vs + RowVisits(r) == vs;
        continue;
      }
      ghost var va := Visit(a, ta, ma.value);
      ghost var vb := Visit(b, tb, mb.value);
      assert RowVisits(r) == [va, vb];
      TablePair(vs, va, vb);
      order, stopToTime := Update(order, stopToTime, a, ta, ma.value);
      order, stopToTime := Update(order, stopToTime, b, tb, mb.value);
    }
    assert rows[..|rows|] == rows;
    items := Items(StopTable(order, stopToTime));
    items := SortBy(items, StopKey);
    ReconstructedOrdered(rows);
  }

  // ---------------------------------------------------------------- lemmas

  /** Each stop's recorded time is one of the times it was visited at. */
  lemma {:induction false} TableTimeWasSeen(vs: seq<Visit>, s: string)
    requires s in Table(vs).times
    ensures exists v :: v in vs && v.stop == s && v.time == Table(vs).times[s]
  {
    var prev := Table(vs[..|vs| - 1]);
    var last := vs[|vs| - 1];
    if s in prev.times && Table(vs).times[s] == prev.times[s] {
      TableTimeWasSeen(vs[..|vs| - 1], s);
      var v :| v in vs[..|vs| - 1] && v.stop == s && v.time == prev.times[s];
      assert v in vs;
    } else {
      assert last in vs;
    }
  }

  /** One update keeps a stop's recorded minutes non-zero and never above
      either the minutes it had or those of the new visit to it. */
  lemma RecordStep(t: StopTable, v: Visit, s: string)
    requires TMin(v.time) == Some(v.minutes) && (v.stop == s ==> v.minutes != 0)
    requires s in t.times ==> TMin(t.times[s]).Some? && TMin(t.times[s]).value != 0
    ensures s in Record(t, v).times <==> s in t.times || v.stop == s
    ensures s in Record(t, v).times ==>
              TMin(Record(t, v).times[s]).Some? && TMin(Record(t, v).times[s]).value != 0
    ensures s in t.times ==> TMin(Record(t, v).times[s]).value <= TMin(t.times[s]).value
    ensures v.stop == s ==> TMin(Record(t, v).times[s]).value <= v.minutes
  {
  }

  /** Without a visit at minute 0 (`00:00`), a stop keeps its smallest time:
      the `or 10**9` at lines 163 and 165 only misfires on `00:00`. */
  lemma {:induction false} TableKeepsMinimum(vs: seq<Visit>, s: string)
    requires Consistent(vs) && s in Table(vs).times && NoMidnightVisit(vs, s)
    ensures TMin(Table(vs).times[s]).Some? && TMin(Table(vs).times[s]).value != 0
    ensures forall k :: 0 <= k < |vs| && vs[k].stop == s ==> TMin(Table(vs).times[s]).value <= vs[k].minutes
  {
    var init := vs[..|vs| - 1];
    var prev := Table(init);
    var last := vs[|vs| - 1];
    assert last in vs;
    ConsistentAt(vs, last);
    if s in prev.times {
      TableKeepsMinimum(init, s);
    }
    RecordStep(prev, last, s);
    assert forall k :: 0 <= k < |vs| - 1 ==> vs[k] == init[k];
  }

  /** Rows that are skipped contribute nothing, wherever they stand. */
  lemma {:induction false} AllVisitsAppend(xs: seq<Row>, ys: seq<Row>)
    ensures AllVisits(xs + ys) == AllVisits(xs) + AllVisits(ys)
  {
    if ys != [] {
      assert (xs + ys)[..|xs + ys| - 1] == xs + ys[..|ys| - 1];
      AllVisitsAppend(xs, ys[..|ys| - 1]);
    } else {
      assert xs + ys == xs;
    }
  }

  /** A row with a missing cell, a `-` time or an unparseable time adds no
      visit, wherever it is inserted. */
  lemma SkippedRowAddsNoVisit(before: seq<Row>, r: Row, after: seq<Row>)
    requires RowVisits(r) == []
    ensures AllVisits(before + [r] + after) == AllVisits(before + after)
  {
    var xs := before + [r];
    assert AllVisits(xs) == AllVisits(before) by {
      assert xs[..|xs| - 1] == before;
      assert AllVisits(before) + [] == AllVisits(before);
    }
    AllVisitsAppend(xs, after);
    AllVisitsAppend(before, after);
  }

  /** Such a row changes nothing in the reconstructed stops. */
  lemma SkippedRowChangesNothing(before: seq<Row>, r: Row, after: seq<Row>)
    requires RowVisits(r) == []
    ensures Reconstructed(before + [r] + after) == Reconstructed(before + after)
  {
    SkippedRowAddsNoVisit(before, r, after);
  }

  /** No visit to stop `s` is at minute 0 (`00:00`). */
  predicate NoMidnightVisit(vs: seq<Visit>, s: string)
  {
    forall k :: 0 <= k < |vs| && vs[k].stop == s ==> vs[k].minutes != 0
  }

  /** Every reconstructed entry is one of the table's items. */
  lemma ReconstructedFromItems(rows: seq<Row>, st: StopTime)
    requires st in Reconstructed(rows)
    ensures st in Items(Table(AllVisits(rows)))
  {
    assert st in multiset(Reconstructed(rows));
  }

  /** The reconstructed stop list is sorted by (minutes, stop) and names each
      stop once. */
  lemma ReconstructedOrdered(rows: seq<Row>)
    ensures Sorted(Reconstructed(rows), StopKey)
    ensures DistinctNames(Reconstructed(rows), StopKey)
  {
    SortByKeepsDistinct(Items(Table(AllVisits(rows))), StopKey);
  }

  /** Each reconstructed stop is listed at a time it was seen at. */
  lemma ReconstructedTimesSeen(rows: seq<Row>, st: StopTime)
    requires st in Reconstructed(rows)
    ensures exists v :: v in AllVisits(rows) && v.stop == st.stop && v.time == st.time
  {
    ReconstructedFromItems(rows, st);
    TableTimeWasSeen(AllVisits(rows), st.stop);
  }

  /** Every stop of a usable row is listed. */
  lemma ReconstructedCoversVisits(rows: seq<Row>, v: Visit)
    requires v in AllVisits(rows)
    ensures v.stop in StopNames(Reconstructed(rows))
  {
    var vs := AllVisits(rows);
    var t := Table(vs);
    var items := Items(t);
    var r := SortBy(items, StopKey);
    assert r == Reconstructed(rows);
    var k :| 0 <= k < |vs| && vs[k] == v;
    assert v.stop in t.times;
    var i :| 0 <= i < |t.order| && t.order[i] == v.stop;
    assert items[i].stop == v.stop;
    assert items[i] in multiset(items);
    var j :| 0 <= j < |r| && r[j] == items[i];
    assert StopNames(r)[j] == v.stop;
  }

  /** A stop none of whose visits is at `00:00` is listed at its earliest
      time. */
  lemma ReconstructedMinimum(rows: seq<Row>, st: StopTime, k: nat)
    requires st in Reconstructed(rows) && NoMidnightVisit(AllVisits(rows), st.stop)
    requires k < |AllVisits(rows)| && AllVisits(rows)[k].stop == st.stop
    ensures TMin(st.time).Some? && TMin(st.time).value <= AllVisits(rows)[k].minutes
  {
    ReconstructedFromItems(rows, st);
    AllVisitsConsistent(rows);
    TableKeepsMinimum(AllVisits(rows), st.stop);
  }

  /** The `00:00` quirk: a stop recorded at `00:00` counts as `10**9`, so any
      later visit with a real time replaces it, even one later in the day. */
  lemma MidnightIsOverwritten(t: StopTable, v: Visit)
    requires v.stop in t.times && TMin(t.times[v.stop]) == Some(0) && v.minutes < Billion
    ensures Record(t, v).times[v.stop] == v.time
  {
  }

  /** One instance: a stop seen at `00:00` and then at `00:05` ends up at
      `00:05`, which is not its smallest time. */
  lemma MidnightExample()
    ensures Table([Visit("A", "00:00", 0), Visit("A", "00:05", 5)]).times["A"] == "00:05"
  {
    var vs := [Visit("A", "00:00", 0), Visit("A", "00:05", 5)];
    assert vs[..1] == [Visit("A", "00:00", 0)];
    assert [Visit("A", "00:00", 0)][..0] == [];
    TMinSpec("00:00");
    ShortDigitsValue("00");
    MidnightIsOverwritten(Table(vs[..1]), vs[1]);
  }

  // ------------------------------------------------------------ slice_trip

  /** A contiguous part of a trip, `{"start_time", "end_time", "stops"}`. */
  datatype Slice = Slice(startTime: string, endTime: string, stops: seq<StopTime>)

  /** `slice_trip(stops, i, j)`: stops `i` to `j` inclusive, starting at the
      time of stop `i` and ending at the time of stop `j`. */
  function SliceTrip(stops: seq<StopTime>, i: nat, j: nat): (r: Slice)
    requires i <= j < |stops|
    ensures |r.stops| == j - i + 1 && r.stops == stops[i..j + 1]
    ensures r.startTime == stops[i].time && r.endTime == stops[j].time
  {
    var sub := stops[i..j + 1];
    Slice(sub[0].time, sub[|sub| - 1].time, sub)
  }

  /** A slice of a sorted stop list is sorted, and its start is not later
      than its end. */
  lemma SliceOfSorted(stops: seq<StopTime>, i: nat, j: nat)
    requires i <= j < |stops|
    ensures Sorted(stops, StopKey) ==> Sorted(SliceTrip(stops, i, j).stops, StopKey)
    ensures Sorted(stops, StopKey) ==>
              NoneOrBillion(SliceTrip(stops, i, j).startTime) <= NoneOrBillion(SliceTrip(stops, i, j).endTime)
  {
    if !Sorted(stops, StopKey) {
      return;
    }
    var r := SliceTrip(stops, i, j);
    forall a, b | 0 <= a < b < |r.stops| ensures KeyLe(StopKey(r.stops[a]), StopKey(r.stops[b])) {
      assert r.stops[a] == stops[i + a] && r.stops[b] == stops[i + b];
    }
    if i < j {
      assert KeyLe(StopKey(stops[i]), StopKey(stops[j]));
    }
  }
}
