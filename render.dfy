/** The renderer's page state: trip widgets that expand and collapse, the
    Section×Day panels with their bus-type groups, the two blocks of picker
    buttons, and the page that `buildUI` fills and `showPanel` switches.
    Only the attributes the code reads or writes are kept: `aria-expanded`
    and `hidden` of a trip, `aria-hidden` of a panel, `aria-pressed` and
    `data-target` of a button, and the text of the status line. */
module Render {
  import opened Wrappers
  import opened Text
  import opened Timetable
  import opened Format

  // ----------------------------------------------------------- trip toggle

  /** A trip's `aria-expanded` flag and its content's `hidden` flag. */
  datatype ToggleState = ToggleState(expanded: bool, hidden: bool)

  const Collapsed: ToggleState := ToggleState(false, true)

  /** The content is hidden exactly when the button is not expanded. */
  predicate InSync(s: ToggleState)
  {
    s.hidden <==> !s.expanded
  }

  /** The click handler: reads `aria-expanded`, writes its negation, and
      hides the content exactly when it was expanded. */
  function Toggle(s: ToggleState): ToggleState
  {
    ToggleState(!s.expanded, s.expanded)
  }

  /** A click flips `aria-expanded` and always leaves the content in step
      with it; two clicks give back a state that was in step. */
  lemma ToggleSpec(s: ToggleState)
    ensures Toggle(s).expanded == !s.expanded
    ensures InSync(Toggle(s))
    ensures InSync(s) ==> Toggle(Toggle(s)) == s
  {
  }

  /** The id of trip `uid`'s content element. */
  function ContentId(uid: nat): string
  {
    "trip_" + NatToString(uid)
  }

  /** Different trip numbers give different content ids. */
  lemma ContentIdsDistinct(a: nat, b: nat)
    requires a != b
    ensures ContentId(a) != ContentId(b)
  {
    assert ContentId(a)[5..] == NatToString(a);
    assert ContentId(b)[5..] == NatToString(b);
    if NatToString(a) == NatToString(b) {
      NatToStringInjective(a, b);
    }
  }

  /** One trip as `makeTrip` builds it: a button labelled `tripLabel` that
      controls the content `trip_<uid>` holding the route sentence. */
  class TripWidget {
    const uid: nat
    const trip: Trip
    const busType: string
    var expanded: bool
    var hidden: bool

    function State(): ToggleState
      reads this
    {
      ToggleState(expanded, hidden)
    }

    /** The button's `aria-label` and visible caption. */
    function AriaLabel(): string
    {
      TripLabel(trip, busType)
    }

    /** The text of the content element. */
    function Route(): string
    {
      RouteSentence(trip.stops)
    }

    /** A new trip is collapsed. */
    constructor(t: Trip, bt: string, uid: nat)
      ensures this.uid == uid && trip == t && busType == bt
      ensures State() == Collapsed
    {
      this.uid := uid;
      trip := t;
      busType := bt;
      expanded := false;
      hidden := true;
    }

    /** The click handler; it touches this trip only. */
    method Click()
      modifies this
      ensures State() == Toggle(old(State()))
    {
      var wasExpanded := expanded;
      expanded := !wasExpanded;
      if wasExpanded {
        hidden := true;
      } else {
        hidden := false;
      }
    }
  }

  // ------------------------------------------------- panels and pickers

  /** The heading and trip numbers of one bus type in a panel. */
  datatype BusGroup = BusGroup(busType: string, heading: string, uids: seq<nat>)

  datatype Panel = Panel(id: string, heading: string, groups: seq<BusGroup>, hidden: bool)

  /** A picker button: its `data-target`, its text and `aria-pressed`. */
  datatype PickerButton = PickerButton(target: string, text: string, pressed: bool)

  /** One (section, day) pair with its key. */
  datatype Entry = Entry(key: string, section: Section, day: Day)

  /** A trip in the order the panels number them, with its bus type. */
  datatype TripSlot = TripSlot(trip: Trip, busType: string)

  const DefaultOrder: seq<string> := ["e22", "e23", "semidirecte"]
  const NoData: string := "No hi ha dades."

  function PanelKey(sec: Section, day: Day): string
  {
    sec.id + "__" + day.name
  }

  function PanelId(key: string): string
  {
    "panel_" + CssSafe(key)
  }

  /** Whether a section's button goes to the Manresa–Barcelona block. */
  predicate IsMB(id: string)
  {
    id == "m2b" || id == "b2m"
  }

  // --------------------------------------------------------------- entries

  function SectionEntries(sec: Section): seq<Entry>
  {
    seq(|sec.days|, d requires 0 <= d < |sec.days| => Entry(PanelKey(sec, sec.days[d]), sec, sec.days[d]))
  }

  /** The entries in document order: sections, then their days. */
  function Entries(secs: seq<Section>): seq<Entry>
  {
    if secs == [] then [] else Entries(secs[..|secs| - 1]) + SectionEntries(secs[|secs| - 1])
  }

  /** The number of days in the first `k` sections. */
  function DaysBefore(secs: seq<Section>, k: nat): nat
    requires k <= |secs|
  {
    if k == 0 then 0 else DaysBefore(secs, k - 1) + |secs[k - 1].days|
  }

  lemma {:induction false} DaysBeforePrefix(secs: seq<Section>, n: nat, k: nat)
    requires k <= n <= |secs|
    ensures DaysBefore(secs[..n], k) == DaysBefore(secs, k)
  {
    if k > 0 {
      DaysBeforePrefix(secs, n, k - 1);
      assert secs[..n][k - 1] == secs[k - 1];
    }
  }

  lemma {:induction false} EntriesLength(secs: seq<Section>)
    ensures |Entries(secs)| == DaysBefore(secs, |secs|)
  {
    if secs != [] {
      var init := secs[..|secs| - 1];
      EntriesLength(init);
      DaysBeforePrefix(secs, |secs| - 1, |secs| - 1);
    }
  }

  /** Day `d` of section `k` is entry number `DaysBefore(secs, k) + d`, with
      key `id + "__" + name`. */
  lemma {:induction false} EntryAt(secs: seq<Section>, k: nat, d: nat)
    requires k < |secs| && d < |secs[k].days|
    ensures DaysBefore(secs, k) + d < |Entries(secs)|
    ensures Entries(secs)[DaysBefore(secs, k) + d]
            == Entry(secs[k].id + "__" + secs[k].days[d].name, secs[k], secs[k].days[d])
  {
    var init := secs[..|secs| - 1];
    EntriesLength(init);
    DaysBeforePrefix(secs, |secs| - 1, k);
    if k == |secs| - 1 {
      DaysBeforePrefix(secs, |secs| - 1, |secs| - 1);
    } else {
      EntryAt(init, k, d);
      assert init[k] == secs[k];
    }
  }

  /** `buildUI`'s first loop. */
  method CollectEntries(secs: seq<Section>) returns (es: seq<Entry>)
    ensures es == Entries(secs)
  {
    es := [];
    for i := 0 to |secs|
      invariant es == Entries(secs[..i])
    {
      var sec := secs[i];
      for d := 0 to |sec.days|
        invariant es == Entries(secs[..i]) + SectionEntries(sec)[..d]
      {
        es := es + [Entry(sec.id + "__" + sec.days[d].name, sec, sec.days[d])];
        assert SectionEntries(sec)[..d + 1] == SectionEntries(sec)[..d] + [SectionEntries(sec)[d]];
      }
      assert SectionEntries(sec)[..|sec.days|] == SectionEntries(sec);
      assert secs[..i + 1][..i] == secs[..i];
    }
    assert secs[..|secs|] == secs;
  }

  /** The value `firstPanelKey` ends with: it takes an entry's key while it
      is still missing or empty. */
  function FirstKey(es: seq<Entry>): Option<string>
  {
    if es == [] then None
    else
      var f := FirstKey(es[..|es| - 1]);
      if f.None? || f.value == "" then Some(es[|es| - 1].key) else f
  }

  lemma {:induction false} FirstKeyOfKeyed(es: seq<Entry>)
    requires forall i :: 0 <= i < |es| ==> es[i].key != ""
    ensures es != [] ==> FirstKey(es) == Some(es[0].key)
  {
    if |es| > 1 {
      var init := es[..|es| - 1];
      FirstKeyOfKeyed(init);
      assert init[0] == es[0];
    }
  }

  /** Keys contain `__`, so are never empty: the first entry is the one
      shown when the page is built. */
  lemma FirstKeyIsFirstEntry(secs: seq<Section>)
    ensures Entries(secs) != [] ==> (FirstKey(Entries(secs)) == Some(Entries(secs)[0].key)
                                     && Entries(secs)[0].key != "")
  {
    var es := Entries(secs);
    forall i | 0 <= i < |es| ensures es[i].key != "" {
      KeysNotEmpty(secs, i);
    }
    FirstKeyOfKeyed(es);
  }

  lemma {:induction false} KeysNotEmpty(secs: seq<Section>, i: nat)
    requires i < |Entries(secs)|
    ensures |Entries(secs)[i].key| >= 2
  {
    var init := secs[..|secs| - 1];
    if i >= |Entries(init)| {
      var sec := secs[|secs| - 1];
      var d := i - |Entries(init)|;
      assert Entries(secs)[i] == SectionEntries(sec)[d];
    } else {
      KeysNotEmpty(init, i);
      assert Entries(secs)[i] == Entries(init)[i];
    }
  }

  // ---------------------------------------------------------------- groups

  /** `busTypeOrder`, or the default when it is missing. */
  function OrderOf(sec: Section): seq<string>
  {
    sec.busTypeOrder.GetOr(DefaultOrder)
  }

  /** The trips listed under `bt`, or none when the day has no such list. */
  function TripsOf(day: Day, bt: string): seq<Trip>
  {
    if bt in day.buses then day.buses[bt] else []
  }

  function Tag(ts: seq<Trip>, bt: string): seq<TripSlot>
  {
    seq(|ts|, i requires 0 <= i < |ts| => TripSlot(ts[i], bt))
  }

  /** The trips of one panel, in the order they are numbered. */
  function DayTrips(day: Day, order: seq<string>): seq<TripSlot>
  {
    if order == [] then []
    else
      var bt := order[|order| - 1];
      DayTrips(day, order[..|order| - 1]) + Tag(TripsOf(day, bt), bt)
  }

  /** `n` consecutive numbers from `lo`. */
  function Range(lo: nat, n: nat): seq<nat>
  {
    seq(n, i requires 0 <= i < n => lo + i)
  }

  /** The groups of one panel when its first trip gets number `next + 1`. */
  function Groups(day: Day, order: seq<string>, next: nat): seq<BusGroup>
  {
    if order == [] then []
    else
      var init := order[..|order| - 1];
      var bt := order[|order| - 1];
      var ts := TripsOf(day, bt);
      Groups(day, init, next)
      + (if ts == [] then [] else [BusGroup(bt, SpeakBusType(bt), Range(next + |DayTrips(day, init)| + 1, |ts|))])
  }

  /** The bus types of `order` whose trip list is present and non-empty. */
  function NonEmptyTypes(day: Day, order: seq<string>): seq<string>
  {
    if order == [] then []
    else
      var bt := order[|order| - 1];
      NonEmptyTypes(day, order[..|order| - 1]) + (if TripsOf(day, bt) == [] then [] else [bt])
  }

  /** Groups come in `order`, one per bus type with trips and none for a
      missing or empty list, headed by the spoken bus type. */
  lemma {:induction false} GroupsFollowOrder(day: Day, order: seq<string>, next: nat)
    ensures |Groups(day, order, next)| == |NonEmptyTypes(day, order)|
    ensures forall i :: 0 <= i < |Groups(day, order, next)| ==>
              && Groups(day, order, next)[i].busType == NonEmptyTypes(day, order)[i]
              && Groups(day, order, next)[i].heading == SpeakBusType(NonEmptyTypes(day, order)[i])
              && Groups(day, order, next)[i].uids != []
  {
    if order != [] {
      GroupsFollowOrder(day, order[..|order| - 1], next);
    }
  }

  /** The trip numbers of some groups, in order. */
  function GroupUids(gs: seq<BusGroup>): seq<nat>
  {
    if gs == [] then [] else GroupUids(gs[..|gs| - 1]) + gs[|gs| - 1].uids
  }

  lemma {:induction false} GroupUidsAppend(gs: seq<BusGroup>, hs: seq<BusGroup>)
    ensures GroupUids(gs + hs) == GroupUids(gs) + GroupUids(hs)
  {
    if hs != [] {
      assert (gs + hs)[..|gs + hs| - 1] == gs + hs[..|hs| - 1];
      GroupUidsAppend(gs, hs[..|hs| - 1]);
    } else {
      assert gs + hs == gs;
    }
  }

  lemma RangeAppend(lo: nat, m: nat, n: nat)
    ensures Range(lo, m) + Range(lo + m, n) == Range(lo, m + n)
  {
  }

  lemma NumberingStep(prev: seq<BusGroup>, tail: seq<BusGroup>, lo: nat, m: nat, n: nat)
    requires GroupUids(prev) == Range(lo, m) && GroupUids(tail) == Range(lo + m, n)
    ensures GroupUids(prev + tail) == Range(lo, m + n)
  {
    GroupUidsAppend(prev, tail);
    RangeAppend(lo, m, n);
  }

  /** A panel numbers its trips `next + 1`, `next + 2`, … in group order. */
  lemma {:induction false} GroupsNumbering(day: Day, order: seq<string>, next: nat)
    ensures GroupUids(Groups(day, order, next)) == Range(next + 1, |DayTrips(day, order)|)
  {
    if order != [] {
      var init := order[..|order| - 1];
      var bt := order[|order| - 1];
      var ts := TripsOf(day, bt);
      var m := |DayTrips(day, init)|;
      GroupsNumbering(day, init, next);
      var tail := if ts == [] then [] else [BusGroup(bt, SpeakBusType(bt), Range(next + m + 1, |ts|))];
      assert Groups(day, order, next) == Groups(day, init, next) + tail;
      assert |DayTrips(day, order)| == m + |ts|;
      assert GroupUids(tail) == Range(next + 1 + m, |ts|) by {
        if tail != [] {
          assert tail[..0] == [];
        }
      }
      NumberingStep(Groups(day, init, next), tail, next + 1, m, |ts|);
    }
  }

  /** The trips of all panels, in the order they are numbered. */
  function AllTrips(es: seq<Entry>): seq<TripSlot>
  {
    if es == [] then []
    else
      var e := es[|es| - 1];
      AllTrips(es[..|es| - 1]) + DayTrips(e.day, OrderOf(e.section))
  }

  function PanelOf(e: Entry, next: nat): Panel
  {
    Panel(PanelId(e.key), e.section.title + " — " + e.day.name, Groups(e.day, OrderOf(e.section), next), true)
  }

  /** The panels `buildUI` creates, all hidden, numbering trips from 1. */
  function Panels(es: seq<Entry>): seq<Panel>
  {
    if es == [] then [] else Panels(es[..|es| - 1]) + [PanelOf(es[|es| - 1], |AllTrips(es[..|es| - 1])|)]
  }

  /** One panel per entry, in order, with the entry's id. */
  lemma {:induction false} PanelsLayout(es: seq<Entry>)
    ensures |Panels(es)| == |es|
    ensures forall i :: 0 <= i < |es| ==> Panels(es)[i].id == PanelId(es[i].key) && Panels(es)[i].hidden
  {
    if es != [] {
      var init := es[..|es| - 1];
      PanelsLayout(init);
      assert forall i :: 0 <= i < |init| ==> es[i] == init[i];
    }
  }

  function PanelUids(ps: seq<Panel>): seq<nat>
  {
    if ps == [] then [] else PanelUids(ps[..|ps| - 1]) + GroupUids(ps[|ps| - 1].groups)
  }

  /** Across all panels, trips are numbered 1, 2, 3, … in document order,
      one number per trip. */
  lemma {:induction false} PanelsNumbering(es: seq<Entry>)
    ensures PanelUids(Panels(es)) == Range(1, |AllTrips(es)|)
  {
    if es != [] {
      var init := es[..|es| - 1];
      var e := es[|es| - 1];
      PanelsNumbering(init);
      GroupsNumbering(e.day, OrderOf(e.section), |AllTrips(init)|);
      assert Panels(es)[..|Panels(es)| - 1] == Panels(init);
      RangeAppend(1, |AllTrips(init)|, |DayTrips(e.day, OrderOf(e.section))|);
    }
  }

  /** The trip numbers strictly increase through the page, so the content
      ids `trip_<uid>` are all different. */
  lemma UidsUnique(es: seq<Entry>, i: nat, j: nat)
    requires i < j < |PanelUids(Panels(es))|
    ensures PanelUids(Panels(es))[i] < PanelUids(Panels(es))[j]
    ensures ContentId(PanelUids(Panels(es))[i]) != ContentId(PanelUids(Panels(es))[j])
  {
    PanelsNumbering(es);
    ContentIdsDistinct(PanelUids(Panels(es))[i], PanelUids(Panels(es))[j]);
  }

  // --------------------------------------------------------------- buttons

  function ButtonFor(e: Entry): PickerButton
  {
    PickerButton(e.key, e.section.title + " · " + e.day.name, false)
  }

  /** The buttons of one block, in entry order. */
  function Block(es: seq<Entry>, mb: bool): seq<PickerButton>
  {
    if es == [] then []
    else
      var e := es[|es| - 1];
      Block(es[..|es| - 1], mb) + (if IsMB(e.section.id) == mb then [ButtonFor(e)] else [])
  }

  /** Every entry has one button: the two blocks together are as long as
      the entries. */
  lemma {:induction false} BlocksCount(es: seq<Entry>)
    ensures |Block(es, true)| + |Block(es, false)| == |es|
  {
    if es != [] {
      BlocksCount(es[..|es| - 1]);
    }
  }

  /** An entry's button is in the Manresa–Barcelona block when its section
      is `m2b` or `b2m`, and in the other block otherwise. */
  lemma {:induction false} BlocksCover(es: seq<Entry>, i: nat)
    requires i < |es|
    ensures ButtonFor(es[i]) in Block(es, IsMB(es[i].section.id))
  {
    var init := es[..|es| - 1];
    if i < |init| {
      BlocksCover(init, i);
      assert es[i] == init[i];
    }
  }

  /** Each block holds only buttons of entries of its kind. */
  lemma {:induction false} BlocksOnly(es: seq<Entry>, mb: bool, b: PickerButton)
    requires b in Block(es, mb)
    ensures exists i :: 0 <= i < |es| && IsMB(es[i].section.id) == mb && b == ButtonFor(es[i])
  {
    var init := es[..|es| - 1];
    if b in Block(init, mb) {
      BlocksOnly(init, mb, b);
      var i :| 0 <= i < |init| && IsMB(init[i].section.id) == mb && b == ButtonFor(init[i]);
      assert es[i] == init[i];
    } else {
      assert b == ButtonFor(es[|es| - 1]);
    }
  }

  // ------------------------------------------------------------- showPanel

  /** `getElementById`: the first panel carrying `id`. */
  function FindId(ps: seq<Panel>, id: string): (r: Option<nat>)
    ensures r.Some? ==> r.value < |ps| && ps[r.value].id == id
    ensures r.Some? ==> forall j :: 0 <= j < r.value ==> ps[j].id != id
    ensures r.None? ==> forall j :: 0 <= j < |ps| ==> ps[j].id != id
  {
    if ps == [] then None
    else if ps[0].id == id then Some(0)
    else
      match FindId(ps[1..], id)
      case None =>
        assert forall j :: 1 <= j < |ps| ==> ps[j] == ps[1..][j - 1];
        None
      case Some(k) =>
        assert forall j :: 1 <= j <= k ==> ps[j] == ps[1..][j - 1];
        Some(k + 1)
  }

  function HideAllOf(ps: seq<Panel>): seq<Panel>
  {
    seq(|ps|, j requires 0 <= j < |ps| => ps[j].(hidden := true))
  }

  /** The panels after `showPanel(key)`. */
  function Shown(ps: seq<Panel>, key: string): seq<Panel>
  {
    var h := HideAllOf(ps);
    match FindId(ps, PanelId(key))
    case None => h
    case Some(k) => h[k := h[k].(hidden := false)]
  }

  /** The buttons after `showPanel(key)`. */
  function Pressed(bs: seq<PickerButton>, key: string): seq<PickerButton>
  {
    seq(|bs|, j requires 0 <= j < |bs| => bs[j].(pressed := bs[j].target == key))
  }

  /** After `showPanel(key)` at most one panel is visible; it is the first
      panel whose id is `panel_` + `cssSafe(key)`, and it is visible
      whenever such a panel exists. Nothing but the flag changes. */
  lemma ShownSpec(ps: seq<Panel>, key: string)
    ensures |Shown(ps, key)| == |ps|
    ensures forall j :: 0 <= j < |ps| ==> Shown(ps, key)[j].(hidden := true) == ps[j].(hidden := true)
    ensures forall i, j :: 0 <= i < j < |ps| ==> Shown(ps, key)[i].hidden || Shown(ps, key)[j].hidden
    ensures forall j :: 0 <= j < |ps| && !Shown(ps, key)[j].hidden ==> ps[j].id == PanelId(key)
    ensures forall j :: 0 <= j < |ps| && !Shown(ps, key)[j].hidden ==>
              forall i :: 0 <= i < j ==> ps[i].id != PanelId(key)
    ensures (exists j :: 0 <= j < |ps| && ps[j].id == PanelId(key))
            <==> (exists j :: 0 <= j < |ps| && !Shown(ps, key)[j].hidden)
  {
    var r := FindId(ps, PanelId(key));
    if r.Some? {
      assert !Shown(ps, key)[r.value].hidden;
    }
  }

  /** After `showPanel(key)` a button is pressed exactly when its raw
      `data-target` is `key`, whatever `cssSafe` makes of it. */
  lemma PressedSpec(bs: seq<PickerButton>, key: string)
    ensures |Pressed(bs, key)| == |bs|
    ensures forall j :: 0 <= j < |bs| ==>
              && Pressed(bs, key)[j].target == bs[j].target
              && Pressed(bs, key)[j].text == bs[j].text
              && (Pressed(bs, key)[j].pressed <==> bs[j].target == key)
  {
  }

  /** The `forEach` that sets `aria-hidden` on every panel. */
  method HideAll(ps: seq<Panel>) returns (r: seq<Panel>)
    ensures r == HideAllOf(ps)
  {
    r := ps;
    for j := 0 to |ps|
      invariant |r| == |ps|
      invariant forall k :: 0 <= k < |ps| ==> r[k] == (if k < j then ps[k].(hidden := true) else ps[k])
    {
      r := r[j := r[j].(hidden := true)];
    }
  }

  /** The `forEach` that sets `aria-pressed` on every picker button. */
  method PressAll(bs: seq<PickerButton>, key: string) returns (r: seq<PickerButton>)
    ensures r == Pressed(bs, key)
  {
    r := bs;
    for j := 0 to |bs|
      invariant |r| == |bs|
      invariant forall k :: 0 <= k < |bs| ==> r[k] == (if k < j then bs[k].(pressed := bs[k].target == key) else bs[k])
    {
      r := r[j := r[j].(pressed := r[j].target == key)];
    }
  }

  /** `showPanel(key)` on the panels and the two picker blocks: hide every
      panel, show the one `getElementById` finds, then set every button's
      `aria-pressed`. */
  method ShowKey(ps: seq<Panel>, mb: seq<PickerButton>, mo: seq<PickerButton>, key: string)
    returns (ps': seq<Panel>, mb': seq<PickerButton>, mo': seq<PickerButton>)
    ensures ps' == Shown(ps, key) && mb' == Pressed(mb, key) && mo' == Pressed(mo, key)
  {
    var target := FindId(ps, PanelId(key));
    ps' := HideAll(ps);
    if target.Some? {
      ps' := ps'[target.value := ps'[target.value].(hidden := false)];
    }
    mb' := PressAll(mb, key);
    mo' := PressAll(mo, key);
  }

  // --------------------------------------------------------------- buildUI

  /** `ws` are the widgets for `slots`, numbered from `next + 1`, all
      collapsed. */
  predicate Made(ws: seq<TripWidget>, slots: seq<TripSlot>, next: nat)
    reads ws
  {
    && |ws| == |slots|
    && forall i :: 0 <= i < |ws| ==>
         && ws[i].uid == next + i + 1
         && ws[i].trip == slots[i].trip
         && ws[i].busType == slots[i].busType
         && ws[i].State() == Collapsed
  }

  lemma MadeAppend(ws: seq<TripWidget>, vs: seq<TripWidget>, a: seq<TripSlot>, b: seq<TripSlot>, next: nat)
    requires Made(ws, a, next) && Made(vs, b, next + |a|)
    ensures Made(ws + vs, a + b, next)
  {
    forall i | |ws| <= i < |ws| + |vs|
      ensures (ws + vs)[i] == vs[i - |ws|] && (a + b)[i] == b[i - |ws|]
    {
    }
  }

  /** The innermost loop: one widget per trip of one bus type. */
  method BuildTrips(ts: seq<Trip>, bt: string, next: nat) returns (ws: seq<TripWidget>)
    ensures Made(ws, Tag(ts, bt), next)
    ensures forall i :: 0 <= i < |ws| ==> fresh(ws[i])
  {
    ws := [];
    var tripUid := next;
    for i := 0 to |ts|
      invariant tripUid == next + i && |ws| == i
      invariant forall k :: 0 <= k < i ==>
                  && ws[k].uid == next + k + 1
                  && ws[k].trip == ts[k]
                  && ws[k].busType == bt
                  && ws[k].State() == Collapsed
      invariant forall k :: 0 <= k < i ==> fresh(ws[k])
    {
      tripUid := tripUid + 1;
      var w := new TripWidget(ts[i], bt, tripUid);
      ws := ws + [w];
    }
  }

  /** What one more bus type of `order` adds to a panel's groups and trips. */
  lemma GroupsStep(day: Day, order: seq<string>, k: nat, next: nat)
    requires k < |order|
    ensures var ts := TripsOf(day, order[k]);
            && DayTrips(day, order[..k + 1]) == DayTrips(day, order[..k]) + Tag(ts, order[k])
            && Groups(day, order[..k + 1], next)
               == Groups(day, order[..k], next)
                  + (if ts == [] then []
                     else [BusGroup(order[k], SpeakBusType(order[k]), Range(next + |DayTrips(day, order[..k])| + 1, |ts|))])
  {
    assert order[..k + 1][..k] == order[..k];
  }

  /** The loop over `busTypeOrder` of one panel. */
  method BuildGroups(day: Day, order: seq<string>, next: nat) returns (groups: seq<BusGroup>, ws: seq<TripWidget>)
    ensures groups == Groups(day, order, next)
    ensures Made(ws, DayTrips(day, order), next)
    ensures forall i :: 0 <= i < |ws| ==> fresh(ws[i])
  {
    groups := [];
    ws := [];
    var tripUid := next;
    for k := 0 to |order|
      invariant groups == Groups(day, order[..k], next)
      invariant tripUid == next + |ws|
      invariant Made(ws, DayTrips(day, order[..k]), next)
      invariant forall i :: 0 <= i < |ws| ==> fresh(ws[i])
    {
      var bt := order[k];
      var trips := TripsOf(day, bt);
      GroupsStep(day, order, k, next);
      if trips == [] {
        assert DayTrips(day, order[..k + 1]) == DayTrips(day, order[..k]) + [];
        continue;
      }
      var more := BuildTrips(trips, bt, tripUid);
      MadeAppend(ws, more, DayTrips(day, order[..k]), Tag(trips, bt), next);
      groups := groups + [BusGroup(bt, SpeakBusType(bt), Range(tripUid + 1, |trips|))];
      ws := ws + more;
      tripUid := tripUid + |trips|;
    }
    assert order[..|order|] == order;
  }

  /** The loop over the entries that creates the panels. */
  method BuildPanels(es: seq<Entry>) returns (ps: seq<Panel>, ws: seq<TripWidget>)
    ensures ps == Panels(es)
    ensures Made(ws, AllTrips(es), 0)
    ensures forall i :: 0 <= i < |ws| ==> fresh(ws[i])
  {
    ps := [];
    ws := [];
    var tripUid := 0;
    for i := 0 to |es|
      invariant ps == Panels(es[..i])
      invariant tripUid == |ws|
      invariant Made(ws, AllTrips(es[..i]), 0)
      invariant forall k :: 0 <= k < |ws| ==> fresh(ws[k])
    {
      var e := es[i];
      assert es[..i + 1][..i] == es[..i];
      var groups, more := BuildGroups(e.day, OrderOf(e.section), tripUid);
      MadeAppend(ws, more, AllTrips(es[..i]), DayTrips(e.day, OrderOf(e.section)), 0);
      ps := ps + [Panel(PanelId(e.key), e.section.title + " — " + e.day.name, groups, true)];
      ws := ws + more;
      tripUid := tripUid + |more|;
    }
    assert es[..|es|] == es;
  }

  /** The loop over the entries that creates the picker buttons and picks
      the key to show first. */
  method BuildButtons(es: seq<Entry>) returns (mb: seq<PickerButton>, mo: seq<PickerButton>, first: Option<string>)
    ensures mb == Block(es, true) && mo == Block(es, false)
    ensures first == FirstKey(es)
  {
    mb := [];
    mo := [];
    first := None;
    for i := 0 to |es|
      invariant mb == Block(es[..i], true) && mo == Block(es[..i], false)
      invariant first == FirstKey(es[..i])
    {
      var e := es[i];
      assert es[..i + 1][..i] == es[..i];
      if first.None? || first.value == "" {
        first := Some(e.key);
      }
      var btn := PickerButton(e.key, e.section.title + " · " + e.day.name, false);
      if IsMB(e.section.id) {
        mb := mb + [btn];
      } else {
        mo := mo + [btn];
      }
    }
    assert es[..|es|] == es;
  }

  /** `buildUI`: the status line, the panels, the two picker blocks and the
      trip widgets, after the final `showPanel` of the first key when that
      key is a non-empty string. */
  method BuildPage(doc: Document)
    returns (status: string, ps: seq<Panel>, ws: seq<TripWidget>, mb: seq<PickerButton>, mo: seq<PickerButton>)
    ensures status == (if doc.sections == [] then NoData else "")
    ensures Made(ws, AllTrips(Entries(doc.sections)), 0)
    ensures forall i :: 0 <= i < |ws| ==> fresh(ws[i])
    ensures var es := Entries(doc.sections);
            var f := FirstKey(es);
            if f.Some? && f.value != "" then
              && ps == Shown(Panels(es), f.value)
              && mb == Pressed(Block(es, true), f.value)
              && mo == Pressed(Block(es, false), f.value)
            else
              && ps == Panels(es)
              && mb == Block(es, true)
              && mo == Block(es, false)
  {
    status := "";
    if doc.sections == [] {
      status := NoData;
      ps, ws, mb, mo := [], [], [], [];
      return;
    }
    var es := CollectEntries(doc.sections);
    ps, ws := BuildPanels(es);
    var first;
    mb, mo, first := BuildButtons(es);
    if first.Some? && first.value != "" {
      ps, mb, mo := ShowKey(ps, mb, mo, first.value);
    }
  }

  /** Widget `i` is trip number `i + 1`, and its content is in step with
      its button. */
  predicate Numbered(ws: seq<TripWidget>)
    reads ws
  {
    forall i :: 0 <= i < |ws| ==> ws[i].uid == i + 1 && InSync(ws[i].State())
  }

  lemma MadeNumbered(ws: seq<TripWidget>, slots: seq<TripSlot>)
    requires Made(ws, slots, 0)
    ensures Numbered(ws)
  {
  }

  /** The page: its status line, panels, the two picker blocks and the trip
      widgets, numbered from 1. */
  class Page {
    var status: string
    var panels: seq<Panel>
    var pickerMB: seq<PickerButton>
    var pickerMO: seq<PickerButton>
    var widgets: seq<TripWidget>

    /** Widget `i` is trip number `i + 1`, and every trip's content is in
        step with its button. */
    predicate Valid()
      reads this, widgets
    {
      Numbered(widgets)
    }

    /** `buildUI(data)` on the page as loaded: with no sections only the
        status line changes; otherwise every (section, day) gets a hidden
        panel and a button, and the first entry is shown. */
    constructor Load(doc: Document)
      ensures Valid()
      ensures status == (if doc.sections == [] then NoData else "")
      ensures Made(widgets, AllTrips(Entries(doc.sections)), 0)
      ensures forall i :: 0 <= i < |widgets| ==> fresh(widgets[i])
      ensures var es := Entries(doc.sections);
              var f := FirstKey(es);
              if f.Some? && f.value != "" then
                && panels == Shown(Panels(es), f.value)
                && pickerMB == Pressed(Block(es, true), f.value)
                && pickerMO == Pressed(Block(es, false), f.value)
              else
                && panels == Panels(es)
                && pickerMB == Block(es, true)
                && pickerMO == Block(es, false)
    {
      var st, ps, ws, mb, mo := BuildPage(doc);
      MadeNumbered(ws, AllTrips(Entries(doc.sections)));
      status := st;
      panels := ps;
      pickerMB := mb;
      pickerMO := mo;
      widgets := ws;
    }

    /** `showPanel(key)`. */
    method ShowPanel(key: string)
      requires Valid()
      modifies this
      ensures Valid()
      ensures panels == Shown(old(panels), key)
      ensures pickerMB == Pressed(old(pickerMB), key) && pickerMO == Pressed(old(pickerMO), key)
      ensures status == old(status) && widgets == old(widgets)
    {
      panels, pickerMB, pickerMO := ShowKey(panels, pickerMB, pickerMO, key);
    }

    /** A click on trip `i`'s button: that trip toggles, every other trip
        keeps its state. */
    method ClickTrip(i: nat)
      requires Valid() && i < |widgets|
      modifies widgets[i]
      ensures Valid()
      ensures widgets[i].State() == Toggle(old(widgets[i].State()))
      ensures forall j :: 0 <= j < |widgets| && j != i ==> widgets[j].State() == old(widgets[j].State())
    {
      widgets[i].Click();
    }
  }

  /** Right after `buildUI`, the first entry's panel is the only one visible
      and exactly the buttons targeting its key are pressed. */
  lemma LoadShowsFirst(secs: seq<Section>)
    requires Entries(secs) != []
    ensures var es := Entries(secs);
            var ps := Shown(Panels(es), es[0].key);
            && |ps| == |es|
            && !ps[0].hidden
            && (forall j :: 0 < j < |ps| ==> ps[j].hidden)
    ensures var es := Entries(secs);
            forall mb: bool, j :: 0 <= j < |Block(es, mb)| ==>
              (Pressed(Block(es, mb), es[0].key)[j].pressed <==> Block(es, mb)[j].target == es[0].key)
  {
    var es := Entries(secs);
    PressedSpec(Block(es, true), es[0].key);
    PressedSpec(Block(es, false), es[0].key);
    PanelsLayout(es);
    ShownSpec(Panels(es), es[0].key);
    assert FindId(Panels(es), PanelId(es[0].key)) == Some(0);
  }
}
