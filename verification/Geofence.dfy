/** The geofence enter/exit rule (cmd/eventengine/geofence.go). Point-in-polygon evaluation is a
    parameter: nothing here depends on how it decides. */
module Geofence {
  import opened Prelude
  import opened Geo

  datatype Polygon = Polygon(vertices: seq<Position>)
  datatype Zone = Zone(id: string, name: string, polygon: Polygon)
  datatype Observation = Observation(icao24: string, lastSeenUTC: int, position: Position)
  datatype Event = Event(entering: bool, icao24: string, zoneId: string, zoneName: string, occurredAt: int)

  type Containment = (Polygon, Position) -> bool

  ghost predicate UniqueIds(zones: seq<Zone>) {
    forall i, j :: 0 <= i < j < |zones| ==> zones[i].id != zones[j].id
  }

  // ----- One observation of one aircraft -----

  predicate Crosses(states: map<string, bool>, zone: Zone, at: Position, pip: Containment) {
    zone.id in states && states[zone.id] != pip(zone.polygon, at)
  }

  function EventFor(zone: Zone, o: Observation, pip: Containment): Event {
    Event(pip(zone.polygon, o.position), o.icao24, zone.id, zone.name, o.lastSeenUTC)
  }

  /** `e` reports the observed aircraft, at the observed instant, at this zone and as it is now. */
  ghost predicate Tells(e: Event, zone: Zone, o: Observation, pip: Containment) {
    && e.icao24 == o.icao24 && e.occurredAt == o.lastSeenUTC
    && e.zoneId == zone.id && e.zoneName == zone.name
    && e.entering == pip(zone.polygon, o.position)
  }

  lemma {:induction false} CrossingsTell(states: map<string, bool>, zones: seq<Zone>, o: Observation, pip: Containment, e: Event)
    requires e in Crossings(states, zones, o, pip)
    ensures exists zone :: zone in zones && Tells(e, zone, o, pip)
  {
    var init, last := zones[..|zones| - 1], zones[|zones| - 1];
    assert zones == init + [last];
    if e in Crossings(states, init, o, pip) {
      CrossingsTell(states, init, o, pip, e);
    } else {
      assert Tells(e, last, o, pip);
    }
  }

  /** Containment recorded after checking `zones` in order. */
  function Recorded(states: map<string, bool>, zones: seq<Zone>, o: Observation, pip: Containment): map<string, bool> {
    if zones == [] then states
    else
      var zone := zones[|zones| - 1];
      Recorded(states, zones[..|zones| - 1], o, pip)[zone.id := pip(zone.polygon, o.position)]
  }

  /** The events of checking `zones` in order. */
  function Crossings(states: map<string, bool>, zones: seq<Zone>, o: Observation, pip: Containment): seq<Event> {
    if zones == [] then []
    else
      var init, zone := zones[..|zones| - 1], zones[|zones| - 1];
      Crossings(states, init, o, pip) +
      if Crosses(Recorded(states, init, o, pip), zone, o.position, pip) then [EventFor(zone, o, pip)] else []
  }

  lemma CheckNext(states: map<string, bool>, zones: seq<Zone>, i: nat, o: Observation, pip: Containment)
    requires i < |zones|
    ensures Recorded(states, zones[..i + 1], o, pip)
         == Recorded(states, zones[..i], o, pip)[zones[i].id := pip(zones[i].polygon, o.position)]
    ensures Crossings(states, zones[..i + 1], o, pip)
         == Crossings(states, zones[..i], o, pip) +
            if Crosses(Recorded(states, zones[..i], o, pip), zones[i], o.position, pip)
            then [EventFor(zones[i], o, pip)] else []
  {
    assert zones[..i + 1][..i] == zones[..i];
  }

  // ----- The event set does not depend on zone order -----

  function LastWithId(zones: seq<Zone>, id: string): Option<Zone> {
    if zones == [] then None
    else if zones[|zones| - 1].id == id then Some(zones[|zones| - 1])
    else LastWithId(zones[..|zones| - 1], id)
  }

  lemma {:induction false} LastWithIdMember(zones: seq<Zone>, id: string)
    ensures LastWithId(zones, id).Some? ==> LastWithId(zones, id).value in zones && LastWithId(zones, id).value.id == id
    ensures LastWithId(zones, id).None? ==> forall zone :: zone in zones ==> zone.id != id
  {
    if zones != [] {
      var init := zones[..|zones| - 1];
      LastWithIdMember(init, id);
      assert zones == init + [zones[|zones| - 1]];
    }
  }

  function Lookup(states: map<string, bool>, z: string): Option<bool> {
    if z in states then Some(states[z]) else None
  }

  /** A checked zone ends up recorded as it is now, any other ID as it was. */
  lemma {:induction false} RecordedExact(states: map<string, bool>, zones: seq<Zone>, o: Observation, pip: Containment, z: string)
    ensures Lookup(Recorded(states, zones, o, pip), z)
         == match LastWithId(zones, z)
            case Some(zone) => Some(pip(zone.polygon, o.position))
            case None => Lookup(states, z)
  {
    if zones != [] {
      RecordedExact(states, zones[..|zones| - 1], o, pip, z);
    }
  }

  /** With unique IDs an event is exactly a zone whose recorded containment differs from now. */
  lemma {:induction false} CrossingsExact(states: map<string, bool>, zones: seq<Zone>, o: Observation, pip: Containment, e: Event)
    requires UniqueIds(zones)
    ensures e in Crossings(states, zones, o, pip) <==>
              exists zone :: zone in zones && Tells(e, zone, o, pip)
                && zone.id in states && states[zone.id] != pip(zone.polygon, o.position)
  {
    if zones != [] {
      var init, last := zones[..|zones| - 1], zones[|zones| - 1];
      CrossingsExact(states, init, o, pip, e);
      RecordedExact(states, init, o, pip, last.id);
      LastWithIdMember(init, last.id);
      assert zones == init + [last];
      assert Crosses(Recorded(states, init, o, pip), last, o.position, pip) <==> Crosses(states, last, o.position, pip);
      assert Tells(e, last, o, pip) <==> e == EventFor(last, o, pip);
    }
  }

  /** Each crossing is reported once. */
  lemma {:induction false} CrossingsOnce(states: map<string, bool>, zones: seq<Zone>, o: Observation, pip: Containment)
    requires UniqueIds(zones)
    ensures forall i, j :: 0 <= i < j < |Crossings(states, zones, o, pip)| ==>
              Crossings(states, zones, o, pip)[i].zoneId != Crossings(states, zones, o, pip)[j].zoneId
  {
    if zones != [] {
      var init, last := zones[..|zones| - 1], zones[|zones| - 1];
      CrossingsOnce(states, init, o, pip);
      var before := Crossings(states, init, o, pip);
      forall i | 0 <= i < |before| ensures before[i].zoneId != last.id {
        CrossingsExact(states, init, o, pip, before[i]);
      }
    }
  }

  /** Whatever order the zones come in, the same events fire and the same containment is recorded. */
  lemma OrderUnobservable(states: map<string, bool>, zones: seq<Zone>, reordered: seq<Zone>, o: Observation, pip: Containment)
    requires UniqueIds(zones) && UniqueIds(reordered) && forall zone :: zone in zones <==> zone in reordered
    ensures forall e :: e in Crossings(states, zones, o, pip) <==> e in Crossings(states, reordered, o, pip)
    ensures Recorded(states, zones, o, pip) == Recorded(states, reordered, o, pip)
  {
    forall e ensures e in Crossings(states, zones, o, pip) <==> e in Crossings(states, reordered, o, pip) {
      CrossingsExact(states, zones, o, pip, e);
      CrossingsExact(states, reordered, o, pip, e);
    }
    forall z ensures Lookup(Recorded(states, zones, o, pip), z) == Lookup(Recorded(states, reordered, o, pip), z) {
      SameZone(zones, reordered, z);
      RecordedExact(states, zones, o, pip, z);
      RecordedExact(states, reordered, o, pip, z);
    }
    SameLookups(Recorded(states, zones, o, pip), Recorded(states, reordered, o, pip));
  }

  lemma SameZone(zones: seq<Zone>, reordered: seq<Zone>, z: string)
    requires UniqueIds(zones) && UniqueIds(reordered) && forall zone :: zone in zones <==> zone in reordered
    ensures LastWithId(zones, z) == LastWithId(reordered, z)
  {
    LastWithIdMember(zones, z);
    LastWithIdMember(reordered, z);
  }

  lemma SameLookups(m: map<string, bool>, n: map<string, bool>)
    requires forall z :: Lookup(m, z) == Lookup(n, z)
    ensures m == n
  {
    forall z ensures (z in m <==> z in n) && (z in m ==> m[z] == n[z]) {
      assert Lookup(m, z) == Lookup(n, z);
    }
  }

  // ----- The detector -----

  ghost predicate EvictedSoFar(before: map<string, int>, now: map<string, int>, cutoff: int, pending: set<string>) {
    && (forall a :: a in now ==> a in before && now[a] == before[a])
    && (forall a :: a in before ==> (a in now <==> a in pending || before[a] >= cutoff))
  }

  lemma EvictedAll(before: Tracker, now: Tracker, cutoff: int, pip: Containment)
    requires before.inside.Keys == before.lastObservedAt.Keys && now.inside.Keys == now.lastObservedAt.Keys
    requires EvictedSoFar(before.lastObservedAt, now.lastObservedAt, cutoff, {}) && now.zones == before.zones
    requires forall a :: a in now.inside ==> a in before.inside && now.inside[a] == before.inside[a]
    ensures now == After(before, EvictedBefore(cutoff), pip)
  {
  }

  class GeofenceDetector {
    const pip: Containment
    var zones: seq<Zone>
    var inside: map<string, map<string, bool>>
    var lastObservedAt: map<string, int>

    ghost predicate Valid()
      reads this
    {
      inside.Keys == lastObservedAt.Keys
    }

    ghost function Abstract(): Tracker
      reads this
    {
      Tracker(zones, inside, lastObservedAt)
    }

    constructor (zones: seq<Zone>, pip: Containment)
      ensures Valid() && this.pip == pip && Abstract() == Tracker(zones, map[], map[])
    {
      this.zones, this.pip := zones, pip;
      inside, lastObservedAt := map[], map[];
    }

    method Observe(o: Observation) returns (events: seq<Event>)
      requires Valid()
      modifies this`inside, this`lastObservedAt
      ensures Valid() && Abstract() == After(old(Abstract()), Observed(o), pip)
      ensures events == Emitted(old(Abstract()), Observed(o), pip)
      ensures lastObservedAt == old(lastObservedAt)[o.icao24 := o.lastSeenUTC]
      ensures forall e :: e in events ==> exists zone :: zone in zones && Tells(e, zone, o, pip)
    {
      var zoneStates := if o.icao24 in inside then inside[o.icao24] else map[];
      lastObservedAt := lastObservedAt[o.icao24 := o.lastSeenUTC];
      ghost var before := zoneStates;
      events := [];
      for i := 0 to |zones|
        invariant inside == old(inside) && lastObservedAt == old(lastObservedAt)[o.icao24 := o.lastSeenUTC]
        invariant zoneStates == Recorded(before, zones[..i], o, pip)
        invariant events == Crossings(before, zones[..i], o, pip)
      {
        CheckNext(before, zones, i, o, pip);
        var zone := zones[i];
        var nowInside := pip(zone.polygon, o.position);
        var hadBaseline := zone.id in zoneStates;
        var wasInside := hadBaseline && zoneStates[zone.id];
        zoneStates := zoneStates[zone.id := nowInside];
        if !hadBaseline || wasInside == nowInside {
          continue;
        }
        if nowInside {
          events := events + [Event(true, o.icao24, zone.id, zone.name, o.lastSeenUTC)];
        } else {
          events := events + [Event(false, o.icao24, zone.id, zone.name, o.lastSeenUTC)];
        }
      }
      assert zones[..|zones|] == zones;
      forall e | e in events ensures exists zone :: zone in zones && Tells(e, zone, o, pip) {
        CrossingsTell(before, zones, o, pip, e);
      }
      inside := inside[o.icao24 := zoneStates];
    }

    method SetZones(zones: seq<Zone>)
      requires Valid()
      modifies this`zones
      ensures Valid() && Abstract() == After(old(Abstract()), ZonesSet(zones), pip)
    {
      this.zones := zones;
    }

    method EvictBefore(cutoff: int)
      requires Valid()
      modifies this`inside, this`lastObservedAt
      ensures Valid() && Abstract() == After(old(Abstract()), EvictedBefore(cutoff), pip)
      ensures forall a :: a in lastObservedAt <==> a in old(lastObservedAt) && old(lastObservedAt)[a] >= cutoff
    {
      var pending := lastObservedAt.Keys;
      while pending != {}
        invariant Valid() && pending <= lastObservedAt.Keys
        invariant EvictedSoFar(old(lastObservedAt), lastObservedAt, cutoff, pending)
        invariant forall a :: a in inside ==> a in old(inside) && inside[a] == old(inside)[a]
        decreases |pending|
      {
        var icao24 :| icao24 in pending;
        pending := pending - {icao24};
        if lastObservedAt[icao24] < cutoff {
          inside := inside - {icao24};
          lastObservedAt := lastObservedAt - {icao24};
        }
      }
      EvictedAll(old(Abstract()), Abstract(), cutoff, pip);
    }
  }

  // ----- Whole runs -----

  datatype Tracker = Tracker(zones: seq<Zone>, inside: map<string, map<string, bool>>, lastObservedAt: map<string, int>)

  datatype Op = Observed(o: Observation) | ZonesSet(zones: seq<Zone>) | EvictedBefore(cutoff: int)

  function StatesOf(t: Tracker, a: string): map<string, bool> {
    if a in t.inside then t.inside[a] else map[]
  }

  predicate Kept(t: Tracker, a: string, cutoff: int) {
    a in t.lastObservedAt && t.lastObservedAt[a] >= cutoff
  }

  function After(t: Tracker, op: Op, pip: Containment): Tracker {
    match op
    case Observed(o) =>
      t.(inside := t.inside[o.icao24 := Recorded(StatesOf(t, o.icao24), t.zones, o, pip)],
         lastObservedAt := t.lastObservedAt[o.icao24 := o.lastSeenUTC])
    case ZonesSet(zones) => t.(zones := zones)
    case EvictedBefore(cutoff) =>
      t.(inside := map a | a in t.inside && Kept(t, a, cutoff) :: t.inside[a],
         lastObservedAt := map a | a in t.lastObservedAt && Kept(t, a, cutoff) :: t.lastObservedAt[a])
  }

  function Emitted(t: Tracker, op: Op, pip: Containment): seq<Event> {
    match op
    case Observed(o) => Crossings(StatesOf(t, o.icao24), t.zones, o, pip)
    case _ => []
  }

  function Run(zones: seq<Zone>, ops: seq<Op>, pip: Containment): Tracker {
    if ops == [] then Tracker(zones, map[], map[])
    else After(Run(zones, ops[..|ops| - 1], pip), ops[|ops| - 1], pip)
  }

  /** Does `op` forget aircraft `a`? */
  predicate Forgets(t: Tracker, op: Op, a: string) {
    op.EvictedBefore? && a in t.lastObservedAt && !Kept(t, a, op.cutoff)
  }

  /** The directions, oldest first, of the events naming aircraft `a` and zone `z`. */
  function Directions(events: seq<Event>, a: string, z: string): seq<bool> {
    if events == [] then []
    else
      var e := events[|events| - 1];
      Directions(events[..|events| - 1], a, z) + if e.icao24 == a && e.zoneId == z then [e.entering] else []
  }

  /** Directions of the events fired for aircraft `a` and zone `z` since `a` was last forgotten. */
  function Fired(zones: seq<Zone>, ops: seq<Op>, pip: Containment, a: string, z: string): seq<bool> {
    if ops == [] then []
    else
      var init, op := ops[..|ops| - 1], ops[|ops| - 1];
      var t := Run(zones, init, pip);
      if Forgets(t, op, a) then []
      else
        Fired(zones, init, pip, a, z) + Directions(Emitted(t, op, pip), a, z)
  }

  /** What the first check of zone `z` among `zones` finds. */
  function FirstCheck(zones: seq<Zone>, z: string, at: Position, pip: Containment): Option<bool> {
    if zones == [] then None
    else
      var init, zone := zones[..|zones| - 1], zones[|zones| - 1];
      var before := FirstCheck(init, z, at, pip);
      if before.Some? then before
      else if zone.id == z then Some(pip(zone.polygon, at))
      else None
  }

  /** The first containment seen for `a` and `z` since `a` was last forgotten. */
  function Baseline(zones: seq<Zone>, ops: seq<Op>, pip: Containment, a: string, z: string): Option<bool> {
    if ops == [] then None
    else
      var init, op := ops[..|ops| - 1], ops[|ops| - 1];
      var t := Run(zones, init, pip);
      var before := Baseline(zones, init, pip, a, z);
      if Forgets(t, op, a) then None
      else if before.None? && op.Observed? && op.o.icao24 == a then FirstCheck(t.zones, z, op.o.position, pip)
      else before
  }

  /** `fired` strictly alternates, starting by leaving `b`. */
  ghost predicate Alternates(b: bool, fired: seq<bool>) {
    forall i :: 0 <= i < |fired| ==> fired[i] == if i % 2 == 0 then !b else b
  }

  function EndsAt(b: bool, fired: seq<bool>): bool {
    if |fired| % 2 == 0 then b else !b
  }

  lemma AlternatesJoin(b: bool, f: seq<bool>, g: seq<bool>)
    requires Alternates(b, f) && Alternates(EndsAt(b, f), g)
    ensures Alternates(b, f + g) && EndsAt(b, f + g) == EndsAt(EndsAt(b, f), g)
  {
    forall i | |f| <= i < |f + g| ensures (f + g)[i] == if i % 2 == 0 then !b else b {
      assert (f + g)[i] == g[i - |f|];
    }
  }

  function Net(fired: seq<bool>): int {
    if fired == [] then 0 else Net(fired[..|fired| - 1]) + if fired[|fired| - 1] then 1 else -1
  }

  function Indicator(b: bool): int { if b then 1 else 0 }

  lemma {:induction false} AlternationNets(b: bool, fired: seq<bool>)
    requires Alternates(b, fired)
    ensures Net(fired) == Indicator(EndsAt(b, fired)) - Indicator(b)
  {
    if fired != [] {
      AlternationNets(b, fired[..|fired| - 1]);
    }
  }

  /** `before` and `after` are the containments recorded for a zone around some events about it. */
  ghost predicate Accounted(before: Option<bool>, after: Option<bool>, fired: seq<bool>) {
    if before.None? then after.None? && fired == []
    else Alternates(before.value, fired) && after == Some(EndsAt(before.value, fired))
  }

  function OrElse(first: Option<bool>, second: Option<bool>): Option<bool> {
    if first.Some? then first else second
  }

  lemma AccountedNext(before: Option<bool>, after: Option<bool>, fired: seq<bool>, now: bool)
    requires Accounted(before, after, fired)
    ensures Accounted(OrElse(before, Some(now)), Some(now), fired + if after.Some? && after.value != now then [now] else [])
  {
    assert fired + [] == fired;
    if before.Some? && after.value != now {
      AlternatesJoin(before.value, fired, [now]);
    }
  }

  lemma CrossingDirections(states: map<string, bool>, zones: seq<Zone>, o: Observation, pip: Containment, z: string)
    requires zones != []
    ensures Directions(Crossings(states, zones, o, pip), o.icao24, z)
         == Directions(Crossings(states, zones[..|zones| - 1], o, pip), o.icao24, z) +
            var zone, was := zones[|zones| - 1], Lookup(Recorded(states, zones[..|zones| - 1], o, pip), z);
            if zone.id == z && was.Some? && was.value != pip(zone.polygon, o.position)
            then [pip(zone.polygon, o.position)] else []
  {
    var init, zone := zones[..|zones| - 1], zones[|zones| - 1];
    var before := Crossings(states, init, o, pip);
    assert before + [] == before;
    assert Directions(before, o.icao24, z) + [] == Directions(before, o.icao24, z);
  }

  /** One observation, zones repeated or not. */
  lemma {:induction false} ObservationAccounted(states: map<string, bool>, zones: seq<Zone>, o: Observation,
                                                pip: Containment, z: string)
    ensures Accounted(OrElse(Lookup(states, z), FirstCheck(zones, z, o.position, pip)),
                      Lookup(Recorded(states, zones, o, pip), z),
                      Directions(Crossings(states, zones, o, pip), o.icao24, z))
  {
    if zones != [] {
      var init, zone := zones[..|zones| - 1], zones[|zones| - 1];
      ObservationAccounted(states, init, o, pip, z);
      CrossingDirections(states, zones, o, pip, z);
      var fired := Directions(Crossings(states, init, o, pip), o.icao24, z);
      assert fired + [] == fired;
      AccountedNext(OrElse(Lookup(states, z), FirstCheck(init, z, o.position, pip)),
                    Lookup(Recorded(states, init, o, pip), z), fired, pip(zone.polygon, o.position));
    }
  }

  /** Events name no aircraft but the observed one. */
  lemma {:induction false} OthersUnnamed(states: map<string, bool>, zones: seq<Zone>, o: Observation, pip: Containment,
                                         a: string, z: string)
    requires a != o.icao24
    ensures Directions(Crossings(states, zones, o, pip), a, z) == []
  {
    if zones != [] {
      var before := Crossings(states, zones[..|zones| - 1], o, pip);
      OthersUnnamed(states, zones[..|zones| - 1], o, pip, a, z);
      assert before + [] == before;
    }
  }

  lemma EmittedElsewhere(t: Tracker, op: Op, pip: Containment, a: string, z: string)
    requires !(op.Observed? && op.o.icao24 == a)
    ensures Directions(Emitted(t, op, pip), a, z) == []
  {
    if op.Observed? {
      OthersUnnamed(StatesOf(t, op.o.icao24), t.zones, op.o, pip, a, z);
    }
  }

  /** Conservation over whole runs: for every aircraft and zone, the events since the aircraft
      was last forgotten strictly alternate away from the first containment seen, end at the
      last one recorded, and enters minus exits is the difference of the two. */
  lemma {:induction false} Conservation(zones: seq<Zone>, ops: seq<Op>, pip: Containment, a: string, z: string)
    ensures Accounted(Baseline(zones, ops, pip, a, z), Lookup(StatesOf(Run(zones, ops, pip), a), z),
                      Fired(zones, ops, pip, a, z))
    ensures Baseline(zones, ops, pip, a, z).Some? ==>
              Lookup(StatesOf(Run(zones, ops, pip), a), z).Some? &&
              Net(Fired(zones, ops, pip, a, z))
              == Indicator(Lookup(StatesOf(Run(zones, ops, pip), a), z).value)
                 - Indicator(Baseline(zones, ops, pip, a, z).value)
    ensures Run(zones, ops, pip).inside.Keys == Run(zones, ops, pip).lastObservedAt.Keys
  {
    if ops != [] {
      Conservation(zones, ops[..|ops| - 1], pip, a, z);
      StepAccounted(zones, ops, pip, a, z);
    }
    if Baseline(zones, ops, pip, a, z).Some? {
      AlternationNets(Baseline(zones, ops, pip, a, z).value, Fired(zones, ops, pip, a, z));
    }
  }

  lemma StepAccounted(zones: seq<Zone>, ops: seq<Op>, pip: Containment, a: string, z: string)
    requires ops != []
    requires Accounted(Baseline(zones, ops[..|ops| - 1], pip, a, z),
                       Lookup(StatesOf(Run(zones, ops[..|ops| - 1], pip), a), z),
                       Fired(zones, ops[..|ops| - 1], pip, a, z))
    requires Run(zones, ops[..|ops| - 1], pip).inside.Keys == Run(zones, ops[..|ops| - 1], pip).lastObservedAt.Keys
    ensures Accounted(Baseline(zones, ops, pip, a, z), Lookup(StatesOf(Run(zones, ops, pip), a), z),
                      Fired(zones, ops, pip, a, z))
  {
    var init, op := ops[..|ops| - 1], ops[|ops| - 1];
    var t, fired := Run(zones, init, pip), Fired(zones, init, pip, a, z);
    if op.Observed? && op.o.icao24 == a {
      ObservedStep(t, op.o, pip, z, Baseline(zones, init, pip, a, z), fired);
    } else {
      EmittedElsewhere(t, op, pip, a, z);
      ElsewhereKeeps(t, op, pip, a);
      assert fired + [] == fired;
    }
  }

  lemma ObservedStep(t: Tracker, o: Observation, pip: Containment, z: string, base: Option<bool>, fired: seq<bool>)
    requires Accounted(base, Lookup(StatesOf(t, o.icao24), z), fired)
    ensures Accounted(OrElse(base, FirstCheck(t.zones, z, o.position, pip)),
                      Lookup(StatesOf(After(t, Observed(o), pip), o.icao24), z),
                      fired + Directions(Emitted(t, Observed(o), pip), o.icao24, z))
  {
    var more := Directions(Emitted(t, Observed(o), pip), o.icao24, z);
    ObservationAccounted(StatesOf(t, o.icao24), t.zones, o, pip, z);
    if base.Some? {
      AlternatesJoin(base.value, fired, more);
    } else {
      assert [] + more == more;
    }
  }

  lemma ElsewhereKeeps(t: Tracker, op: Op, pip: Containment, a: string)
    requires t.inside.Keys == t.lastObservedAt.Keys && !(op.Observed? && op.o.icao24 == a)
    ensures StatesOf(After(t, op, pip), a) == if Forgets(t, op, a) then map[] else StatesOf(t, a)
  {
  }

  // ----- Refreshing the zones -----

  function Winning(base: seq<Zone>, overlay: seq<Zone>, id: string): Option<Zone> {
    if LastWithId(overlay, id).Some? then LastWithId(overlay, id) else LastWithId(base, id)
  }

  /** The map built from the zones seen so far. */
  ghost predicate ById(byId: map<string, Zone>, base: seq<Zone>, overlay: seq<Zone>) {
    forall id :: (id in byId <==> Winning(base, overlay, id).Some?)
                 && (id in byId ==> Some(byId[id]) == Winning(base, overlay, id))
  }

  /** mergeZones (cmd/eventengine/main.go): one zone per ID, the database's entry winning. The
      order of the result is the map's, hence arbitrary. */
  method MergeZones(base: seq<Zone>, overlay: seq<Zone>) returns (merged: seq<Zone>)
    ensures UniqueIds(merged)
    ensures forall zone :: zone in merged <==> Winning(base, overlay, zone.id) == Some(zone)
    ensures UniqueIds(base) && UniqueIds(overlay) ==>
      forall zone :: zone in merged <==> zone in overlay || (zone in base && NoneWithId(overlay, zone.id))
  {
    var byId: map<string, Zone> := map[];
    for i := 0 to |base|
      invariant ById(byId, base[..i], [])
    {
      assert base[..i + 1][..i] == base[..i];
      byId := byId[base[i].id := base[i]];
    }
    assert base[..|base|] == base;
    for i := 0 to |overlay|
      invariant ById(byId, base, overlay[..i])
    {
      assert overlay[..i + 1][..i] == overlay[..i];
      byId := byId[overlay[i].id := overlay[i]];
    }
    assert overlay[..|overlay|] == overlay;
    KeyedById(byId, base, overlay);
    merged := MapValues(byId);
    if UniqueIds(base) && UniqueIds(overlay) {
      forall zone ensures zone in merged <==> zone in overlay || (zone in base && NoneWithId(overlay, zone.id)) {
        OverlayWins(base, overlay, zone);
      }
    }
  }

  ghost predicate NoneWithId(zones: seq<Zone>, id: string) {
    forall zone :: zone in zones ==> zone.id != id
  }

  lemma OverlayWins(base: seq<Zone>, overlay: seq<Zone>, zone: Zone)
    requires UniqueIds(base) && UniqueIds(overlay)
    ensures Winning(base, overlay, zone.id) == Some(zone)
       <==> zone in overlay || (zone in base && NoneWithId(overlay, zone.id))
  {
    LastWithIdMember(base, zone.id);
    LastWithIdMember(overlay, zone.id);
  }

  lemma KeyedById(byId: map<string, Zone>, base: seq<Zone>, overlay: seq<Zone>)
    requires ById(byId, base, overlay)
    ensures forall id :: id in byId ==> byId[id].id == id
  {
    forall id | id in byId ensures byId[id].id == id {
      LastWithIdMember(base, id);
      LastWithIdMember(overlay, id);
    }
  }

  method MapValues(byId: map<string, Zone>) returns (merged: seq<Zone>)
    requires forall id :: id in byId ==> byId[id].id == id
    ensures UniqueIds(merged)
    ensures forall zone :: zone in merged <==> zone.id in byId && byId[zone.id] == zone
  {
    merged := [];
    var pending := byId.Keys;
    while pending != {}
      invariant pending <= byId.Keys && UniqueIds(merged)
      invariant forall zone :: zone in merged <==> zone.id in byId.Keys - pending && byId[zone.id] == zone
      decreases |pending|
    {
      var id :| id in pending;
      pending := pending - {id};
      forall i | 0 <= i < |merged| ensures merged[i].id != id {
        assert merged[i] in merged;
      }
      merged := merged + [byId[id]];
    }
  }
}
