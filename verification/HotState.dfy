/** Redis hot state: the flight:{icao24} hashes and the flights:geo index over them
    (internal/redisutil/flightstate.go), as the normalizer's merge loop drives them. */
module HotState {
  import opened Prelude
  import opened Geo
  import opened FlightModel
  import opened Lexicographic
  import opened Codec

  predicate IsSpace(c: char) {
    c == ' ' || '\t' <= c <= '\r'
  }

  /** strings.TrimSpace on ASCII. */
  function Trim(s: string): string
    decreases |s|
  {
    if s != "" && IsSpace(s[0]) then Trim(s[1..])
    else if s != "" && IsSpace(s[|s| - 1]) then Trim(s[..|s| - 1])
    else s
  }

  /** Space, tab, newline, vertical tab, form feed, carriage return. */
  predicate IsBlank(c: char) {
    c == ' ' || c as int in {9, 10, 11, 12, 13}
  }

  ghost predicate Blanks(s: string) {
    forall i :: 0 <= i < |s| ==> IsBlank(s[i])
  }

  /** No white space at either end. */
  predicate Bare(s: string) {
    s != "" ==> !IsBlank(s[0]) && !IsBlank(s[|s| - 1])
  }

  lemma BlankIff(c: char)
    ensures IsSpace(c) <==> IsBlank(c)
  {
  }

  /** Trimming takes white space off both ends and nothing else. */
  lemma {:induction false} TrimExact(s: string) returns (before: string, behind: string)
    ensures s == before + Trim(s) + behind && Blanks(before) && Blanks(behind)
    decreases |s|
  {
    before, behind := "", "";
    if s != "" && IsSpace(s[0]) {
      before, behind := TrimExact(s[1..]);
      BlankIff(s[0]);
      assert s == [s[0]] + s[1..];
      before := [s[0]] + before;
    } else if s != "" && IsSpace(s[|s| - 1]) {
      before, behind := TrimExact(s[..|s| - 1]);
      BlankIff(s[|s| - 1]);
      assert s == s[..|s| - 1] + [s[|s| - 1]];
      behind := behind + [s[|s| - 1]];
    }
  }

  /** And leaves none there. */
  lemma {:induction false} TrimIsBare(s: string)
    ensures Bare(Trim(s))
    decreases |s|
  {
    if s != "" && IsSpace(s[0]) {
      TrimIsBare(s[1..]);
    } else if s != "" && IsSpace(s[|s| - 1]) {
      TrimIsBare(s[..|s| - 1]);
    } else if s != "" {
      BlankIff(s[0]);
      BlankIff(s[|s| - 1]);
    }
  }

  lemma {:induction false} TrimLower(s: string)
    ensures Trim(Lower(s)) == Lower(Trim(s))
    decreases |s|
  {
    if s != "" && IsSpace(s[0]) {
      TrimLower(s[1..]);
      assert Lower(s)[1..] == Lower(s[1..]);
    } else if s != "" && IsSpace(s[|s| - 1]) {
      TrimLower(s[..|s| - 1]);
      assert Lower(s)[..|s| - 1] == Lower(s[..|s| - 1]);
    }
  }

  /** The name a state is stored under. */
  function KeyOf(s: FlightState): string {
    Lower(Trim(s.icao24))
  }

  lemma BlankEnds(s: string)
    requires s != "" && Blanks(s)
    ensures IsSpace(s[0]) && IsSpace(s[|s| - 1]) && Blanks(s[1..]) && Blanks(s[..|s| - 1])
  {
    BlankIff(s[0]);
    BlankIff(s[|s| - 1]);
  }

  lemma BareEnds(s: string)
    requires s != "" && Bare(s)
    ensures !IsSpace(s[0]) && !IsSpace(s[|s| - 1])
  {
    BlankIff(s[0]);
    BlankIff(s[|s| - 1]);
  }

  lemma {:induction false} TrimPadded(before: string, core: string, behind: string)
    requires Blanks(before) && Blanks(behind) && Bare(core)
    ensures Trim(before + core + behind) == core
    decreases |before| + |behind|
  {
    var s := before + core + behind;
    if before != "" {
      BlankEnds(before);
      assert s[0] == before[0] && s[1..] == before[1..] + core + behind;
      TrimPadded(before[1..], core, behind);
    } else if core == "" && behind != "" {
      BlankEnds(behind);
      assert s[0] == behind[0] && s[1..] == "" + core + behind[1..];
      TrimPadded("", core, behind[1..]);
    } else if core != "" {
      BareEnds(core);
      assert s[0] == core[0];
      if behind != "" {
        BlankEnds(behind);
        assert s[|s| - 1] == behind[|behind| - 1] && s[..|s| - 1] == "" + core + behind[..|behind| - 1];
        TrimPadded("", core, behind[..|behind| - 1]);
      } else {
        assert s == core;
      }
    }
  }

  /** Whatever white space surrounds an address and whatever its case, it names the same hash, and
      addresses that spell anything else name another. */
  lemma KeyOfSpelling(s: FlightState, before: string, core: string, behind: string, t: FlightState, other: string)
    requires Blanks(before) && Blanks(behind) && Bare(core) && s.icao24 == before + core + behind
    requires Bare(other) && t.icao24 == other
    ensures KeyOf(s) == KeyOf(t) <==> SameSpelling(core, other)
  {
    TrimPadded(before, core, behind);
    TrimPadded("", other, "");
    assert "" + other + "" == other;
    LowerExact(core, other);
  }

  lemma KeyOfStored(s: FlightState)
    ensures KeyOf(Stored(s)) == KeyOf(s) && Lower(KeyOf(s)) == KeyOf(s)
  {
    TrimLower(s.icao24);
  }

  function PositionOf(s: FlightState): Position {
    Position(s.motion.lat, s.motion.lon)
  }

  // ----- The index -----

  const MAX_INDEX_LAT: real := 85.05112878
  const MAX_INDEX_LON: real := 180.0

  /** The positions Redis can index: GEOADD refuses any other. */
  predicate Indexable(p: Position) {
    -MAX_INDEX_LAT <= p.lat <= MAX_INDEX_LAT && -MAX_INDEX_LON <= p.lon <= MAX_INDEX_LON
  }

  /** Every position of the box can be indexed. */
  predicate InIndexRange(box: BBox) {
    && -MAX_INDEX_LAT <= box.minLat && box.maxLat <= MAX_INDEX_LAT
    && -MAX_INDEX_LON <= box.minLon && box.maxLon <= MAX_INDEX_LON
  }

  /** What a write transaction does to the hashes. */
  function HashesAfter(f: Formats, hashes: map<string, Hash>, s: FlightState): map<string, Hash> {
    if KeyOf(s) == "" then hashes else hashes[KeyOf(s) := EncodeFlightState(f, s)]
  }

  /** And to the index, which a refused GEOADD leaves alone: Redis does not undo the rest. */
  function IndexAfter(geo: map<string, Position>, s: FlightState): map<string, Position> {
    if KeyOf(s) == "" || !Indexable(PositionOf(s)) then geo else geo[KeyOf(s) := PositionOf(s)]
  }

  /** What a write is good for: the state can be read back under its address, is indexed where it is,
      and no other aircraft is touched. */
  lemma WriteIsRead(f: Formats, hashes: map<string, Hash>, geo: map<string, Position>, s: FlightState)
    requires f.Exact() && Held(f, s) && KeyOf(s) != ""
    ensures Read(f, HashesAfter(f, hashes, s), KeyOf(s)) == Ok(Stored(s))
    ensures HashesAfter(f, hashes, s) - {KeyOf(s)} == hashes - {KeyOf(s)}
    ensures IndexAfter(geo, s) - {KeyOf(s)} == geo - {KeyOf(s)}
    ensures -85.05112878 <= s.motion.lat <= 85.05112878 && -180.0 <= s.motion.lon <= 180.0 ==>
      KeyOf(s) in IndexAfter(geo, s) && IndexAfter(geo, s)[KeyOf(s)].lat == s.motion.lat
      && IndexAfter(geo, s)[KeyOf(s)].lon == s.motion.lon
  {
    DecodeEncode(f, s);
  }

  /** Every live hash is indexed. */
  ghost predicate Indexed(hashes: map<string, Hash>, geo: map<string, Position>) {
    hashes.Keys <= geo.Keys
  }

  /** A write leaves every live hash indexed exactly when its position can be indexed, or its name
      is in the index already. */
  lemma WriteKeepsIndexedIff(f: Formats, hashes: map<string, Hash>, geo: map<string, Position>, s: FlightState)
    requires Indexed(hashes, geo)
    ensures Indexed(HashesAfter(f, hashes, s), IndexAfter(geo, s))
       <==> KeyOf(s) == "" || Indexable(PositionOf(s)) || KeyOf(s) in geo
  {
    assert KeyOf(s) != "" ==> KeyOf(s) in HashesAfter(f, hashes, s);
  }

  // ----- What the stores always satisfy -----

  ghost predicate LowerCase(names: set<string>) {
    forall m :: m in names ==> Lower(m) == m
  }

  ghost predicate WrittenAs(f: Formats, name: string, h: Hash, s: FlightState) {
    Held(f, s) && KeyOf(s) == name && h == EncodeFlightState(f, s)
  }

  ghost predicate WrittenUnder(f: Formats, name: string, h: Hash) {
    exists s :: WrittenAs(f, name, h, s)
  }

  /** Every hash was written, under its own name. */
  ghost predicate Filed(f: Formats, hashes: map<string, Hash>) {
    forall name :: name in hashes ==> WrittenUnder(f, name, hashes[name])
  }

  ghost predicate RefusedAs(f: Formats, name: string, h: Hash, s: FlightState) {
    WrittenAs(f, name, h, s) && !Indexable(PositionOf(s))
  }

  ghost predicate RefusedUnder(f: Formats, name: string, h: Hash) {
    exists s :: RefusedAs(f, name, h, s)
  }

  /** A live hash that is not indexed was last written at a position the index refuses. */
  ghost predicate UnindexedRefused(f: Formats, hashes: map<string, Hash>, geo: map<string, Position>) {
    forall name :: name in hashes && name !in geo ==> RefusedUnder(f, name, hashes[name])
  }

  ghost predicate Consistent(f: Formats, hashes: map<string, Hash>, geo: map<string, Position>) {
    LowerCase(geo.Keys) && Filed(f, hashes) && UnindexedRefused(f, hashes, geo)
  }

  lemma WriteFiled(f: Formats, hashes: map<string, Hash>, s: FlightState)
    requires Filed(f, hashes) && Held(f, s)
    ensures Filed(f, HashesAfter(f, hashes, s))
  {
    var after := HashesAfter(f, hashes, s);
    forall name | name in after ensures WrittenUnder(f, name, after[name]) {
      if name == KeyOf(s) && KeyOf(s) != "" {
        assert WrittenAs(f, name, after[name], s);
      } else {
        assert WrittenUnder(f, name, hashes[name]);
      }
    }
  }

  lemma WriteConsistent(f: Formats, hashes: map<string, Hash>, geo: map<string, Position>, s: FlightState)
    requires Consistent(f, hashes, geo) && Held(f, s)
    ensures Consistent(f, HashesAfter(f, hashes, s), IndexAfter(geo, s))
  {
    KeyOfStored(s);
    WriteFiled(f, hashes, s);
    var after, index := HashesAfter(f, hashes, s), IndexAfter(geo, s);
    forall name | name in after && name !in index ensures RefusedUnder(f, name, after[name]) {
      if name == KeyOf(s) && KeyOf(s) != "" {
        assert RefusedAs(f, name, after[name], s);
      } else {
        assert RefusedUnder(f, name, hashes[name]);
      }
    }
  }

  /** So every hash decodes, to a state of that name: no query fails. */
  lemma FiledDecodes(f: Formats, hashes: map<string, Hash>, name: string)
    requires f.Exact() && Filed(f, hashes) && name in hashes
    ensures DecodeFlightState(f, hashes[name]).Ok? && KeyOf(DecodeFlightState(f, hashes[name]).value) == name
  {
    var s :| WrittenAs(f, name, hashes[name], s);
    DecodeEncode(f, s);
    KeyOfStored(s);
  }

  lemma RefusedIsOutside(f: Formats, name: string, h: Hash)
    requires f.Exact() && RefusedUnder(f, name, h)
    ensures DecodeFlightState(f, h).Ok? ==> !Indexable(PositionOf(DecodeFlightState(f, h).value))
  {
    var t :| RefusedAs(f, name, h, t);
    DecodeEncode(f, t);
  }

  /** Every live flight at a position the index accepts is in it. */
  ghost predicate InRangeIndexed(f: Formats, hashes: map<string, Hash>, geo: map<string, Position>) {
    forall name, s :: Read(f, hashes, name) == Ok(s) && Indexable(PositionOf(s)) ==> name in geo
  }

  lemma RefusalsInRange(f: Formats, hashes: map<string, Hash>, geo: map<string, Position>)
    requires f.Exact() && UnindexedRefused(f, hashes, geo)
    ensures InRangeIndexed(f, hashes, geo)
  {
    forall name, s | Read(f, hashes, name) == Ok(s) && Indexable(PositionOf(s)) ensures name in geo {
      if name !in geo {
        RefusedIsOutside(f, name, hashes[name]);
      }
    }
  }

  // ----- The stores and their operations -----

  ghost predicate Lists(members: seq<string>, names: set<string>) {
    && (forall m :: m in members <==> m in names)
    && (forall i, j :: 0 <= i < j < |members| ==> members[i] != members[j])
  }

  datatype Error = NotFound | Corrupt(field: Field)

  function Read(f: Formats, hashes: map<string, Hash>, name: string): Result<FlightState, Error> {
    if name !in hashes then Err(NotFound)
    else
      match DecodeFlightState(f, hashes[name])
      case Ok(state) => Ok(state)
      case Err(field) => Err(Corrupt(field))
  }

  /** Prune's check: the listed names whose hash is gone. */
  method StaleMembers(members: seq<string>, hashes: map<string, Hash>) returns (stale: seq<string>)
    requires forall i, j :: 0 <= i < j < |members| ==> members[i] != members[j]
    ensures forall m :: m in stale <==> m in members && Lower(m) !in hashes
    ensures forall a, b :: 0 <= a < b < |stale| ==> stale[a] != stale[b]
  {
    stale := [];
    for i := 0 to |members|
      invariant forall m :: m in stale <==> m in members[..i] && Lower(m) !in hashes
      invariant forall a, b :: 0 <= a < b < |stale| ==> stale[a] != stale[b]
    {
      assert members[..i + 1] == members[..i] + [members[i]];
      assert members[i] !in members[..i];
      if Lower(members[i]) !in hashes {
        stale := stale + [members[i]];
      }
    }
    assert members[..|members|] == members;
  }

  /** What a prune leaves of the index: the live names, positions untouched - all of the live names
      exactly when none was missing before. */
  ghost predicate IsLivePart(hashes: map<string, Hash>, geo: map<string, Position>, left: map<string, Position>) {
    && left.Keys == geo.Keys * hashes.Keys
    && (left.Keys == hashes.Keys <==> Indexed(hashes, geo))
    && (forall m :: m in left ==> m in geo && left[m] == geo[m])
  }

  /** Prune's check and removal, on the stores as they stand. */
  method WithoutStale(f: Formats, hashes: map<string, Hash>, geo: map<string, Position>, members: seq<string>)
    returns (left: map<string, Position>, removed: nat)
    requires Consistent(f, hashes, geo) && Lists(members, geo.Keys)
    ensures Consistent(f, hashes, left) && IsLivePart(hashes, geo, left) && removed == |geo| - |left|
  {
    var stale := StaleMembers(members, hashes);
    left := Without(geo, stale);
    Pruned(f, hashes, geo, members, stale, left);
    removed := |stale|;
  }

  /** How far a transaction gets: executed and answered, executed with the answer lost, or never
      executed. */
  datatype Transport = Answered | AnswerLost | Unreachable

  class HotStore {
    const formats: Formats
    var hashes: map<string, Hash>
    var geo: map<string, Position>

    ghost predicate Valid()
      reads this
    {
      Consistent(formats, hashes, geo)
    }

    constructor (formats: Formats)
      ensures Valid() && this.formats == formats && hashes == map[] && geo == map[]
    {
      this.formats := formats;
      hashes, geo := map[], map[];
    }

    /** One transaction for the hash and its index entry, if Redis gets to execute it. A position
        the index refuses fails the call with the hash written all the same. */
    method WriteFlightState(s: FlightState, transport: Transport) returns (ok: bool)
      requires Valid() && Held(formats, s)
      modifies this
      ensures Valid()
      ensures ok <==> KeyOf(s) != "" && transport == Answered && Indexable(PositionOf(s))
      ensures hashes == if transport == Unreachable then old(hashes) else HashesAfter(formats, old(hashes), s)
      ensures geo == if transport == Unreachable then old(geo) else IndexAfter(old(geo), s)
    {
      var icao24 := Lower(Trim(s.icao24));
      if icao24 == "" {
        return false;
      }
      if transport == Unreachable {
        return false;
      }
      WriteConsistent(formats, hashes, geo, s);
      var indexed := Indexable(Position(s.motion.lat, s.motion.lon));
      hashes := hashes[icao24 := EncodeFlightState(formats, s)];
      if indexed {
        geo := geo[icao24 := Position(s.motion.lat, s.motion.lon)];
      }
      ok := indexed && transport == Answered;
    }

    method ReadFlightState(name: string) returns (r: Result<FlightState, Error>)
      ensures r == Read(formats, hashes, Lower(name))
    {
      if Lower(name) !in hashes {
        return Err(NotFound);
      }
      var state := DecodeFlightState(formats, hashes[Lower(name)]);
      r := if state.Ok? then Ok(state.value) else Err(Corrupt(state.error));
    }

    /** PruneExpiredGeoMembers with nothing expiring meanwhile; `members` lists the index in any
        order. What stays is exactly the live part of the index. */
    method PruneExpiredGeoMembers(members: seq<string>) returns (removed: nat)
      requires Valid() && Lists(members, geo.Keys)
      modifies this`geo
      ensures Valid() && IsLivePart(hashes, old(geo), geo) && removed == |old(geo)| - |geo|
    {
      var left;
      left, removed := WithoutStale(formats, hashes, geo, members);
      geo := left;
      assert IsLivePart(hashes, old(geo), geo);
    }

    /** The loop of QueryFlightsByBBox. */
    method Collect(members: seq<string>, box: BBox) returns (r: Result<seq<FlightState>, Field>)
      requires Lists(members, geo.Keys) && LowerCase(geo.Keys)
      ensures r.Ok? ==> r.value == Collected(formats, hashes, box, members)
      ensures r.Err? ==> exists name :: name in hashes && DecodeFlightState(formats, hashes[name]) == Err(r.error)
    {
      var states: seq<FlightState> := [];
      for i := 0 to |members|
        invariant states == Collected(formats, hashes, box, members[..i])
      {
        IsName(members, geo.Keys, i);
        CollectedNext(formats, hashes, box, members, i);
        var read := ReadFlightState(members[i]);
        if read.Err? {
          if read.error == NotFound {
            continue;
          }
          return Err(read.error.field);
        }
        if box.Contains(Position(read.value.motion.lat, read.value.motion.lon)) {
          states := states + [read.value];
        }
      }
      assert members[..|members|] == members;
      r := Ok(states);
    }

    /** QueryFlightsByBBox when it scans the whole index; `members` lists the index in any order.
        It never fails, and misses no live flight of a box the index can cover. */
    method QueryFlightsByBBox(members: seq<string>, box: BBox) returns (r: Result<seq<FlightState>, Field>)
      requires Valid() && formats.Exact() && Lists(members, geo.Keys)
      ensures r.Ok? && IsQuery(formats, hashes, geo, box, r.value)
      ensures Indexed(hashes, geo) || InIndexRange(box) ==> IsComplete(formats, hashes, box, r.value)
    {
      r := Collect(members, box);
      NoneCorrupt(formats, hashes);
      QueryExact(formats, hashes, geo, box, members);
      r := if r.Ok? then Ok(SortByIcao(r.value)) else r;
      CompleteInRange(formats, hashes, geo, box, SortByIcao(Collected(formats, hashes, box, members)));
    }
  }

  lemma IsName(members: seq<string>, names: set<string>, i: nat)
    requires Lists(members, names) && LowerCase(names) && i < |members|
    ensures Lower(members[i]) == members[i]
  {
    assert members[i] in members;
  }

  lemma CollectedNext(f: Formats, hashes: map<string, Hash>, box: BBox, members: seq<string>, i: nat)
    requires i < |members|
    ensures Collected(f, hashes, box, members[..i + 1])
         == Collected(f, hashes, box, members[..i]) +
            var read := Read(f, hashes, members[i]);
            if read.Ok? && box.Contains(Position(read.value.motion.lat, read.value.motion.lon)) then [read.value] else []
  {
    assert members[..i + 1][..i] == members[..i];
  }

  /** The index without its stale members. */
  function Without(geo: map<string, Position>, stale: seq<string>): map<string, Position> {
    geo - (set m | m in stale)
  }

  lemma Pruned(f: Formats, hashes: map<string, Hash>, geo: map<string, Position>, members: seq<string>, stale: seq<string>,
               left: map<string, Position>)
    requires Consistent(f, hashes, geo) && Lists(members, geo.Keys) && left == Without(geo, stale)
    requires forall m :: m in stale <==> m in members && Lower(m) !in hashes
    requires forall a, b :: 0 <= a < b < |stale| ==> stale[a] != stale[b]
    ensures Consistent(f, hashes, left) && |stale| == |geo| - |left|
    ensures left.Keys == geo.Keys * hashes.Keys
    ensures left.Keys == hashes.Keys <==> Indexed(hashes, geo)
    ensures forall m :: m in left ==> left[m] == geo[m]
  {
    StaleCount(stale, hashes, geo);
  }

  lemma NoneCorrupt(f: Formats, hashes: map<string, Hash>)
    requires f.Exact() && Filed(f, hashes)
    ensures forall name :: name in hashes ==> DecodeFlightState(f, hashes[name]).Ok?
  {
    forall name | name in hashes ensures DecodeFlightState(f, hashes[name]).Ok? {
      FiledDecodes(f, hashes, name);
    }
  }

  lemma StaleCount(stale: seq<string>, hashes: map<string, Hash>, geo: map<string, Position>)
    requires forall m :: m in stale <==> m in geo && m !in hashes
    requires forall a, b :: 0 <= a < b < |stale| ==> stale[a] != stale[b]
    ensures |geo| - |Without(geo, stale)| == |stale|
  {
    var gone := set m | m in stale;
    DistinctCount(stale);
    assert (geo - gone).Keys == geo.Keys - gone;
    assert |geo.Keys - gone| == |geo.Keys| - |gone * geo.Keys|;
    assert gone * geo.Keys == gone;
  }

  lemma {:induction false} DistinctCount(s: seq<string>)
    requires forall a, b :: 0 <= a < b < |s| ==> s[a] != s[b]
    ensures |set m | m in s| == |s|
  {
    if s != [] {
      var init := s[..|s| - 1];
      DistinctCount(init);
      assert s == init + [s[|s| - 1]];
      assert (set m | m in s) == (set m | m in init) + {s[|s| - 1]};
    }
  }

  // ----- Queries -----

  ghost predicate LiveAs(f: Formats, hashes: map<string, Hash>, box: BBox, s: FlightState, name: string) {
    Read(f, hashes, name) == Ok(s) && box.Contains(PositionOf(s))
  }

  ghost predicate IcaoAscending(states: seq<FlightState>) {
    forall i, j :: 0 <= i < j < |states| ==> TextBefore(states[i].icao24, states[j].icao24)
  }

  ghost predicate IndexedAs(f: Formats, hashes: map<string, Hash>, geo: map<string, Position>, box: BBox, s: FlightState,
                            name: string)
  {
    name in geo && LiveAs(f, hashes, box, s, name)
  }

  /** The answer to a query: exactly the live, indexed flights inside the box, in address order,
      each once. */
  ghost predicate IsQuery(f: Formats, hashes: map<string, Hash>, geo: map<string, Position>, box: BBox, states: seq<FlightState>) {
    && IcaoAscending(states)
    && (forall s :: s in states <==> exists name :: IndexedAs(f, hashes, geo, box, s, name))
  }

  /** All the live flights inside the box. */
  ghost predicate IsComplete(f: Formats, hashes: map<string, Hash>, box: BBox, states: seq<FlightState>) {
    forall s :: s in states <==> exists name :: LiveAs(f, hashes, box, s, name)
  }

  /** Every live flight of the box is in the index. */
  ghost predicate BoxIndexed(f: Formats, hashes: map<string, Hash>, geo: map<string, Position>, box: BBox) {
    forall s, name :: LiveAs(f, hashes, box, s, name) ==> name in geo
  }

  /** A query misses no live flight of its box if and only if the index does not. */
  lemma QueryCompleteIff(f: Formats, hashes: map<string, Hash>, geo: map<string, Position>, box: BBox, states: seq<FlightState>)
    requires f.Exact() && Filed(f, hashes) && IsQuery(f, hashes, geo, box, states)
    ensures IsComplete(f, hashes, box, states) <==> BoxIndexed(f, hashes, geo, box)
  {
    if BoxIndexed(f, hashes, geo, box) {
      forall s ensures s in states <==> exists name :: LiveAs(f, hashes, box, s, name) {
        if name :| LiveAs(f, hashes, box, s, name) {
          assert IndexedAs(f, hashes, geo, box, s, name);
        }
      }
    }
    if IsComplete(f, hashes, box, states) {
      forall s, name | LiveAs(f, hashes, box, s, name) ensures name in geo {
        assert s in states;
        var indexed :| IndexedAs(f, hashes, geo, box, s, indexed);
        FiledDecodes(f, hashes, name);
        FiledDecodes(f, hashes, indexed);
      }
    }
  }

  /** Which it never does in a box it can cover, nor when every live hash is indexed. */
  lemma CompleteInRange(f: Formats, hashes: map<string, Hash>, geo: map<string, Position>, box: BBox, states: seq<FlightState>)
    requires f.Exact() && Consistent(f, hashes, geo) && IsQuery(f, hashes, geo, box, states)
    ensures Indexed(hashes, geo) || InIndexRange(box) ==> IsComplete(f, hashes, box, states)
  {
    QueryCompleteIff(f, hashes, geo, box, states);
    if InIndexRange(box) {
      RefusalsInRange(f, hashes, geo);
      forall s, name | LiveAs(f, hashes, box, s, name) ensures name in geo {
        assert Read(f, hashes, name) == Ok(s) && Indexable(PositionOf(s));
      }
    }
  }

  /** What reading `members` in turn keeps. */
  function Collected(f: Formats, hashes: map<string, Hash>, box: BBox, members: seq<string>): seq<FlightState> {
    if members == [] then []
    else
      var read := Read(f, hashes, members[|members| - 1]);
      Collected(f, hashes, box, members[..|members| - 1]) +
      if read.Ok? && box.Contains(Position(read.value.motion.lat, read.value.motion.lon)) then [read.value] else []
  }

  ghost predicate FromMember(f: Formats, hashes: map<string, Hash>, box: BBox, members: seq<string>, s: FlightState) {
    exists name :: name in members && LiveAs(f, hashes, box, s, name)
  }

  lemma CollectedMemberNext(f: Formats, hashes: map<string, Hash>, box: BBox, init: seq<string>, last: string,
                            members: seq<string>, s: FlightState)
    requires members == init + [last] && (s in Collected(f, hashes, box, init) <==> FromMember(f, hashes, box, init, s))
    ensures s in Collected(f, hashes, box, members) <==> FromMember(f, hashes, box, members, s)
  {
    assert members[..|init|] == init;
    if LiveAs(f, hashes, box, s, last) {
      assert last in members;
    }
  }

  lemma {:induction false} CollectedMember(f: Formats, hashes: map<string, Hash>, box: BBox, members: seq<string>, s: FlightState)
    ensures s in Collected(f, hashes, box, members) <==> FromMember(f, hashes, box, members, s)
  {
    if members != [] {
      var init, last := members[..|members| - 1], members[|members| - 1];
      assert members == init + [last];
      CollectedMember(f, hashes, box, init, s);
      CollectedMemberNext(f, hashes, box, init, last, members, s);
    }
  }

  ghost predicate DistinctIcaos(states: seq<FlightState>) {
    forall i, j :: 0 <= i < j < |states| ==> states[i].icao24 != states[j].icao24
  }

  ghost predicate DistinctKeys(states: seq<FlightState>) {
    forall i, j :: 0 <= i < j < |states| ==> KeyOf(states[i]) != KeyOf(states[j])
  }

  lemma DistinctKeysNext(states: seq<FlightState>, names: seq<string>, s: FlightState)
    requires DistinctKeys(states) && KeyOf(s) !in names && forall x :: x in states ==> KeyOf(x) in names
    ensures DistinctKeys(states + [s])
  {
    forall i | 0 <= i < |states| ensures KeyOf(states[i]) != KeyOf(s) {
      assert states[i] in states;
    }
  }

  lemma DistinctNext(f: Formats, hashes: map<string, Hash>, before: seq<FlightState>, names: seq<string>, last: string)
    requires f.Exact() && Filed(f, hashes) && last !in names
    requires DistinctKeys(before) && forall x :: x in before ==> KeyOf(x) in names
    ensures Read(f, hashes, last).Ok? ==> DistinctKeys(before + [Read(f, hashes, last).value])
  {
    if Read(f, hashes, last).Ok? {
      FiledDecodes(f, hashes, last);
      DistinctKeysNext(before, names, Read(f, hashes, last).value);
    }
  }

  lemma {:induction false} CollectedDistinct(f: Formats, hashes: map<string, Hash>, box: BBox, members: seq<string>)
    requires f.Exact() && Filed(f, hashes)
    requires forall i, j :: 0 <= i < j < |members| ==> members[i] != members[j]
    ensures DistinctKeys(Collected(f, hashes, box, members))
  {
    if members != [] {
      var init, last := members[..|members| - 1], members[|members| - 1];
      CollectedDistinct(f, hashes, box, init);
      NamedByMembers(f, hashes, box, init);
      DistinctNext(f, hashes, Collected(f, hashes, box, init), init, last);
      assert Collected(f, hashes, box, init) + [] == Collected(f, hashes, box, init);
    }
  }

  lemma NamedByMembers(f: Formats, hashes: map<string, Hash>, box: BBox, members: seq<string>)
    requires f.Exact() && Filed(f, hashes)
    ensures forall s :: s in Collected(f, hashes, box, members) ==> KeyOf(s) in members
  {
    forall s | s in Collected(f, hashes, box, members) ensures KeyOf(s) in members {
      CollectedMember(f, hashes, box, members, s);
      var name :| name in members && LiveAs(f, hashes, box, s, name);
      FiledDecodes(f, hashes, name);
    }
  }

  lemma QueryExact(f: Formats, hashes: map<string, Hash>, geo: map<string, Position>, box: BBox, members: seq<string>)
    requires f.Exact() && Filed(f, hashes) && Lists(members, geo.Keys)
    ensures IsQuery(f, hashes, geo, box, SortByIcao(Collected(f, hashes, box, members)))
  {
    var states := Collected(f, hashes, box, members);
    CollectedDistinct(f, hashes, box, members);
    assert DistinctIcaos(states);
    SortedByIcao(states);
    forall s ensures s in states <==> exists name :: IndexedAs(f, hashes, geo, box, s, name) {
      CollectedMember(f, hashes, box, members, s);
      assert forall name :: IndexedAs(f, hashes, geo, box, s, name) <==> name in members && LiveAs(f, hashes, box, s, name);
    }
  }

  function InsertByIcao(sorted: seq<FlightState>, s: FlightState): seq<FlightState> {
    if sorted == [] then [s]
    else if TextBefore(s.icao24, sorted[0].icao24) then [s] + sorted
    else [sorted[0]] + InsertByIcao(sorted[1..], s)
  }

  /** sort.Slice by address. */
  function SortByIcao(states: seq<FlightState>): seq<FlightState> {
    if states == [] then [] else InsertByIcao(SortByIcao(states[..|states| - 1]), states[|states| - 1])
  }

  lemma {:induction false} InsertMembers(sorted: seq<FlightState>, s: FlightState)
    ensures forall x :: x in InsertByIcao(sorted, s) <==> x in sorted || x == s
  {
    if sorted != [] && !TextBefore(s.icao24, sorted[0].icao24) {
      InsertMembers(sorted[1..], s);
      assert sorted == [sorted[0]] + sorted[1..];
    }
  }

  lemma {:induction false} InsertKeepsAscending(sorted: seq<FlightState>, s: FlightState)
    requires IcaoAscending(sorted) && forall i :: 0 <= i < |sorted| ==> sorted[i].icao24 != s.icao24
    ensures IcaoAscending(InsertByIcao(sorted, s))
  {
    if sorted != [] {
      var first := sorted[0];
      TextBeforeTotal(s.icao24, first.icao24);
      if TextBefore(s.icao24, first.icao24) {
        forall j | 1 <= j < |sorted| ensures TextBefore(s.icao24, sorted[j].icao24) {
          TextBeforeTransitive(s.icao24, first.icao24, sorted[j].icao24);
        }
      } else {
        var rest := InsertByIcao(sorted[1..], s);
        InsertKeepsAscending(sorted[1..], s);
        InsertMembers(sorted[1..], s);
        forall j | 0 <= j < |rest| ensures TextBefore(first.icao24, rest[j].icao24) {
          assert rest[j] in rest;
        }
      }
    }
  }

  lemma {:induction false} SortedByIcao(states: seq<FlightState>)
    requires DistinctIcaos(states)
    ensures IcaoAscending(SortByIcao(states))
    ensures forall s :: s in SortByIcao(states) <==> s in states
  {
    if states != [] {
      var init, last := states[..|states| - 1], states[|states| - 1];
      SortedByIcao(init);
      var sorted := SortByIcao(init);
      forall i | 0 <= i < |sorted| ensures sorted[i].icao24 != last.icao24 {
        assert sorted[i] in sorted;
        var k :| 0 <= k < |init| && init[k] == sorted[i];
        assert states[k] == init[k];
      }
      InsertKeepsAscending(sorted, last);
      InsertMembers(sorted, last);
      assert states == init + [last];
    }
  }

  // ----- Keys expiring at any point -----

  /** A prune in progress: the names still to be checked, and those found dead. */
  datatype Prune = Idle | Checking(todo: set<string>, stale: set<string>)

  datatype State = State(hashes: map<string, Hash>, geo: map<string, Position>, prune: Prune)

  datatype Step =
    | Write(s: FlightState)      // executed, whether or not the answer arrives
    | Expire(name: string)
    | ListIndex
    | CheckHash(name: string)    // the pipeline's answers come key by key
    | RemoveStale
    | GiveUp                     // a prune that fails

  /** The merge loop is sequential: its writes are over before its prune begins. A hash may
      expire at any point. */
  predicate Enabled(f: Formats, st: State, step: Step) {
    match step
    case Write(s) => st.prune.Idle? && Held(f, s)
    case Expire(_) => true
    case ListIndex => st.prune.Idle?
    case CheckHash(name) => st.prune.Checking? && name in st.prune.todo
    case RemoveStale => st.prune.Checking? && st.prune.todo == {}
    case GiveUp => st.prune.Checking?
  }

  function Apply(f: Formats, st: State, step: Step): State {
    match step
    case Write(s) => st.(hashes := HashesAfter(f, st.hashes, s), geo := IndexAfter(st.geo, s))
    case Expire(name) => st.(hashes := st.hashes - {name})
    case ListIndex => st.(prune := Checking(st.geo.Keys, {}))
    case CheckHash(name) =>
      if st.prune.Idle? then st
      else st.(prune := Checking(st.prune.todo - {name}, if name in st.hashes then st.prune.stale else st.prune.stale + {name}))
    case RemoveStale =>
      if st.prune.Idle? then st else st.(geo := st.geo - st.prune.stale, prune := Idle)
    case GiveUp => st.(prune := Idle)
  }

  function Run(f: Formats, st: State, steps: seq<Step>): State {
    if steps == [] then st else Apply(f, Run(f, st, steps[..|steps| - 1]), steps[|steps| - 1])
  }

  predicate Legal(f: Formats, st: State, steps: seq<Step>) {
    steps == [] ||
    (Legal(f, st, steps[..|steps| - 1]) && Enabled(f, Run(f, st, steps[..|steps| - 1]), steps[|steps| - 1]))
  }

  function Empty(): State {
    State(map[], map[], Idle)
  }

  /** The stores are consistent and what a prune is about to remove is still dead. */
  ghost predicate Sound(f: Formats, st: State) {
    Consistent(f, st.hashes, st.geo) && (st.prune.Checking? ==> st.prune.stale !! st.hashes.Keys)
  }

  lemma StepSound(f: Formats, st: State, step: Step)
    requires Sound(f, st) && Enabled(f, st, step)
    ensures Sound(f, Apply(f, st, step))
  {
    if step.Write? {
      WriteConsistent(f, st.hashes, st.geo, step.s);
    }
  }

  lemma {:induction false} RunSound(f: Formats, st: State, steps: seq<Step>)
    requires Sound(f, st) && Legal(f, st, steps)
    ensures Sound(f, Run(f, st, steps))
  {
    if steps != [] {
      RunSound(f, st, steps[..|steps| - 1]);
      StepSound(f, Run(f, st, steps[..|steps| - 1]), steps[|steps| - 1]);
    }
  }

  /** On every run from empty stores, whatever expires and when, every live flight at a position
      the index accepts is indexed. */
  lemma AlwaysIndexedInRange(f: Formats, steps: seq<Step>)
    requires f.Exact() && Legal(f, Empty(), steps)
    ensures InRangeIndexed(f, Run(f, Empty(), steps).hashes, Run(f, Empty(), steps).geo)
  {
    RunSound(f, Empty(), steps);
    RefusalsInRange(f, Run(f, Empty(), steps).hashes, Run(f, Empty(), steps).geo);
  }

  /** Every write is at a position the index accepts. */
  ghost predicate WritesIndexable(steps: seq<Step>) {
    forall i :: 0 <= i < |steps| && steps[i].Write? ==> Indexable(PositionOf(steps[i].s))
  }

  /** On every run that writes only such positions, every live hash is indexed. */
  lemma {:induction false} AlwaysIndexed(f: Formats, steps: seq<Step>)
    requires Legal(f, Empty(), steps) && WritesIndexable(steps)
    ensures Indexed(Run(f, Empty(), steps).hashes, Run(f, Empty(), steps).geo)
  {
    if steps != [] {
      var init, step := steps[..|steps| - 1], steps[|steps| - 1];
      var st := Run(f, Empty(), init);
      AlwaysIndexed(f, init);
      RunSound(f, Empty(), init);
      if step.Write? {
        WriteKeepsIndexedIff(f, st.hashes, st.geo, step.s);
      }
    }
  }

  /** One write beyond that range, and a live flight is not indexed. */
  lemma RefusedIsUnindexed(f: Formats, s: FlightState)
    requires Held(f, s) && KeyOf(s) != "" && !Indexable(PositionOf(s))
    ensures var st := Run(f, Empty(), [Write(s)]);
      Legal(f, Empty(), [Write(s)]) && KeyOf(s) in st.hashes && KeyOf(s) !in st.geo
  {
    assert [Write(s)][..0] == [];
  }

  /** For instance any aircraft reported at 86 degrees north. */
  lemma PolarFlightUnindexed(s: FlightState)
    requires KeyOf(s) == "a1b2c3" && s.motion.lat == 86.0 && s.motion.lon == 0.0 && s.lastSeenUTC == 1
    requires s.motion.altitudeBaroFt == None && s.motion.altitudeGeoFt == None
    requires s.motion.groundSpeedKt == None && s.motion.verticalRateFpm == None && s.motion.headingDeg == None
    ensures DecimalFormats().Exact() && Legal(DecimalFormats(), Empty(), [Write(s)])
    ensures "a1b2c3" in Run(DecimalFormats(), Empty(), [Write(s)]).hashes
    ensures "a1b2c3" !in Run(DecimalFormats(), Empty(), [Write(s)]).geo
  {
    DecimalFormatsExact();
    RefusedIsUnindexed(DecimalFormats(), s);
  }

  // ----- A whole prune -----

  /** Only checks, and hashes expiring around them. */
  ghost predicate Checks(steps: seq<Step>) {
    forall i :: 0 <= i < |steps| ==> steps[i].CheckHash? || steps[i].Expire?
  }

  /** Step `i` checks `m` and finds it live. */
  ghost predicate LiveAt(f: Formats, st: State, steps: seq<Step>, i: int, m: string) {
    0 <= i < |steps| && steps[i] == CheckHash(m) && m in Run(f, st, steps[..i]).hashes
  }

  ghost predicate FoundLive(f: Formats, st: State, steps: seq<Step>, m: string) {
    exists i :: LiveAt(f, st, steps, i, m)
  }

  lemma FoundLiveSnoc(f: Formats, st: State, steps: seq<Step>, m: string)
    requires steps != []
    ensures FoundLive(f, st, steps, m)
       <==> FoundLive(f, st, steps[..|steps| - 1], m) || LiveAt(f, st, steps, |steps| - 1, m)
  {
    var init := steps[..|steps| - 1];
    forall i | 0 <= i < |init| ensures LiveAt(f, st, steps, i, m) <==> LiveAt(f, st, init, i, m) {
      assert init[..i] == steps[..i];
    }
    if FoundLive(f, st, init, m) {
      var i :| LiveAt(f, st, init, i, m);
      assert LiveAt(f, st, steps, i, m);
    }
  }

  /** What is known of a prune after some checks: what it found live it keeps. */
  ghost predicate CheckedSoFar(f: Formats, st: State, steps: seq<Step>) {
    var t := Run(f, st, steps);
    && t.prune.Checking? && t.geo == st.geo && t.hashes.Keys <= st.hashes.Keys
    && t.prune.todo <= st.geo.Keys && t.prune.stale <= st.geo.Keys
    && (forall m :: m in t.prune.todo ==> m !in t.prune.stale && !FoundLive(f, st, steps, m))
    && (forall m :: m in st.geo.Keys && m !in t.prune.todo ==> (m in t.prune.stale <==> !FoundLive(f, st, steps, m)))
  }

  lemma CheckedNext(f: Formats, st: State, steps: seq<Step>)
    requires steps != [] && CheckedSoFar(f, st, steps[..|steps| - 1])
    requires Enabled(f, Run(f, st, steps[..|steps| - 1]), steps[|steps| - 1])
    requires steps[|steps| - 1].CheckHash? || steps[|steps| - 1].Expire?
    ensures CheckedSoFar(f, st, steps)
  {
    forall m ensures FoundLive(f, st, steps, m)
      <==> FoundLive(f, st, steps[..|steps| - 1], m) || LiveAt(f, st, steps, |steps| - 1, m)
    {
      FoundLiveSnoc(f, st, steps, m);
    }
  }

  lemma {:induction false} CheckedRun(f: Formats, st: State, steps: seq<Step>)
    requires st.prune == Checking(st.geo.Keys, {}) && Checks(steps) && Legal(f, st, steps)
    ensures CheckedSoFar(f, st, steps)
  {
    if steps != [] {
      CheckedRun(f, st, steps[..|steps| - 1]);
      CheckedNext(f, st, steps);
    }
  }

  /** A whole prune, its checks interleaved with expiries in any order, leaves in the index exactly
      what it found live - which takes no live name out of it. */
  lemma PruneLeaves(f: Formats, st: State, checks: seq<Step>)
    requires Sound(f, st) && st.prune.Idle? && Checks(checks) && Legal(f, Apply(f, st, ListIndex), checks)
    requires Enabled(f, Run(f, Apply(f, st, ListIndex), checks), RemoveStale)
    ensures var listed := Apply(f, st, ListIndex);
      var end := Apply(f, Run(f, listed, checks), RemoveStale);
      && (forall m :: m in end.geo <==> m in st.geo && FoundLive(f, listed, checks, m))
      && end.hashes.Keys * st.geo.Keys <= end.geo.Keys
  {
    var listed := Apply(f, st, ListIndex);
    CheckedRun(f, listed, checks);
    RunSound(f, listed, checks);
    var t := Run(f, listed, checks);
    assert (t.geo - t.prune.stale).Keys == t.geo.Keys - t.prune.stale;
  }

  /** So afterwards index and hashes agree if and only if every hash then live was indexed to begin
      with and nothing found live has expired since. */
  lemma PruneAgreesIff(f: Formats, st: State, checks: seq<Step>)
    requires Sound(f, st) && st.prune.Idle? && Checks(checks) && Legal(f, Apply(f, st, ListIndex), checks)
    requires Enabled(f, Run(f, Apply(f, st, ListIndex), checks), RemoveStale)
    ensures var listed := Apply(f, st, ListIndex);
      var end := Apply(f, Run(f, listed, checks), RemoveStale);
      end.geo.Keys == end.hashes.Keys
      <==> Indexed(end.hashes, st.geo) && forall m :: m in st.geo && FoundLive(f, listed, checks, m) ==> m in end.hashes
  {
    PruneLeaves(f, st, checks);
  }

  /** Sequencing is what protects the index. Were a flight the index accepts written between a
      prune's checks and its removal, it would end up live but unindexed exactly when its check had
      found it dead. */
  lemma WriteDuringPrune(f: Formats, st: State, s: FlightState)
    requires Sound(f, st) && Indexed(st.hashes, st.geo) && st.prune.Checking?
    requires KeyOf(s) != "" && Indexable(PositionOf(s))
    ensures Indexed(Run(f, st, [Write(s), RemoveStale]).hashes, Run(f, st, [Write(s), RemoveStale]).geo)
       <==> KeyOf(s) !in st.prune.stale
  {
    var steps := [Write(s), RemoveStale];
    assert steps[..1] == [Write(s)] && steps[..1][..0] == [];
    var written := Apply(f, st, Write(s));
    assert Run(f, st, steps[..1]) == written;
    assert Run(f, st, steps) == Apply(f, written, RemoveStale);
    assert (written.geo - st.prune.stale).Keys == written.geo.Keys - st.prune.stale;
    assert KeyOf(s) in written.hashes;
  }
}
