/** The multi-source merge (cmd/normalizer/merge.go). Provider payload parsing and the icon
    classifier are parameters: any partial function from raw payloads to reports, and any
    function of the three type fields. */
module Merge {
  import opened Prelude
  import opened Lexicographic
  import opened FlightModel

  /** freshnessTieWindow: 15 s in nanoseconds. */
  const TIE_WINDOW: int := 15_000_000_000

  datatype RawState = RawState(provider: string, icao24: string, fetchedAt: int, payload: string)

  datatype Report = Report(
    provider: string, icao24: string, lastSeenUTC: int, motion: Motion, positionQuality: string,
    aircraftType: Option<string>, emitterCategory: Option<string>, military: bool)

  type Parser = RawState -> Option<Report>
  type Classifier = (Option<string>, Option<string>, bool) -> Option<string>

  function QualityRank(q: string): int {
    if q == ADSB then 0 else if q == MLAT then 1 else 2
  }

  // ----- Precedence, declaratively -----

  /** `a` takes precedence over `b` among near-tied reports. */
  predicate Preferred(a: Report, b: Report) {
    var ra, rb := QualityRank(a.positionQuality), QualityRank(b.positionQuality);
    ra < rb ||
    (ra == rb && (a.lastSeenUTC > b.lastSeenUTC ||
                  (a.lastSeenUTC == b.lastSeenUTC && TextBefore(a.provider, b.provider))))
  }

  /** `r` is within the tie window of every report of `all`, hence of the freshest. */
  ghost predicate Near(r: Report, all: set<Report>) {
    forall x :: x in all ==> x.lastSeenUTC - r.lastSeenUTC <= TIE_WINDOW
  }

  ghost predicate Wins(w: Report, all: set<Report>) {
    w in all && Near(w, all) && forall r :: r in all && Near(r, all) ==> !Preferred(r, w)
  }

  ghost predicate OnePerProvider(all: set<Report>) {
    forall a, b :: a in all && b in all && a.provider == b.provider ==> a == b
  }

  lemma PreferredTotal(a: Report, b: Report)
    ensures Preferred(a, b) || Preferred(b, a) || a.provider == b.provider
    ensures !(Preferred(a, b) && Preferred(b, a))
  {
    TextBeforeTotal(a.provider, b.provider);
  }

  lemma PreferredTransitive(a: Report, b: Report, c: Report)
    requires !Preferred(a, b) && !Preferred(b, c)
    ensures !Preferred(a, c)
  {
    TextBeforeTotal(a.provider, b.provider);
    TextBeforeTotal(b.provider, c.provider);
    if TextBefore(a.provider, c.provider) && TextBefore(c.provider, b.provider) {
      TextBeforeTransitive(a.provider, c.provider, b.provider);
    }
  }

  lemma WinnerUnique(v: Report, w: Report, all: set<Report>)
    requires OnePerProvider(all) && Wins(v, all) && Wins(w, all)
    ensures v == w
  {
    PreferredTotal(v, w);
  }

  /** No report of `all` is more than 15 s newer than `r`. */
  ghost predicate Reached(r: Report, all: set<Report>) {
    forall x :: x in all ==> x.lastSeenUTC - r.lastSeenUTC <= 15_000_000_000
  }

  /** ADS-B, MLAT, and everything else. */
  predicate SameClass(p: string, q: string) {
    (p == "adsb" <==> q == "adsb") && (p == "mlat" <==> q == "mlat")
  }

  /** Of those reports `r` has nothing on `w`: not a better class of position, nor within its class a
      newer instant, nor at the same instant a provider's name that comes first. */
  ghost predicate NoBetter(r: Report, w: Report) {
    && (r.positionQuality == "adsb" ==> w.positionQuality == "adsb")
    && (r.positionQuality == "mlat" ==> w.positionQuality in {"adsb", "mlat"})
    && (SameClass(r.positionQuality, w.positionQuality) ==> r.lastSeenUTC <= w.lastSeenUTC)
    && (SameClass(r.positionQuality, w.positionQuality) && r.lastSeenUTC == w.lastSeenUTC ==>
          forall n: nat :: !FirstLess(r.provider, w.provider, n))
  }

  ghost predicate Best(w: Report, all: set<Report>) {
    w in all && Reached(w, all) && forall r :: r in all && Reached(r, all) ==> NoBetter(r, w)
  }

  /** The winner, in the rule's own terms. */
  lemma WinsIff(w: Report, all: set<Report>)
    ensures Wins(w, all) <==> Best(w, all)
  {
    forall r ensures !Preferred(r, w) <==> NoBetter(r, w) {
      TextBeforeIff(r.provider, w.provider);
    }
  }

  /** Any subset that keeps the winner and one freshest report has the same winner. */
  lemma WinnerOfSubset(w: Report, all: set<Report>, some: set<Report>, freshest: Report)
    requires Wins(w, all) && some <= all && w in some
    requires freshest in some && forall r :: r in all ==> r.lastSeenUTC <= freshest.lastSeenUTC
    ensures Wins(w, some)
  {
    forall r | r in some && Near(r, some) ensures !Preferred(r, w) {
      assert Near(r, all);
    }
  }

  /** A report that is out of the tie window of one already there does not change the winner. */
  lemma StaleReportIgnored(w: Report, all: set<Report>, late: Report, fresher: Report)
    requires fresher in all && fresher.lastSeenUTC - late.lastSeenUTC > TIE_WINDOW
    ensures Wins(w, all + {late}) <==> Wins(w, all)
  {
    forall r | r in all ensures Near(r, all + {late}) <==> Near(r, all) {
      if Near(r, all) {
        assert fresher.lastSeenUTC - r.lastSeenUTC <= TIE_WINDOW;
      }
    }
    assert !Near(late, all + {late});
    if Wins(w, all) {
      forall r | r in all + {late} && Near(r, all + {late}) ensures !Preferred(r, w) {
        assert r in all;
      }
    }
    if Wins(w, all + {late}) {
      forall r | r in all && Near(r, all) ensures !Preferred(r, w) {
        assert Near(r, all + {late});
      }
    }
  }

  // ----- The loops -----

  ghost function SetOf<T>(s: seq<T>): set<T> {
    set x | x in s
  }

  /** Nothing among the first `n` reports within the window of `maxTime` beats `best`. */
  ghost predicate Unbeaten(best: Report, reports: seq<Report>, n: nat, maxTime: int)
    requires n <= |reports|
  {
    forall k :: 0 <= k < n && maxTime - reports[k].lastSeenUTC <= TIE_WINDOW ==> !Preferred(reports[k], best)
  }

  lemma UnbeatenStep(best: Report, reports: seq<Report>, n: nat, maxTime: int)
    requires n < |reports| && Unbeaten(best, reports, n, maxTime)
    ensures Preferred(reports[n], best) ==> Unbeaten(reports[n], reports, n + 1, maxTime)
    ensures !Preferred(reports[n], best) ==> Unbeaten(best, reports, n + 1, maxTime)
  {
    PreferredTotal(reports[n], best);
    PreferredTotal(reports[n], reports[n]);
    if Preferred(reports[n], best) {
      forall k | 0 <= k < n && maxTime - reports[k].lastSeenUTC <= TIE_WINDOW ensures !Preferred(reports[k], reports[n]) {
        PreferredTransitive(reports[k], best, reports[n]);
      }
    }
  }

  /** Every near report among the first `n` is strictly worse than `best`. */
  ghost predicate Ahead(best: Report, reports: seq<Report>, n: nat, maxTime: int)
    requires n <= |reports|
  {
    forall k :: 0 <= k < n && maxTime - reports[k].lastSeenUTC <= TIE_WINDOW ==> Preferred(best, reports[k])
  }

  lemma AheadStep(best: Report, reports: seq<Report>, n: nat, maxTime: int)
    requires n < |reports| && Unbeaten(best, reports, n, maxTime) && Preferred(reports[n], best)
    ensures Ahead(reports[n], reports, n, maxTime)
  {
    forall k | 0 <= k < n && maxTime - reports[k].lastSeenUTC <= TIE_WINDOW ensures Preferred(reports[n], reports[k]) {
      if !Preferred(reports[n], reports[k]) {
        PreferredTransitive(reports[n], reports[k], best);
      }
    }
  }

  ghost predicate EarliestAt(best: Report, reports: seq<Report>, i: int) {
    && 0 <= i < |reports| && reports[i] == best
    && forall k :: 0 <= k < i && Near(reports[k], SetOf(reports)) ==> Preferred(best, reports[k])
  }

  /** Of winners that tie in everything, the one listed first. */
  ghost predicate EarliestWinner(best: Report, reports: seq<Report>) {
    Wins(best, SetOf(reports)) && exists i :: EarliestAt(best, reports, i)
  }

  lemma EarliestIs(best: Report, reports: seq<Report>, at: nat, maxTime: int, top: nat)
    requires at < |reports| && reports[at] == best && Ahead(best, reports, at, maxTime)
    requires top < |reports| && reports[top].lastSeenUTC == maxTime
    requires Wins(best, SetOf(reports))
    ensures EarliestWinner(best, reports)
  {
    assert reports[top] in SetOf(reports);
    assert EarliestAt(best, reports, at);
  }

  /** pickWinner: the lexicographic optimum of (quality, newest, provider) among the reports
      near the freshest. */
  method PickWinner(reports: seq<Report>) returns (best: Report)
    requires reports != []
    ensures Wins(best, SetOf(reports)) && EarliestWinner(best, reports)
    ensures Best(best, SetOf(reports))
  {
    var maxTime := reports[0].lastSeenUTC;
    ghost var top := 0;
    for i := 1 to |reports|
      invariant forall k :: 0 <= k < i ==> reports[k].lastSeenUTC <= maxTime
      invariant 0 <= top < i && reports[top].lastSeenUTC == maxTime
    {
      if reports[i].lastSeenUTC > maxTime {
        maxTime := reports[i].lastSeenUTC;
        top := i;
      }
    }

    best := reports[0];
    ghost var at := 0;
    var bestIsCandidate := maxTime - best.lastSeenUTC <= TIE_WINDOW;
    PreferredTotal(best, best);
    for i := 1 to |reports|
      invariant 0 <= at < i && reports[at] == best && Ahead(best, reports, at, maxTime)
      invariant bestIsCandidate == (maxTime - best.lastSeenUTC <= TIE_WINDOW)
      invariant Unbeaten(best, reports, i, maxTime)
      invariant !bestIsCandidate ==> forall k :: 0 <= k < i ==> maxTime - reports[k].lastSeenUTC > TIE_WINDOW
    {
      var r := reports[i];
      var isCandidate := maxTime - r.lastSeenUTC <= TIE_WINDOW;
      if !isCandidate {
        continue;
      }
      UnbeatenStep(best, reports, i, maxTime);
      if Preferred(r, best) {
        AheadStep(best, reports, i, maxTime);
      }
      if !bestIsCandidate {
        PreferredTotal(r, r);
        best, bestIsCandidate, at := r, true, i;
      } else if QualityRank(r.positionQuality) < QualityRank(best.positionQuality) {
        best, at := r, i;
      } else if QualityRank(r.positionQuality) == QualityRank(best.positionQuality) {
        if r.lastSeenUTC > best.lastSeenUTC ||
           (r.lastSeenUTC == best.lastSeenUTC && TextBefore(r.provider, best.provider)) {
          best, at := r, i;
        }
      }
    }
    EarliestIs(best, reports, at, maxTime, top);
    WinsIff(best, SetOf(reports));
  }

  ghost function Typed(all: set<Report>): set<Report> {
    set r | r in all && r.aircraftType.Some?
  }

  ghost function Categorized(all: set<Report>): set<Report> {
    set r | r in all && r.emitterCategory.Some?
  }

  /** The designator: the winner's own, else that of the winner among the reports carrying one. */
  ghost predicate IsAircraftType(t: Option<string>, all: set<Report>, winner: Report) {
    if winner.aircraftType.Some? then t == winner.aircraftType
    else if Typed(all) == {} then t == None
    else exists v :: Wins(v, Typed(all)) && t == v.aircraftType
  }

  ghost predicate IsEmitterCategory(t: Option<string>, all: set<Report>, winner: Report) {
    if winner.emitterCategory.Some? then t == winner.emitterCategory
    else if Categorized(all) == {} then t == None
    else exists v :: Wins(v, Categorized(all)) && t == v.emitterCategory
  }

  method PickAircraftType(reports: seq<Report>, winner: Report) returns (t: Option<string>)
    ensures IsAircraftType(t, SetOf(reports), winner)
  {
    if winner.aircraftType.Some? {
      return winner.aircraftType;
    }
    var typed: seq<Report> := [];
    for i := 0 to |reports|
      invariant forall r :: r in typed <==> r in reports[..i] && r.aircraftType.Some?
    {
      assert reports[..i + 1] == reports[..i] + [reports[i]];
      if reports[i].aircraftType.Some? {
        typed := typed + [reports[i]];
      }
    }
    assert reports[..|reports|] == reports;
    assert SetOf(typed) == Typed(SetOf(reports));
    if typed == [] {
      return None;
    }
    assert typed[0] in SetOf(typed);
    var v := PickWinner(typed);
    return v.aircraftType;
  }

  method PickEmitterCategory(reports: seq<Report>, winner: Report) returns (t: Option<string>)
    ensures IsEmitterCategory(t, SetOf(reports), winner)
  {
    if winner.emitterCategory.Some? {
      return winner.emitterCategory;
    }
    var categorized: seq<Report> := [];
    for i := 0 to |reports|
      invariant forall r :: r in categorized <==> r in reports[..i] && r.emitterCategory.Some?
    {
      assert reports[..i + 1] == reports[..i] + [reports[i]];
      if reports[i].emitterCategory.Some? {
        categorized := categorized + [reports[i]];
      }
    }
    assert reports[..|reports|] == reports;
    assert SetOf(categorized) == Categorized(SetOf(reports));
    if categorized == [] {
      return None;
    }
    assert categorized[0] in SetOf(categorized);
    var v := PickWinner(categorized);
    return v.emitterCategory;
  }

  method AnyMilitary(reports: seq<Report>) returns (m: bool)
    ensures m <==> exists r :: r in reports && r.military
  {
    for i := 0 to |reports|
      invariant forall k :: 0 <= k < i ==> !reports[k].military
    {
      if reports[i].military {
        return true;
      }
    }
    return false;
  }

  /** sourceList: the sorted set of providers. */
  ghost predicate IsSourceList(sources: seq<string>, all: set<Report>) {
    TextAscending(sources) && forall p :: p in sources <==> exists r :: r in all && r.provider == p
  }

  method SourceList(reports: seq<Report>) returns (sources: seq<string>)
    ensures IsSourceList(sources, SetOf(reports))
  {
    var seen: seq<string> := [];
    for i := 0 to |reports|
      invariant forall a, b :: 0 <= a < b < |seen| ==> seen[a] != seen[b]
      invariant forall p :: p in seen <==> exists k :: 0 <= k < i && reports[k].provider == p
    {
      if reports[i].provider !in seen {
        seen := seen + [reports[i].provider];
      }
    }
    sources := SortStrings(seen);
    forall p ensures p in sources <==> exists r :: r in SetOf(reports) && r.provider == p {
      if p in sources {
        var k :| 0 <= k < |reports| && reports[k].provider == p;
        assert reports[k] in SetOf(reports);
      }
      if r :| r in SetOf(reports) && r.provider == p {
        var k :| 0 <= k < |reports| && reports[k] == r;
      }
    }
  }

  // ----- One aircraft -----

  /** What merging the valid reports `all` of aircraft `icao24` must produce. */
  ghost predicate IsMerge(classify: Classifier, icao24: string, all: set<Report>, s: FlightState) {
    && s.icao24 == icao24
    && (exists w :: Wins(w, all) && TakenFrom(s, w)
          && IsAircraftType(s.aircraftType, all, w) && IsEmitterCategory(s.emitterCategory, all, w))
    && (s.military <==> exists r :: r in all && r.military)
    && s.iconClass == classify(s.aircraftType, s.emitterCategory, s.military)
    && IsSourceList(s.sources, all)
    && !s.stale
  }

  predicate TakenFrom(s: FlightState, w: Report) {
    s.motion == w.motion && s.positionQuality == w.positionQuality && s.lastSeenUTC == w.lastSeenUTC
  }

  lemma MergeUnique(classify: Classifier, icao24: string, all: set<Report>, s: FlightState, t: FlightState)
    requires OnePerProvider(all) && IsMerge(classify, icao24, all, s) && IsMerge(classify, icao24, all, t)
    ensures s == t
  {
    var v :| Wins(v, all) && TakenFrom(s, v)
      && IsAircraftType(s.aircraftType, all, v) && IsEmitterCategory(s.emitterCategory, all, v);
    var w :| Wins(w, all) && TakenFrom(t, w)
      && IsAircraftType(t.aircraftType, all, w) && IsEmitterCategory(t.emitterCategory, all, w);
    WinnerUnique(v, w, all);
    AircraftTypeUnique(s.aircraftType, t.aircraftType, all, v);
    EmitterCategoryUnique(s.emitterCategory, t.emitterCategory, all, v);
    AscendingListUnique(s.sources, t.sources);
  }

  /** Such a report leaves everything positional of the merge as it is; it adds its provider, and
      its military flag. */
  lemma StaleReportKeepsPosition(classify: Classifier, icao24: string, all: set<Report>, late: Report, fresher: Report,
                                 s: FlightState, t: FlightState)
    requires OnePerProvider(all) && fresher in all && fresher.lastSeenUTC - late.lastSeenUTC > TIE_WINDOW
    ensures IsMerge(classify, icao24, all, s) && IsMerge(classify, icao24, all + {late}, t) ==>
      && t.motion == s.motion && t.positionQuality == s.positionQuality && t.lastSeenUTC == s.lastSeenUTC
      && (t.military <==> s.military || late.military)
      && forall p :: p in t.sources <==> p in s.sources || p == late.provider
  {
    if IsMerge(classify, icao24, all, s) && IsMerge(classify, icao24, all + {late}, t) {
      var v :| Wins(v, all) && TakenFrom(s, v)
        && IsAircraftType(s.aircraftType, all, v) && IsEmitterCategory(s.emitterCategory, all, v);
      var w :| Wins(w, all + {late}) && TakenFrom(t, w)
        && IsAircraftType(t.aircraftType, all + {late}, w) && IsEmitterCategory(t.emitterCategory, all + {late}, w);
      StaleReportIgnored(w, all, late, fresher);
      WinnerUnique(v, w, all);
      assert late in all + {late};
    }
  }

  lemma AircraftTypeUnique(x: Option<string>, y: Option<string>, all: set<Report>, w: Report)
    requires OnePerProvider(all) && IsAircraftType(x, all, w) && IsAircraftType(y, all, w)
    ensures x == y
  {
    if w.aircraftType.None? && Typed(all) != {} {
      var a :| Wins(a, Typed(all)) && x == a.aircraftType;
      var b :| Wins(b, Typed(all)) && y == b.aircraftType;
      WinnerUnique(a, b, Typed(all));
    }
  }

  lemma EmitterCategoryUnique(x: Option<string>, y: Option<string>, all: set<Report>, w: Report)
    requires OnePerProvider(all) && IsEmitterCategory(x, all, w) && IsEmitterCategory(y, all, w)
    ensures x == y
  {
    if w.emitterCategory.None? && Categorized(all) != {} {
      var a :| Wins(a, Categorized(all)) && x == a.emitterCategory;
      var b :| Wins(b, Categorized(all)) && y == b.emitterCategory;
      WinnerUnique(a, b, Categorized(all));
    }
  }

  /** The reports among `raws` that parse and carry the address `key`. */
  ghost function Carrying(parse: Parser, raws: set<RawState>, key: string): set<Report> {
    set raw | raw in raws && parse(raw).Some? && parse(raw).value.icao24 == key :: parse(raw).value
  }

  /** Those whose envelope carries it as well. */
  ghost function Valid(parse: Parser, raws: set<RawState>, key: string): set<Report> {
    set raw | raw in raws && Lower(raw.icao24) == key && parse(raw).Some? && parse(raw).value.icao24 == key
      :: parse(raw).value
  }

  method Merge(parse: Parser, classify: Classifier, icao24: string, raws: seq<RawState>) returns (s: Option<FlightState>)
    ensures s.None? <==> Carrying(parse, SetOf(raws), Lower(icao24)) == {}
    ensures s.Some? ==> IsMerge(classify, Lower(icao24), Carrying(parse, SetOf(raws), Lower(icao24)), s.value)
  {
    var expected := Lower(icao24);
    var reports: seq<Report> := [];
    for i := 0 to |raws|
      invariant forall r :: r in reports <==>
        exists k :: 0 <= k < i && parse(raws[k]) == Some(r) && r.icao24 == expected
    {
      var report := parse(raws[i]);
      if report.Some? && report.value.icao24 == expected {
        reports := reports + [report.value];
      }
    }
    assert SetOf(reports) == Carrying(parse, SetOf(raws), expected) by {
      forall r ensures r in SetOf(reports) <==> r in Carrying(parse, SetOf(raws), expected) {
        if r in reports {
          var k :| 0 <= k < |raws| && parse(raws[k]) == Some(r) && r.icao24 == expected;
          assert raws[k] in SetOf(raws);
        }
        if r in Carrying(parse, SetOf(raws), expected) {
          var raw :| raw in raws && parse(raw) == Some(r);
          var k :| 0 <= k < |raws| && raws[k] == raw;
        }
      }
    }
    if reports == [] {
      return None;
    }
    assert reports[0] in SetOf(reports);
    var winner := PickWinner(reports);
    var aircraftType := PickAircraftType(reports, winner);
    var emitterCategory := PickEmitterCategory(reports, winner);
    var military := AnyMilitary(reports);
    var sources := SourceList(reports);
    var state := FlightState(Lower(icao24), winner.motion, sources, winner.positionQuality, winner.lastSeenUTC, false,
                             aircraftType, emitterCategory, military, classify(aircraftType, emitterCategory, military));
    assert TakenFrom(state, winner);
    s := Some(state);
  }

  // ----- All aircraft -----

  function Icaos(states: seq<FlightState>): seq<string> {
    seq(|states|, i requires 0 <= i < |states| => states[i].icao24)
  }

  ghost predicate MergedFrom(parse: Parser, classify: Classifier, raws: set<RawState>, s: FlightState) {
    Valid(parse, raws, s.icao24) != {} && IsMerge(classify, s.icao24, Valid(parse, raws, s.icao24), s)
  }

  /** What MergeAll must produce from the set of raw reports. */
  ghost predicate IsMergeAll(parse: Parser, classify: Classifier, raws: set<RawState>, states: seq<FlightState>) {
    && TextAscending(Icaos(states))
    && (forall s :: s in states ==> MergedFrom(parse, classify, raws, s))
    && (forall raw :: raw in raws && Valid(parse, raws, Lower(raw.icao24)) != {} ==> Lower(raw.icao24) in Icaos(states))
  }

  /** strings.ToLower keys, each with the raw reports filed under it. */
  method GroupByIcao(raws: seq<RawState>) returns (grouped: map<string, seq<RawState>>)
    ensures forall key :: key in grouped <==> exists raw :: raw in raws && Lower(raw.icao24) == key
    ensures forall key :: key in grouped ==>
      forall raw :: raw in grouped[key] <==> raw in raws && Lower(raw.icao24) == key
  {
    grouped := map[];
    for i := 0 to |raws|
      invariant forall key :: key in grouped <==> exists k :: 0 <= k < i && Lower(raws[k].icao24) == key
      invariant forall key :: key in grouped ==>
        forall raw :: raw in grouped[key] <==> raw in raws[..i] && Lower(raw.icao24) == key
    {
      var key := Lower(raws[i].icao24);
      assert raws[..i + 1] == raws[..i] + [raws[i]];
      assert key !in grouped ==> forall raw :: raw in raws[..i] ==> Lower(raw.icao24) != key;
      grouped := grouped[key := (if key in grouped then grouped[key] else []) + [raws[i]]];
    }
    assert raws[..|raws|] == raws;
  }

  method SortedKeys(grouped: map<string, seq<RawState>>) returns (keys: seq<string>)
    ensures TextAscending(keys) && forall key :: key in keys <==> key in grouped
  {
    var list: seq<string> := [];
    var todo := grouped.Keys;
    while todo != {}
      invariant todo <= grouped.Keys
      invariant forall key :: key in list <==> key in grouped.Keys - todo
      invariant forall a, b :: 0 <= a < b < |list| ==> list[a] != list[b]
      decreases todo
    {
      var key :| key in todo;
      assert forall i :: 0 <= i < |list| ==> list[i] in list;
      todo := todo - {key};
      list := list + [key];
    }
    keys := SortStrings(list);
  }

  /** The valid reports of a group are those of the whole scan. */
  lemma ValidOfGroup(parse: Parser, raws: seq<RawState>, key: string, group: seq<RawState>)
    requires forall raw :: raw in group <==> raw in raws && Lower(raw.icao24) == key
    ensures Carrying(parse, SetOf(group), key) == Valid(parse, SetOf(raws), key)
  {
  }

  /** The first `n` keys are done: `good` states only, in order, one for each key that needs one. */
  ghost predicate UpTo(good: FlightState -> bool, needed: set<string>, keys: seq<string>, n: nat, states: seq<FlightState>)
    requires n <= |keys|
  {
    && TextAscending(Icaos(states))
    && (forall key :: key in Icaos(states) ==> key in keys[..n])
    && (forall s :: s in states ==> good(s))
    && (forall k :: 0 <= k < n && keys[k] in needed ==> keys[k] in Icaos(states))
  }

  lemma UpToStep(good: FlightState -> bool, needed: set<string>, keys: seq<string>, n: nat, states: seq<FlightState>,
                 s: Option<FlightState>)
    requires TextAscending(keys) && n < |keys| && UpTo(good, needed, keys, n, states)
    requires s.None? ==> keys[n] !in needed
    requires s.Some? ==> good(s.value) && s.value.icao24 == keys[n]
    ensures UpTo(good, needed, keys, n + 1, if s.Some? then states + [s.value] else states)
  {
    assert keys[..n + 1] == keys[..n] + [keys[n]];
    if s.Some? {
      AppendIcao(states, s.value, keys[..n]);
    }
  }

  /** The merge of a whole scan, one aircraft at a time in ascending order. */
  method MergeAll(parse: Parser, classify: Classifier, raws: seq<RawState>) returns (states: seq<FlightState>)
    ensures IsMergeAll(parse, classify, SetOf(raws), states)
  {
    ghost var good := (s: FlightState) => MergedFrom(parse, classify, SetOf(raws), s);
    ghost var needed := set raw | raw in raws && Valid(parse, SetOf(raws), Lower(raw.icao24)) != {} :: Lower(raw.icao24);
    var grouped := GroupByIcao(raws);
    var keys := SortedKeys(grouped);
    states := [];
    for i := 0 to |keys|
      invariant UpTo(good, needed, keys, i, states)
    {
      var key := keys[i];
      assert key in keys;
      ValidOfGroup(parse, raws, key, grouped[key]);
      assert key == Lower(key) by {
        var raw :| raw in raws && Lower(raw.icao24) == key;
      }
      var state := Merge(parse, classify, key, grouped[key]);
      UpToStep(good, needed, keys, i, states, state);
      if state.Some? {
        states := states + [state.value];
      }
    }
    UpToAll(parse, classify, SetOf(raws), good, needed, keys, states);
  }

  lemma UpToAll(parse: Parser, classify: Classifier, raws: set<RawState>, good: FlightState -> bool, needed: set<string>,
                keys: seq<string>, states: seq<FlightState>)
    requires forall s :: good(s) ==> MergedFrom(parse, classify, raws, s)
    requires forall raw :: raw in raws && Valid(parse, raws, Lower(raw.icao24)) != {} ==> Lower(raw.icao24) in needed
    requires forall raw :: raw in raws ==> Lower(raw.icao24) in keys
    requires UpTo(good, needed, keys, |keys|, states)
    ensures IsMergeAll(parse, classify, raws, states)
  {
    forall raw | raw in raws && Valid(parse, raws, Lower(raw.icao24)) != {} ensures Lower(raw.icao24) in Icaos(states) {
      var k :| 0 <= k < |keys| && keys[k] == Lower(raw.icao24);
    }
  }

  lemma AppendIcao(before: seq<FlightState>, s: FlightState, smaller: seq<string>)
    requires TextAscending(Icaos(before)) && forall key :: key in Icaos(before) ==> key in smaller
    requires forall key :: key in smaller ==> TextBefore(key, s.icao24)
    ensures TextAscending(Icaos(before + [s]))
    ensures Icaos(before + [s]) == Icaos(before) + [s.icao24]
  {
    assert Icaos(before + [s]) == Icaos(before) + [s.icao24];
    assert forall i :: 0 <= i < |before| ==> Icaos(before)[i] in Icaos(before);
  }

  /** MergeAll depends only on the set of raw reports: neither their order nor repetitions in
      the scan matter, given one report per provider and aircraft. */
  lemma MergeAllUnique(parse: Parser, classify: Classifier, raws: set<RawState>, a: seq<FlightState>, b: seq<FlightState>)
    requires forall key :: OnePerProvider(Valid(parse, raws, key))
    requires IsMergeAll(parse, classify, raws, a) && IsMergeAll(parse, classify, raws, b)
    ensures a == b
  {
    SameIcaos(parse, classify, raws, a, b);
    SameIcaos(parse, classify, raws, b, a);
    AscendingListUnique(Icaos(a), Icaos(b));
    assert |a| == |Icaos(a)| == |Icaos(b)| == |b|;
    forall i | 0 <= i < |a| ensures a[i] == b[i] {
      assert a[i].icao24 == Icaos(a)[i] == Icaos(b)[i] == b[i].icao24;
      assert a[i] in a && b[i] in b;
      MergeUnique(classify, a[i].icao24, Valid(parse, raws, a[i].icao24), a[i], b[i]);
    }
  }

  lemma SameIcaos(parse: Parser, classify: Classifier, raws: set<RawState>, a: seq<FlightState>, b: seq<FlightState>)
    requires IsMergeAll(parse, classify, raws, a) && IsMergeAll(parse, classify, raws, b)
    ensures forall key :: key in Icaos(a) ==> key in Icaos(b)
  {
    forall key | key in Icaos(a) ensures key in Icaos(b) {
      var i :| 0 <= i < |a| && Icaos(a)[i] == key;
      assert a[i] in a;
      var r :| r in Valid(parse, raws, key);
      var raw :| raw in raws && Lower(raw.icao24) == key && parse(raw) == Some(r);
    }
  }

  /** That hypothesis is needed: of two different reports by one provider with the same time and
      quality both win, and the loop keeps whichever it is given first. */
  lemma OneProviderTwiceIsAmbiguous(v: Report, w: Report, best: Report)
    requires v != w
    requires v.provider == w.provider && v.lastSeenUTC == w.lastSeenUTC && v.positionQuality == w.positionQuality
    ensures Wins(v, {v, w}) && Wins(w, {v, w})
    ensures EarliestWinner(best, [v, w]) <==> best == v
    ensures EarliestWinner(best, [w, v]) <==> best == w
  {
    FirstOfTied(v, w, best);
    FirstOfTied(w, v, best);
    TextBeforeTotal(v.provider, w.provider);
  }

  lemma FirstOfTied(v: Report, w: Report, best: Report)
    requires v != w
    requires v.provider == w.provider && v.lastSeenUTC == w.lastSeenUTC && v.positionQuality == w.positionQuality
    ensures EarliestWinner(best, [v, w]) <==> best == v
  {
    TextBeforeTotal(v.provider, w.provider);
    assert SetOf([v, w]) == {v, w};
    assert [v, w][0] == v && [v, w][1] == w;
    if best == v {
      assert EarliestAt(v, [v, w], 0);
    }
    assert EarliestAt(w, [v, w], 1) ==> Preferred(w, v);
  }
}
