/** What the codec does to the states the normalizer merges and stores
    (cmd/normalizer/merge.go over internal/redisutil/flightstate.go). */
module MergedStates {
  import opened Prelude
  import opened FlightModel
  import opened Merge
  import opened Codec

  /** What provider parsing guarantees of a report: trimmed texts are never empty, provider
      names carry no comma. Squawks are passed through untrimmed. */
  ghost predicate Tidy(f: Formats, r: Report) {
    && Present(r.motion.callsign) && Present(r.motion.registration)
    && Present(r.aircraftType) && Present(r.emitterCategory)
    && MotionHeld(f, r.motion) && f.isInstant(r.lastSeenUTC)
    && r.provider != "" && ',' !in r.provider
  }

  lemma MergedSourcesListable(f: Formats, sources: seq<string>, all: set<Report>)
    requires IsSourceList(sources, all) && forall r :: r in all ==> Tidy(f, r)
    ensures Listable(sources)
  {
    forall p | p in sources ensures p != "" && ',' !in p {
      var r :| r in all && r.provider == p;
    }
    assert sources == [""] ==> "" in sources;
  }

  /** A merged state is read back from Redis as written if and only if its squawk is not present
      but empty. */
  lemma MergedRoundTripIff(f: Formats, classify: Classifier, icao24: string, all: set<Report>, s: FlightState)
    requires f.Exact() && icao24 == Lower(icao24)
    requires IsMerge(classify, icao24, all, s) && forall r :: r in all ==> Tidy(f, r)
    requires Present(s.iconClass)
    ensures DecodeFlightState(f, EncodeFlightState(f, s)) == Ok(s) <==> Present(s.motion.squawk)
  {
    MergedSourcesListable(f, s.sources, all);
    RoundTripIff(f, s);
  }

  /** An empty squawk is read back as an absent one, and nothing else changes. */
  lemma EmptySquawkLost(f: Formats, classify: Classifier, icao24: string, all: set<Report>, s: FlightState)
    requires f.Exact() && icao24 == Lower(icao24)
    requires IsMerge(classify, icao24, all, s) && forall r :: r in all ==> Tidy(f, r)
    requires Present(s.iconClass) && s.motion.squawk == Some("")
    ensures DecodeFlightState(f, EncodeFlightState(f, s)) == Ok(s.(motion := s.motion.(squawk := None)))
  {
    MergedSourcesListable(f, s.sources, all);
    DecodeEncode(f, s);
    SourcesKeptIff(s.sources);
  }
}
