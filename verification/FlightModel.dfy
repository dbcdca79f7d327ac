/** The canonical flight state (internal/flightmodel/flightstate.go). Instants are
    nanoseconds; coordinates, speeds and rates are reals. */
module FlightModel {
  import opened Prelude

  const ADSB := "adsb"
  const MLAT := "mlat"

  /** The positional and identification fields that always come from one report together. */
  datatype Motion = Motion(
    callsign: Option<string>, registration: Option<string>, lat: real, lon: real,
    altitudeBaroFt: Option<int>, altitudeGeoFt: Option<int>, groundSpeedKt: Option<real>,
    verticalRateFpm: Option<real>, headingDeg: Option<real>, onGround: bool, squawk: Option<string>)

  datatype FlightState = FlightState(
    icao24: string, motion: Motion, sources: seq<string>, positionQuality: string, lastSeenUTC: int, stale: bool,
    aircraftType: Option<string>, emitterCategory: Option<string>, military: bool, iconClass: Option<string>)

  function LowerChar(c: char): char {
    if 'A' <= c <= 'Z' then (c as int + 32) as char else c
  }

  /** strings.ToLower on ASCII. */
  function Lower(s: string): string {
    seq(|s|, i requires 0 <= i < |s| => LowerChar(s[i]))
  }
  predicate IsUpper(c: char) {
    'A' <= c <= 'Z'
  }

  /** The same letter in either case, or the same character. */
  predicate SameLetter(c: char, d: char) {
    || c == d
    || (IsUpper(c) && d as int - 'a' as int == c as int - 'A' as int)
    || (IsUpper(d) && c as int - 'a' as int == d as int - 'A' as int)
  }

  lemma LowerCharExact(c: char, d: char)
    ensures SameLetter(LowerChar(c), c) && !IsUpper(LowerChar(c))
    ensures LowerChar(c) == LowerChar(d) <==> SameLetter(c, d)
  {
  }

  ghost predicate SameSpelling(s: string, t: string) {
    |s| == |t| && forall i :: 0 <= i < |s| ==> SameLetter(s[i], t[i])
  }

  /** No upper-case letter is left and nothing else is changed; so two texts come out the same exactly
      when they spell the same letters: every spelling of an address has the same key. */
  lemma LowerExact(s: string, t: string)
    ensures SameSpelling(Lower(s), s) && forall i :: 0 <= i < |Lower(s)| ==> !IsUpper(Lower(s)[i])
    ensures Lower(s) == Lower(t) <==> SameSpelling(s, t)
  {
    forall i | 0 <= i < |s| ensures SameLetter(Lower(s)[i], s[i]) && !IsUpper(Lower(s)[i]) {
      LowerCharExact(s[i], s[i]);
    }
    if |s| == |t| {
      forall i | 0 <= i < |s| ensures Lower(s)[i] == Lower(t)[i] <==> SameLetter(s[i], t[i]) {
        LowerCharExact(s[i], t[i]);
      }
    }
    assert |Lower(s)| == |s| && |Lower(t)| == |t|;
  }
}
