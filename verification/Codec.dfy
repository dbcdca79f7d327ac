/** The flight:{icao24} hash codec (internal/redisutil/flightstate.go). Float and timestamp text
    formats are parameters. */
module Codec {
  import opened Prelude
  import opened FlightModel
  import opened Text

  /** The hash's field names. */
  datatype Field =
    | ICAO24 | CALLSIGN | REGISTRATION | LAT | LON | ALTITUDE_BARO | ALTITUDE_GEO | GROUND_SPEED | VERTICAL_RATE | HEADING
    | ON_GROUND | SQUAWK | SOURCES | POSITION_QUALITY | LAST_SEEN | AIRCRAFT_TYPE | EMITTER_CATEGORY | MILITARY | ICON_CLASS

  type Hash = map<Field, string>

  /** Text formats of the values that have one: the floats and the instants. */
  datatype Formats = Formats(
    isFloat: real -> bool, formatFloat: real -> string, parseFloat: string -> Option<real>,
    isInstant: int -> bool, formatTime: int -> string, parseTime: string -> Option<int>)
  {
    /** Floats and instants are read back as written, and a float is never empty text. */
    ghost predicate Exact() {
      && (forall x: real :: isFloat(x) ==> parseFloat(formatFloat(x)) == Some(x) && formatFloat(x) != "")
      && (forall t: int :: isInstant(t) ==> parseTime(formatTime(t)) == Some(t))
    }
  }

  const MICRO: real := 1_000_000.0

  predicate IsMicros(x: real) {
    (x * MICRO).Floor as real == x * MICRO && InInt64((x * MICRO).Floor)
  }

  /** Such formats exist: decimals of six places and nanosecond counts, written as integers. */
  function DecimalFormats(): Formats {
    Formats(
      IsMicros, (x: real) => Itoa((x * MICRO).Floor),
      (s: string) => if Atoi(s).None? then None else Some(Atoi(s).value as real / MICRO),
      InInt64, Itoa, Atoi)
  }

  lemma MicrosRead(x: real)
    requires IsMicros(x)
    ensures Atoi(Itoa((x * MICRO).Floor)) == Some((x * MICRO).Floor) && Itoa((x * MICRO).Floor) != ""
    ensures (x * MICRO).Floor as real / MICRO == x
  {
    AtoiItoa((x * MICRO).Floor);
  }

  lemma DecimalFormatsExact()
    ensures DecimalFormats().Exact()
  {
    forall x: real | IsMicros(x)
      ensures DecimalFormats().parseFloat(DecimalFormats().formatFloat(x)) == Some(x) && DecimalFormats().formatFloat(x) != ""
    {
      MicrosRead(x);
    }
    forall t: int | InInt64(t) ensures Atoi(Itoa(t)) == Some(t) {
      AtoiItoa(t);
    }
  }

  // ----- Optional fields -----

  function StringOrEmpty(s: Option<string>): string {
    if s.None? then "" else s.value
  }

  function StringOrNil(s: string): Option<string> {
    if s == "" then None else Some(s)
  }

  function IntOrEmpty(v: Option<int>): string {
    if v.None? then "" else Itoa(v.value)
  }

  function IntOrNil(s: string, field: Field): Result<Option<int>, Field> {
    if s == "" then Ok(None)
    else if Atoi(s).None? then Err(field)
    else Ok(Some(Atoi(s).value))
  }

  function FloatOrEmpty(f: Formats, v: Option<real>): string {
    if v.None? then "" else f.formatFloat(v.value)
  }

  function FloatOrNil(f: Formats, s: string, field: Field): Result<Option<real>, Field> {
    if s == "" then Ok(None)
    else if f.parseFloat(s).None? then Err(field)
    else Ok(Some(f.parseFloat(s).value))
  }

  /** A missing field reads as empty text. */
  function Get(h: Hash, field: Field): string {
    if field in h then h[field] else ""
  }

  // ----- Encode and decode -----

  function FieldText(f: Formats, s: FlightState, field: Field): string {
    match field
    case ICAO24 => Lower(s.icao24)
    case CALLSIGN => StringOrEmpty(s.motion.callsign)
    case REGISTRATION => StringOrEmpty(s.motion.registration)
    case LAT => f.formatFloat(s.motion.lat)
    case LON => f.formatFloat(s.motion.lon)
    case ALTITUDE_BARO => IntOrEmpty(s.motion.altitudeBaroFt)
    case ALTITUDE_GEO => IntOrEmpty(s.motion.altitudeGeoFt)
    case GROUND_SPEED => FloatOrEmpty(f, s.motion.groundSpeedKt)
    case VERTICAL_RATE => FloatOrEmpty(f, s.motion.verticalRateFpm)
    case HEADING => FloatOrEmpty(f, s.motion.headingDeg)
    case ON_GROUND => FormatBool(s.motion.onGround)
    case SQUAWK => StringOrEmpty(s.motion.squawk)
    case SOURCES => Join(s.sources, ',')
    case POSITION_QUALITY => s.positionQuality
    case LAST_SEEN => f.formatTime(s.lastSeenUTC)
    case AIRCRAFT_TYPE => StringOrEmpty(s.aircraftType)
    case EMITTER_CATEGORY => StringOrEmpty(s.emitterCategory)
    case MILITARY => FormatBool(s.military)
    case ICON_CLASS => StringOrEmpty(s.iconClass)
  }

  /** Every field is written, whatever its value. */
  function EncodeFlightState(f: Formats, s: FlightState): Hash {
    map field: Field | true :: FieldText(f, s, field)
  }

  function SplitSources(text: string): seq<string> {
    if text == "" then [] else Split(text, ',')
  }

  /** Absent on hashes older than the field. */
  function DecodeMilitary(text: string): Result<bool, Field> {
    if text == "" then Ok(false)
    else if ParseBool(text).None? then Err(MILITARY)
    else Ok(ParseBool(text).value)
  }

  /** The fields that need parsing, or the first that does not parse. */
  datatype Numbers = Numbers(
    lat: real, lon: real, onGround: bool, lastSeen: int, altitudeBaroFt: Option<int>, altitudeGeoFt: Option<int>,
    groundSpeedKt: Option<real>, verticalRateFpm: Option<real>, headingDeg: Option<real>)

  function DecodeNumbers(f: Formats, h: Hash): Result<Numbers, Field> {
    var lat, lon := f.parseFloat(Get(h, LAT)), f.parseFloat(Get(h, LON));
    var onGround, lastSeen := ParseBool(Get(h, ON_GROUND)), f.parseTime(Get(h, LAST_SEEN));
    var baro, geo := IntOrNil(Get(h, ALTITUDE_BARO), ALTITUDE_BARO), IntOrNil(Get(h, ALTITUDE_GEO), ALTITUDE_GEO);
    var speed := FloatOrNil(f, Get(h, GROUND_SPEED), GROUND_SPEED);
    var rate := FloatOrNil(f, Get(h, VERTICAL_RATE), VERTICAL_RATE);
    var heading := FloatOrNil(f, Get(h, HEADING), HEADING);
    if lat.None? then Err(LAT)
    else if lon.None? then Err(LON)
    else if onGround.None? then Err(ON_GROUND)
    else if lastSeen.None? then Err(LAST_SEEN)
    else if baro.Err? then Err(baro.error)
    else if geo.Err? then Err(geo.error)
    else if speed.Err? then Err(speed.error)
    else if rate.Err? then Err(rate.error)
    else if heading.Err? then Err(heading.error)
    else
      Ok(Numbers(lat.value, lon.value, onGround.value, lastSeen.value, baro.value, geo.value, speed.value, rate.value,
                 heading.value))
  }

  /** The state those numbers, the flag and the text fields make up. */
  function Assemble(h: Hash, n: Numbers, military: bool): FlightState {
    FlightState(
      Get(h, ICAO24),
      Motion(StringOrNil(Get(h, CALLSIGN)), StringOrNil(Get(h, REGISTRATION)), n.lat, n.lon, n.altitudeBaroFt, n.altitudeGeoFt,
             n.groundSpeedKt, n.verticalRateFpm, n.headingDeg, n.onGround, StringOrNil(Get(h, SQUAWK))),
      SplitSources(Get(h, SOURCES)), Get(h, POSITION_QUALITY), n.lastSeen, false,
      StringOrNil(Get(h, AIRCRAFT_TYPE)), StringOrNil(Get(h, EMITTER_CATEGORY)), military, StringOrNil(Get(h, ICON_CLASS)))
  }

  function DecodeFlightState(f: Formats, h: Hash): Result<FlightState, Field> {
    var numbers := DecodeNumbers(f, h);
    var military := DecodeMilitary(Get(h, MILITARY));
    if numbers.Err? then Err(numbers.error)
    else if military.Err? then Err(military.error)
    else Ok(Assemble(h, numbers.value, military.value))
  }

  // ----- What a round trip keeps -----

  predicate IntHeld(v: Option<int>) {
    v.None? || InInt64(v.value)
  }

  predicate FloatHeld(f: Formats, v: Option<real>) {
    v.None? || f.isFloat(v.value)
  }

  /** The fields hold machine values: 64-bit integers, floats, instants. Go's always do. */
  predicate MotionHeld(f: Formats, m: Motion) {
    && IntHeld(m.altitudeBaroFt) && IntHeld(m.altitudeGeoFt) && f.isFloat(m.lat) && f.isFloat(m.lon)
    && FloatHeld(f, m.groundSpeedKt) && FloatHeld(f, m.verticalRateFpm) && FloatHeld(f, m.headingDeg)
  }

  predicate Held(f: Formats, s: FlightState) {
    MotionHeld(f, s.motion) && f.isInstant(s.lastSeenUTC)
  }

  function Blank(s: Option<string>): Option<string> {
    if s == Some("") then None else s
  }

  function StoredMotion(m: Motion): Motion {
    m.(callsign := Blank(m.callsign), registration := Blank(m.registration), squawk := Blank(m.squawk))
  }

  /** What storing `s` makes of it. */
  function Stored(s: FlightState): FlightState {
    s.(icao24 := Lower(s.icao24), motion := StoredMotion(s.motion), sources := SplitSources(Join(s.sources, ',')),
       stale := false, aircraftType := Blank(s.aircraftType), emitterCategory := Blank(s.emitterCategory),
       iconClass := Blank(s.iconClass))
  }

  lemma IntRoundTrip(v: Option<int>, field: Field)
    requires IntHeld(v)
    ensures IntOrNil(IntOrEmpty(v), field) == Ok(v)
  {
    if v.Some? {
      AtoiItoa(v.value);
    }
  }

  lemma FloatRoundTrip(f: Formats, v: Option<real>, field: Field)
    requires f.Exact() && FloatHeld(f, v)
    ensures FloatOrNil(f, FloatOrEmpty(f, v), field) == Ok(v)
  {
    if v.Some? {
      var x: real := v.value;
      assert f.parseFloat(f.formatFloat(x)) == Some(x) && f.formatFloat(x) != "";
    }
  }

  /** `h` holds the state's fields, the military flag aside. */
  ghost predicate Holds(f: Formats, s: FlightState, h: Hash) {
    forall field: Field :: field != MILITARY ==> Get(h, field) == FieldText(f, s, field)
  }

  function NumbersOf(s: FlightState): Numbers {
    Numbers(s.motion.lat, s.motion.lon, s.motion.onGround, s.lastSeenUTC, s.motion.altitudeBaroFt, s.motion.altitudeGeoFt,
            s.motion.groundSpeedKt, s.motion.verticalRateFpm, s.motion.headingDeg)
  }

  lemma OptionalNumbersRead(f: Formats, s: FlightState, h: Hash)
    requires f.Exact() && Held(f, s) && Holds(f, s, h)
    ensures IntOrNil(Get(h, ALTITUDE_BARO), ALTITUDE_BARO) == Ok(s.motion.altitudeBaroFt)
    ensures IntOrNil(Get(h, ALTITUDE_GEO), ALTITUDE_GEO) == Ok(s.motion.altitudeGeoFt)
    ensures FloatOrNil(f, Get(h, GROUND_SPEED), GROUND_SPEED) == Ok(s.motion.groundSpeedKt)
    ensures FloatOrNil(f, Get(h, VERTICAL_RATE), VERTICAL_RATE) == Ok(s.motion.verticalRateFpm)
    ensures FloatOrNil(f, Get(h, HEADING), HEADING) == Ok(s.motion.headingDeg)
  {
    IntRoundTrip(s.motion.altitudeBaroFt, ALTITUDE_BARO);
    IntRoundTrip(s.motion.altitudeGeoFt, ALTITUDE_GEO);
    FloatRoundTrip(f, s.motion.groundSpeedKt, GROUND_SPEED);
    FloatRoundTrip(f, s.motion.verticalRateFpm, VERTICAL_RATE);
    FloatRoundTrip(f, s.motion.headingDeg, HEADING);
  }

  lemma RequiredNumbersRead(f: Formats, s: FlightState, h: Hash)
    requires f.Exact() && Held(f, s) && Holds(f, s, h)
    ensures f.parseFloat(Get(h, LAT)) == Some(s.motion.lat) && f.parseFloat(Get(h, LON)) == Some(s.motion.lon)
    ensures ParseBool(Get(h, ON_GROUND)) == Some(s.motion.onGround)
    ensures f.parseTime(Get(h, LAST_SEEN)) == Some(s.lastSeenUTC)
  {
  }

  lemma NumbersRoundTrip(f: Formats, s: FlightState, h: Hash)
    requires f.Exact() && Held(f, s) && Holds(f, s, h)
    ensures DecodeNumbers(f, h) == Ok(NumbersOf(s))
  {
    RequiredNumbersRead(f, s, h);
    OptionalNumbersRead(f, s, h);
  }

  lemma AssembleStored(f: Formats, s: FlightState, h: Hash, military: bool)
    requires Holds(f, s, h)
    ensures Assemble(h, NumbersOf(s), military) == Stored(s).(military := military)
  {
  }

  lemma DecodeHolding(f: Formats, s: FlightState, h: Hash, military: bool)
    requires f.Exact() && Held(f, s) && Holds(f, s, h) && DecodeMilitary(Get(h, MILITARY)) == Ok(military)
    ensures DecodeFlightState(f, h) == Ok(Stored(s).(military := military))
  {
    NumbersRoundTrip(f, s, h);
    AssembleStored(f, s, h, military);
  }

  /** Every stored state decodes, to what storing made of it. */
  lemma DecodeEncode(f: Formats, s: FlightState)
    requires f.Exact() && Held(f, s)
    ensures DecodeFlightState(f, EncodeFlightState(f, s)) == Ok(Stored(s))
  {
    DecodeHolding(f, s, EncodeFlightState(f, s), s.military);
  }

  predicate Present(s: Option<string>) {
    s != Some("")
  }

  /** A list of names the comma-separated field can carry. */
  predicate Listable(sources: seq<string>) {
    sources != [""] && forall p :: p in sources ==> ',' !in p
  }

  lemma SourcesKeptIff(sources: seq<string>)
    ensures SplitSources(Join(sources, ',')) == sources <==> Listable(sources)
  {
    SplitJoin(sources, ',');
  }

  predicate MotionKept(m: Motion) {
    Present(m.callsign) && Present(m.registration) && Present(m.squawk)
  }

  /** The codec is exact on a state if and only if its address is lower-case, it is not marked
      stale, no optional text is present but empty, and its sources are listable. */
  lemma RoundTripIff(f: Formats, s: FlightState)
    requires f.Exact() && Held(f, s)
    ensures DecodeFlightState(f, EncodeFlightState(f, s)) == Ok(s)
       <==> Lower(s.icao24) == s.icao24 && !s.stale && MotionKept(s.motion) && Present(s.aircraftType)
            && Present(s.emitterCategory) && Present(s.iconClass) && Listable(s.sources)
  {
    DecodeEncode(f, s);
    SourcesKeptIff(s.sources);
    assert StoredMotion(s.motion) == s.motion <==> MotionKept(s.motion);
  }

  /** Storing what was read changes nothing more. */
  lemma StoredOnce(s: FlightState)
    ensures Stored(Stored(s)) == Stored(s)
  {
    SourcesStoredOnce(s.sources);
  }

  lemma SourcesStoredOnce(sources: seq<string>)
    ensures SplitSources(Join(SplitSources(Join(sources, ',')), ',')) == SplitSources(Join(sources, ','))
  {
    SplitPieces(Join(sources, ','), ',');
  }

  /** A hash written before the military flag existed still decodes, as not military. */
  lemma OldHashDecodes(f: Formats, s: FlightState)
    requires f.Exact() && Held(f, s)
    ensures DecodeFlightState(f, EncodeFlightState(f, s) - {MILITARY}) == Ok(Stored(s).(military := false))
  {
    DecodeHolding(f, s, EncodeFlightState(f, s) - {MILITARY}, false);
  }
}
