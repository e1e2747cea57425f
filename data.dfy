/**
 * Address to census geography to cleaned ACS profile (data.py).
 *
 * The HTTP services (Geoapify geocoder, Census geocoder, FCC block finder,
 * ACS 5-year API) are inputs: a reply datatype per service, or a function
 * from the query to the reply where the query is computed by the code.
 * `float()` of an ACS cell and `state_data.get_state_benchmarks` are
 * function parameters.
 */
module Data {
  import opened Common
  import opened PyStr
  import opened JsonValue

  // ---------------------------------------------------------------------
  // Configuration flags

  /** `config.get(flag, True)` taken as a condition. */
  predicate Enabled(config: map<string, Json>, flag: string) {
    Truthy(Get(config, flag, JBool(true)))
  }

  /** `not api_key` is false: a key was given and is not empty. */
  predicate HasKey(apiKey: Option<string>) {
    apiKey.Some? && apiKey.value != []
  }

  // ---------------------------------------------------------------------
  // get_coordinates

  datatype LatLon = LatLon(lat: real, lon: real)

  /** The fixed coordinate returned whenever geocoding is not possible (Central Park, New York). */
  const Sentinel := LatLon(40.785091, -73.968285)

  /** A geocoder feature; `coordinates` is None when `geometry.coordinates` is missing. */
  datatype Feature = Feature(coordinates: Option<seq<real>>)

  /**
   * The Geoapify search reply: no reply at all (connection error, body not JSON),
   * or a status and the `features` member (None when it is missing or null).
   */
  datatype GeocodeReply =
    | GeocodeNoResponse
    | GeocodeResponse(status: int, features: Option<seq<Feature>>)

  /** A GeoJSON position, longitude first (section 3.1.1 of RFC 7946). */
  function Position(p: LatLon): seq<real> {
    [p.lon, p.lat]
  }

  /** `get_coordinates`: latitude and longitude of the first feature, or the sentinel. */
  function GetCoordinates(config: map<string, Json>, apiKey: Option<string>, reply: GeocodeReply): LatLon {
    if !Enabled(config, "enable_geoapify") then Sentinel
    else if !HasKey(apiKey) then Sentinel
    else if reply.GeocodeResponse? && reply.status == 200 && reply.features.Some?
         && reply.features.value != [] && reply.features.value[0].coordinates.Some?
         && |reply.features.value[0].coordinates.value| >= 2
    then
      var c := reply.features.value[0].coordinates.value;
      LatLon(c[1], c[0])
    else Sentinel
  }

  /** Disabled, keyless or unsuccessful lookups all give the sentinel. */
  lemma CoordinatesFallBack(config: map<string, Json>, apiKey: Option<string>, reply: GeocodeReply)
    requires || !Enabled(config, "enable_geoapify")
             || !HasKey(apiKey)
             || reply.GeocodeNoResponse?
             || reply.status != 200
             || reply.features.None?
             || reply.features.value == []
    ensures GetCoordinates(config, apiKey, reply) == Sentinel
  {
  }

  /** The first feature's GeoJSON position is read back latitude first. */
  lemma CoordinatesFromPosition(config: map<string, Json>, apiKey: Option<string>, p: LatLon, rest: seq<Feature>)
    requires Enabled(config, "enable_geoapify") && HasKey(apiKey)
    ensures GetCoordinates(config, apiKey, GeocodeResponse(200, Some([Feature(Some(Position(p)))] + rest))) == p
  {
  }

  /** A result other than the sentinel comes from the first feature of a successful reply. */
  lemma CoordinatesOrigin(config: map<string, Json>, apiKey: Option<string>, reply: GeocodeReply)
    requires GetCoordinates(config, apiKey, reply) != Sentinel
    ensures Enabled(config, "enable_geoapify") && HasKey(apiKey)
    ensures reply.GeocodeResponse? && reply.status == 200 && reply.features.Some? && reply.features.value != []
    ensures var c := reply.features.value[0].coordinates;
            c.Some? && |c.value| >= 2 && GetCoordinates(config, apiKey, reply) == LatLon(c.value[1], c.value[0])
  {
  }

  // ---------------------------------------------------------------------
  // get_census_geoid

  /** The string fields of the first `Census Block Groups` geography of a match. */
  datatype BlockGroupFields = BlockGroupFields(state: string, county: string, tract: string, blkgrp: string)

  /** One address match; `blockGroup` is None when its `geographies` entry is missing or empty. */
  datatype AddressMatch = AddressMatch(blockGroup: Option<BlockGroupFields>)

  datatype CensusGeocoderReply =
    | CensusNoResponse
    | CensusResponse(status: int, matches: seq<AddressMatch>)

  /** The FCC block finder reply; `fips` is None when `Block.FIPS` is missing or not a string. */
  datatype FccReply =
    | FccNoResponse
    | FccResponse(status: int, fips: Option<string>)

  /** A block-group geography as the code returns it. */
  datatype GeoId = GeoId(fullGeoid: string, state: string, county: string, tract: string, blockGroup: string)

  /** The GEOID is the state, county, tract and block-group codes one after another. */
  predicate Consistent(g: GeoId) {
    g.fullGeoid == g.state + g.county + g.tract + g.blockGroup
  }

  /** Reading a 12-character block-group GEOID back into its parts (widths 2, 3, 6, 1). */
  function ParseGeoid(full: string): Option<GeoId> {
    if |full| == 12 then Some(GeoId(full, full[..2], full[2..5], full[5..11], full[11..])) else None
  }

  /** The Census-geocoder branch: state, county and tract zero-filled to 2, 3 and 6 characters. */
  function FromCensusFields(f: BlockGroupFields): (g: GeoId)
    ensures Consistent(g)
    ensures |g.state| >= 2 && |g.county| >= 3 && |g.tract| >= 6 && g.blockGroup == f.blkgrp
  {
    var state := ZFill(f.state, 2);
    var county := ZFill(f.county, 3);
    var tract := ZFill(f.tract, 6);
    GeoId(state + county + tract + f.blkgrp, state, county, tract, f.blkgrp)
  }

  /** The FCC branch: slices of the 15-digit block FIPS code. */
  function FromBlockFips(fips: string): (g: GeoId)
    requires |fips| >= 12
    ensures Consistent(g)
    ensures |g.fullGeoid| == 12 && g.fullGeoid == fips[..12] && g.blockGroup == [fips[11]]
    ensures |g.state| == 2 && |g.county| == 3 && |g.tract| == 6
  {
    var g := GeoId(fips[..12], fips[..2], fips[2..5], fips[5..11], [fips[11]]);
    assert fips[..12] == fips[..2] + fips[2..5] + fips[5..11] + [fips[11]];
    g
  }

  /** `zfill` pads unsigned codes on the left with '0' and never truncates. */
  lemma ZFillPads(s: string, width: nat)
    requires s == [] || (s[0] != '+' && s[0] != '-')
    ensures var r := ZFill(s, width);
            && |r| == (if |s| >= width then |s| else width)
            && r[|r| - |s|..] == s
            && forall i :: 0 <= i < |r| - |s| ==> r[i] == '0'
  {
  }

  /** An FCC-derived GEOID reads back into exactly its parts. */
  lemma FccGeoidRoundTrip(fips: string)
    requires |fips| >= 12
    ensures ParseGeoid(FromBlockFips(fips).fullGeoid) == Some(FromBlockFips(fips))
  {
    var full := fips[..12];
    assert full[..2] == fips[..2] && full[2..5] == fips[2..5] && full[5..11] == fips[5..11];
    assert full[11..] == [fips[11]];
  }

  /** A Census-geocoder GEOID whose codes need at most the canonical widths reads back into its parts. */
  lemma CensusGeoidRoundTrip(f: BlockGroupFields)
    requires |f.state| <= 2 && |f.county| <= 3 && |f.tract| <= 6 && |f.blkgrp| == 1
    ensures ParseGeoid(FromCensusFields(f).fullGeoid) == Some(FromCensusFields(f))
  {
    var g := FromCensusFields(f);
    var full := g.fullGeoid;
    assert |g.state| == 2 && |g.county| == 3 && |g.tract| == 6;
    assert full[..2] == g.state;
    assert full[2..5] == g.county;
    assert full[5..11] == g.tract;
    assert full[11..] == g.blockGroup;
  }

  /** The Census geocoder produced a usable block group. */
  predicate CensusMatched(census: CensusGeocoderReply) {
    census.CensusResponse? && census.status == 200 && census.matches != [] && census.matches[0].blockGroup.Some?
  }

  /** The FCC lookup at the given reply. */
  function FromFcc(reply: FccReply): Option<GeoId> {
    if reply.FccResponse? && reply.status == 200 && reply.fips.Some? && |reply.fips.value| >= 12
    then Some(FromBlockFips(reply.fips.value))
    else None  // a short FIPS makes `fips[11]` raise, which the code swallows
  }

  /**
   * `get_census_geoid`: the Census geocoder first; otherwise coordinates from
   * `get_coordinates(address, None)` and the FCC block finder at them.
   */
  function GetCensusGeoid(config: map<string, Json>, census: CensusGeocoderReply,
                          geocode: GeocodeReply, fcc: LatLon -> FccReply): (r: Option<GeoId>)
    ensures r.Some? ==> Consistent(r.value)
    ensures r.Some? ==> |r.value.state| >= 2 && |r.value.county| >= 3 && |r.value.tract| >= 6
  {
    if CensusMatched(census) then Some(FromCensusFields(census.matches[0].blockGroup.value))
    else
      var p := GetCoordinates(config, None, geocode);
      FromFcc(fcc(p))
  }

  /** A usable Census-geocoder match is taken as it is, and the fallback is not consulted. */
  lemma CensusFirst(config: map<string, Json>, census: CensusGeocoderReply, geocode: GeocodeReply, fcc: LatLon -> FccReply)
    requires CensusMatched(census)
    ensures GetCensusGeoid(config, census, geocode, fcc) == Some(FromCensusFields(census.matches[0].blockGroup.value))
  {
  }

  /**
   * The fallback passes no geocoding key, so the FCC service is always asked
   * about the sentinel coordinate, whatever the address and the geocoder reply.
   */
  lemma FallbackQueriesSentinel(config: map<string, Json>, census: CensusGeocoderReply,
                                geocode: GeocodeReply, fcc: LatLon -> FccReply)
    requires !CensusMatched(census)
    ensures GetCensusGeoid(config, census, geocode, fcc) == FromFcc(fcc(Sentinel))
  {
  }

  // ---------------------------------------------------------------------
  // get_acs_data

  /** A cell of the ACS table: JSON null or a string. */
  datatype Cell = CNull | CStr(s: string)

  /** The ACS reply: none, or a status and the rows (row 0 the header). */
  datatype AcsReply =
    | AcsNoResponse
    | AcsResponse(status: int, rows: seq<seq<Cell>>)

  /** A stored value: an `int` when the parsed float is integral, a `float` otherwise. */
  datatype Number = Int(i: int) | Float(r: real)

  function Value(n: Number): real {
    match n
    case Int(i) => i as real
    case Float(r) => r
  }

  /** The variable codes requested, in the order of the `variables` dictionary (one duplicate key collapsed). */
  const AcsCodes: seq<string> := [
    "B19013_001E", "B25077_001E", "B25064_001E",
    "B15003_001E", "B15003_017E", "B15003_022E", "B15003_023E", "B15003_024E", "B15003_025E",
    "B01002_001E", "B01001_001E",
    "B02001_002E", "B02001_003E", "B02001_005E", "B03003_003E"
  ]

  /** `list.index`: the first position of `x`. */
  function IndexOf<T(==)>(s: seq<T>, x: T): (i: nat)
    requires x in s
    ensures i < |s| && s[i] == x && x !in s[..i]
  {
    if s[0] == x then 0 else 1 + IndexOf(s[1..], x)
  }

  /** Store a positive float: as an int when it is integral. */
  function ToNumber(x: real): Number {
    if x.Floor as real == x then Int(x.Floor) else Float(x)
  }

  /** The header names `code` but the data row is too short: `data_row[idx]` raises. */
  predicate RowTooShort(header: seq<Cell>, row: seq<Cell>, code: string) {
    CStr(code) in header && IndexOf(header, CStr(code)) >= |row|
  }

  /** The cleaned value of `code`: present in the header, a non-empty cell that parses to a positive number. */
  function Cleaned(header: seq<Cell>, row: seq<Cell>, code: string, parseFloat: string -> Option<real>): Option<Number> {
    if CStr(code) !in header then None
    else
      var idx := IndexOf(header, CStr(code));
      if idx >= |row| || row[idx].CNull? || row[idx].s == [] then None
      else
        var parsed := parseFloat(row[idx].s);
        if parsed.Some? && parsed.value > 0.0 then Some(ToNumber(parsed.value)) else None
  }

  /** A reply the code reads a table from. */
  predicate TableReply(reply: AcsReply) {
    reply.AcsResponse? && reply.status == 200 && |reply.rows| > 1
  }

  /** Some data row is too short for a code the header names: the lookup raises. */
  predicate AnyRowTooShort(reply: AcsReply)
    requires TableReply(reply)
  {
    exists c :: c in AcsCodes && RowTooShort(reply.rows[0], reply.rows[1], c)
  }

  /** What `get_acs_data` returns: None on a missing GEOID, an unusable reply or a raised lookup, otherwise every requested code with a cleaned value. */
  function AcsResult(geoid: Option<GeoId>, reply: AcsReply, parseFloat: string -> Option<real>): Option<map<string, Number>> {
    if geoid.None? || !TableReply(reply) || AnyRowTooShort(reply) then None
    else
      var header, row := reply.rows[0], reply.rows[1];
      Some(map c | c in AcsCodes && Cleaned(header, row, c, parseFloat).Some? :: Cleaned(header, row, c, parseFloat).value)
  }

  /** `get_acs_data`: the requested codes with positive values, or None. */
  method GetAcsData(geoid: Option<GeoId>, reply: AcsReply, parseFloat: string -> Option<real>)
    returns (r: Option<map<string, Number>>)
    ensures r == AcsResult(geoid, reply, parseFloat)
  {
    if geoid.None? || !TableReply(reply) {
      return None;
    }
    var header, row := reply.rows[0], reply.rows[1];
    var result: map<string, Number> := map[];
    for k := 0 to |AcsCodes|
      invariant forall j :: 0 <= j < k ==> !RowTooShort(header, row, AcsCodes[j])
      invariant forall c :: c in result <==> c in AcsCodes[..k] && Cleaned(header, row, c, parseFloat).Some?
      invariant forall c :: c in result ==> result[c] == Cleaned(header, row, c, parseFloat).value
    {
      var code := AcsCodes[k];
      assert AcsCodes[..k + 1] == AcsCodes[..k] + [code];
      var tooShort, cleaned := CleanCell(header, row, code, parseFloat);
      if tooShort {
        return None;
      }
      if cleaned.Some? {
        result := result[code := cleaned.value];
      }
    }
    assert AcsCodes[..|AcsCodes|] == AcsCodes;
    CleanedMap(header, row, parseFloat, result);
    return Some(result);
  }

  /** A map holding exactly the requested codes with a cleaned value, each with that value, is the comprehension. */
  lemma CleanedMap(header: seq<Cell>, row: seq<Cell>, parseFloat: string -> Option<real>, result: map<string, Number>)
    requires forall c :: c in result <==> c in AcsCodes && Cleaned(header, row, c, parseFloat).Some?
    requires forall c :: c in result ==> result[c] == Cleaned(header, row, c, parseFloat).value
    ensures result == map c | c in AcsCodes && Cleaned(header, row, c, parseFloat).Some? :: Cleaned(header, row, c, parseFloat).value
  {
  }

  /**
   * The result is None exactly on a missing GEOID, an unusable reply or a
   * too-short data row; otherwise its keys are exactly the requested codes
   * with a cleaned value, each holding that value.
   */
  lemma AcsResultCases(geoid: Option<GeoId>, reply: AcsReply, parseFloat: string -> Option<real>)
    ensures var r := AcsResult(geoid, reply, parseFloat);
            r.None? <==> (|| geoid.None?
                          || !TableReply(reply)
                          || exists c :: c in AcsCodes && RowTooShort(reply.rows[0], reply.rows[1], c))
    ensures var r := AcsResult(geoid, reply, parseFloat);
            r.Some? ==> forall c :: c in r.value <==> c in AcsCodes && Cleaned(reply.rows[0], reply.rows[1], c, parseFloat).Some?
    ensures var r := AcsResult(geoid, reply, parseFloat);
            r.Some? ==> forall c :: c in r.value ==> r.value[c] == Cleaned(reply.rows[0], reply.rows[1], c, parseFloat).value
  {
  }

  /** One turn of the loop over the requested codes: whether the lookup raises, and otherwise the value kept, if any. */
  method CleanCell(header: seq<Cell>, row: seq<Cell>, code: string, parseFloat: string -> Option<real>)
    returns (tooShort: bool, cleaned: Option<Number>)
    ensures tooShort == RowTooShort(header, row, code)
    ensures !tooShort ==> cleaned == Cleaned(header, row, code, parseFloat)
  {
    tooShort, cleaned := false, None;
    if CStr(code) in header {
      var idx := IndexOf(header, CStr(code));
      if idx >= |row| {
        return true, None;
      }
      var val := row[idx];
      if val.CStr? && val.s != [] {
        var parsed := parseFloat(val.s);
        if parsed.Some? && parsed.value > 0.0 {
          if parsed.value.Floor as real == parsed.value {
            cleaned := Some(Int(parsed.value.Floor));
          } else {
            cleaned := Some(Float(parsed.value));
          }
        }
      }
    }
  }

  /** Every kept value is positive, integral values are kept as ints, and the code was in the header. */
  lemma CleanedValues(header: seq<Cell>, row: seq<Cell>, code: string, parseFloat: string -> Option<real>)
    requires Cleaned(header, row, code, parseFloat).Some?
    ensures var n := Cleaned(header, row, code, parseFloat).value;
            && CStr(code) in header
            && Value(n) > 0.0
            && (n.Int? <==> Value(n).Floor as real == Value(n))
            && var cell := row[IndexOf(header, CStr(code))];
               cell.CStr? && cell.s != [] && parseFloat(cell.s) == Some(Value(n))
  {
  }

  /** Empty, unparsable and non-positive cells are dropped. */
  lemma CleanedDrops(header: seq<Cell>, row: seq<Cell>, code: string, parseFloat: string -> Option<real>)
    requires CStr(code) in header && IndexOf(header, CStr(code)) < |row|
    requires var cell := row[IndexOf(header, CStr(code))];
             || cell == CNull || cell == CStr([])
             || parseFloat(cell.s).None? || parseFloat(cell.s).value <= 0.0
    ensures Cleaned(header, row, code, parseFloat).None?
  {
  }

  // ---------------------------------------------------------------------
  // compare_with_benchmarks

  const NationalName := "United States"

  /** The keys of the FIPS table, in four groups of thirteen: the 50 states, the District of Columbia and Puerto Rico. */
  const FipsCodesA: set<string> := {"01", "02", "04", "05", "06", "08", "09", "10", "11", "12", "13", "15", "16"}
  const FipsCodesB: set<string> := {"17", "18", "19", "20", "21", "22", "23", "24", "25", "26", "27", "28", "29"}
  const FipsCodesC: set<string> := {"30", "31", "32", "33", "34", "35", "36", "37", "38", "39", "40", "41", "42"}
  const FipsCodesD: set<string> := {"44", "45", "46", "47", "48", "49", "50", "51", "53", "54", "55", "56", "72"}
  const FipsCodes: set<string> := FipsCodesA + FipsCodesB + FipsCodesC + FipsCodesD

  /**
   * `FIPS_TO_NAME.get(state_fips, "United States")`: the 50 states, the District
   * of Columbia and Puerto Rico by their two-digit FIPS code, the national name otherwise.
   */
  function StateName(fips: string): string {
    match fips
    case "01" => "Alabama"
    case "02" => "Alaska"
    case "04" => "Arizona"
    case "05" => "Arkansas"
    case "06" => "California"
    case "08" => "Colorado"
    case "09" => "Connecticut"
    case "10" => "Delaware"
    case "11" => "District of Columbia"
    case "12" => "Florida"
    case "13" => "Georgia"
    case "15" => "Hawaii"
    case "16" => "Idaho"
    case "17" => "Illinois"
    case "18" => "Indiana"
    case "19" => "Iowa"
    case "20" => "Kansas"
    case "21" => "Kentucky"
    case "22" => "Louisiana"
    case "23" => "Maine"
    case "24" => "Maryland"
    case "25" => "Massachusetts"
    case "26" => "Michigan"
    case "27" => "Minnesota"
    case "28" => "Mississippi"
    case "29" => "Missouri"
    case "30" => "Montana"
    case "31" => "Nebraska"
    case "32" => "Nevada"
    case "33" => "New Hampshire"
    case "34" => "New Jersey"
    case "35" => "New Mexico"
    case "36" => "New York"
    case "37" => "North Carolina"
    case "38" => "North Dakota"
    case "39" => "Ohio"
    case "40" => "Oklahoma"
    case "41" => "Oregon"
    case "42" => "Pennsylvania"
    case "44" => "Rhode Island"
    case "45" => "South Carolina"
    case "46" => "South Dakota"
    case "47" => "Tennessee"
    case "48" => "Texas"
    case "49" => "Utah"
    case "50" => "Vermont"
    case "51" => "Virginia"
    case "53" => "Washington"
    case "54" => "West Virginia"
    case "55" => "Wisconsin"
    case "56" => "Wyoming"
    case "72" => "Puerto Rico"
    case _ => NationalName
  }

  /** Every code of the table names a state, and every other code, malformed ones included, gives the national name. */
  lemma StateNameTable(c: string)
    ensures c in FipsCodes ==> StateName(c) != NationalName
    ensures c !in FipsCodes ==> StateName(c) == NationalName
  {
    if c in FipsCodesA {
      StateNameGroup(c, FipsCodesA);
    } else if c in FipsCodesB {
      StateNameGroup(c, FipsCodesB);
    } else if c in FipsCodesC {
      StateNameGroup(c, FipsCodesC);
    } else if c in FipsCodesD {
      StateNameGroup(c, FipsCodesD);
    } else {
      StateNameOutside(c);
    }
  }

  /** A code in none of the groups falls through every case of the table. */
  lemma StateNameOutside(c: string)
    requires c !in FipsCodesA && c !in FipsCodesB && c !in FipsCodesC && c !in FipsCodesD
    ensures StateName(c) == NationalName
  {
  }

  /** The codes of one group of the table each name a state. */
  lemma StateNameGroup(c: string, group: set<string>)
    requires group == FipsCodesA || group == FipsCodesB || group == FipsCodesC || group == FipsCodesD
    requires c in group
    ensures StateName(c) != NationalName
  {
    if group == FipsCodesA {
      assert c in FipsCodesA;
    } else if group == FipsCodesB {
      assert c in FipsCodesB;
    } else if group == FipsCodesC {
      assert c in FipsCodesC;
    } else {
      assert c in FipsCodesD;
    }
  }

  /** Worked examples of `StateNameTable`: known codes give their state, including the District of Columbia and Puerto Rico. */
  lemma StateNameKnown()
    ensures StateName("36") == "New York" && StateName("72") == "Puerto Rico" && StateName("11") == "District of Columbia"
  {
  }

  /** Worked examples of `StateNameTable`: unknown or malformed codes fall back to the national benchmarks. */
  lemma StateNameFallback()
    ensures StateName("03") == NationalName && StateName("6") == NationalName && StateName("") == NationalName
  {
  }

  /** The metrics of the output, each under its dictionary key and read from one ACS code. */
  datatype Metric =
    | MedianIncome | MedianHomeValue | MedianGrossRent
    | EduTotal25Plus | EduHsDiploma | EduBachelor | EduMaster | EduProf | EduDoctorate
    | RaceWhite | RaceBlack | RaceAsian | OriginHispanic | RaceTotal
    | MedianAge
  {
    /** The key of `output["metrics"]`. */
    function Key(): string {
      match this
      case MedianIncome => "median_income"
      case MedianHomeValue => "median_home_value"
      case MedianGrossRent => "median_gross_rent"
      case EduTotal25Plus => "Edu_Total_25_Plus"
      case EduHsDiploma => "Edu_HS_Diploma"
      case EduBachelor => "Edu_Bachelor"
      case EduMaster => "Edu_Master"
      case EduProf => "Edu_Prof"
      case EduDoctorate => "Edu_Doctorate"
      case RaceWhite => "Race_White"
      case RaceBlack => "Race_Black"
      case RaceAsian => "Race_Asian"
      case OriginHispanic => "Origin_Hispanic"
      case RaceTotal => "Race_Total"
      case MedianAge => "median_age"
    }

    /** The ACS variable the metric is read from. */
    function Code(): string {
      match this
      case MedianIncome => "B19013_001E"
      case MedianHomeValue => "B25077_001E"
      case MedianGrossRent => "B25064_001E"
      case EduTotal25Plus => "B15003_001E"
      case EduHsDiploma => "B15003_017E"
      case EduBachelor => "B15003_022E"
      case EduMaster => "B15003_023E"
      case EduProf => "B15003_024E"
      case EduDoctorate => "B15003_025E"
      case RaceWhite => "B02001_002E"
      case RaceBlack => "B02001_003E"
      case RaceAsian => "B02001_005E"
      case OriginHispanic => "B03003_003E"
      case RaceTotal => "B01001_001E"
      case MedianAge => "B01002_001E"
    }

    /** The section of the output the metric is written in: economics, education, race or age. */
    function Section(): (k: nat)
      ensures k < 4
    {
      match this
      case MedianIncome | MedianHomeValue | MedianGrossRent => 0
      case EduTotal25Plus | EduHsDiploma | EduBachelor | EduMaster | EduProf | EduDoctorate => 1
      case RaceWhite | RaceBlack | RaceAsian | OriginHispanic | RaceTotal => 2
      case MedianAge => 3
    }

    /** The education counts, reported only when there is a population aged 25 and over. */
    predicate IsEducationCount() {
      EduHsDiploma? || EduBachelor? || EduMaster? || EduProf? || EduDoctorate?
    }
  }

  /** Every metric is read from a requested code. */
  lemma MetricsFromRequestedCodes(m: Metric)
    ensures m.Code() in AcsCodes
  {
  }

  /** `local_data.get(code, 0) or 0`, and `v if v else 0` for `v = local_data.get(code)`. */
  function LocalOr0(local: map<string, Number>, code: string): Number {
    if code in local && Value(local[code]) != 0.0 then local[code] else Int(0)
  }

  /** The value the output gives metric `m`. */
  function ExpectedMetric(local: map<string, Number>, m: Metric): Number {
    if m.IsEducationCount() && !(Value(LocalOr0(local, EduTotal25Plus.Code())) > 0.0) then Int(0)
    else LocalOr0(local, m.Code())
  }

  /** The compiled profile: identifiers, one local value per metric, the benchmarks and, once added, the source. */
  datatype CensusProfile = CensusProfile(
    locationIdentifiers: GeoId,
    metrics: map<Metric, Number>,
    benchmarks: Json,
    source: Option<string>)

  /** `compare_with_benchmarks` */
  method CompareWithBenchmarks(local: Option<map<string, Number>>, geoid: GeoId, benchmarksFor: string -> Json)
    returns (r: Option<CensusProfile>)
    ensures r.None? <==> (local.None? || local.value == map[])
    ensures r.Some? ==> && r.value.locationIdentifiers == geoid
                        && r.value.benchmarks == benchmarksFor(StateName(geoid.state))
                        && r.value.source.None?
                        && forall m: Metric :: m in r.value.metrics && r.value.metrics[m] == ExpectedMetric(local.value, m)
  {
    if local.None? || local.value == map[] {
      return None;
    }
    var data := local.value;
    var stateName := StateName(geoid.state);
    var benchmarks := benchmarksFor(stateName);

    var economics := EconomicMetrics(data);
    var education := EducationMetrics(data);
    var race := RaceMetrics(data);
    var age := AgeMetrics(data);
    var metrics := economics + education + race + age;
    return Some(CensusProfile(geoid, metrics, benchmarks, None));
  }

  /** The economic metrics: median household income, home value and gross rent. */
  method EconomicMetrics(data: map<string, Number>) returns (part: map<Metric, Number>)
    ensures forall m: Metric :: m in part <==> m.Section() == 0
    ensures forall m: Metric :: m in part ==> part[m] == ExpectedMetric(data, m)
  {
    var medIncome := LocalOr0(data, MedianIncome.Code());
    var medValue := LocalOr0(data, MedianHomeValue.Code());
    var medRent := LocalOr0(data, MedianGrossRent.Code());
    part := map[MedianIncome := medIncome, MedianHomeValue := medValue, MedianGrossRent := medRent];
  }

  /** The education metrics: the 25-and-over population and the five education counts, zero without that population. */
  method EducationMetrics(data: map<string, Number>) returns (part: map<Metric, Number>)
    ensures forall m: Metric :: m in part <==> m.Section() == 1
    ensures forall m: Metric :: m in part ==> part[m] == ExpectedMetric(data, m)
  {
    var total25 := LocalOr0(data, EduTotal25Plus.Code());
    var eHs, eBach, eMast, eProf, eDoc := Int(0), Int(0), Int(0), Int(0), Int(0);
    if Value(total25) > 0.0 {
      eHs := LocalOr0(data, EduHsDiploma.Code());
      eBach := LocalOr0(data, EduBachelor.Code());
      eMast := LocalOr0(data, EduMaster.Code());
      eProf := LocalOr0(data, EduProf.Code());
      eDoc := LocalOr0(data, EduDoctorate.Code());
    }
    part := map[EduTotal25Plus := total25, EduHsDiploma := eHs, EduBachelor := eBach,
                EduMaster := eMast, EduProf := eProf, EduDoctorate := eDoc];
  }

  /** The race metrics: the race and origin counts and the total population. */
  method RaceMetrics(data: map<string, Number>) returns (part: map<Metric, Number>)
    ensures forall m: Metric :: m in part <==> m.Section() == 2
    ensures forall m: Metric :: m in part ==> part[m] == ExpectedMetric(data, m)
  {
    var rTot := LocalOr0(data, RaceTotal.Code());
    var rWhite := LocalOr0(data, RaceWhite.Code());
    var rBlack := LocalOr0(data, RaceBlack.Code());
    var rAsian := LocalOr0(data, RaceAsian.Code());
    var rHisp := LocalOr0(data, OriginHispanic.Code());
    part := map[RaceWhite := rWhite, RaceBlack := rBlack, RaceAsian := rAsian,
                OriginHispanic := rHisp, RaceTotal := rTot];
  }

  /** The age metric: the median age. */
  method AgeMetrics(data: map<string, Number>) returns (part: map<Metric, Number>)
    ensures forall m: Metric :: m in part <==> m.Section() == 3
    ensures forall m: Metric :: m in part ==> part[m] == ExpectedMetric(data, m)
  {
    var medAge := LocalOr0(data, MedianAge.Code());
    part := map[MedianAge := medAge];
  }

  /** Every metric compiled from an ACS result is 0 or positive: the negative "missing data" codes never reach the output. */
  lemma AcsMetricsNonNegative(geoid: Option<GeoId>, reply: AcsReply, parseFloat: string -> Option<real>, m: Metric)
    requires AcsResult(geoid, reply, parseFloat).Some?
    ensures Value(ExpectedMetric(AcsResult(geoid, reply, parseFloat).value, m)) >= 0.0
  {
    var a := AcsResult(geoid, reply, parseFloat).value;
    var code := if m.IsEducationCount() && !(Value(LocalOr0(a, EduTotal25Plus.Code())) > 0.0) then [] else m.Code();
    if code in a && Value(a[code]) != 0.0 {
      CleanedValues(reply.rows[0], reply.rows[1], code, parseFloat);
    }
  }

  /** Without a positive 25-and-over population all five education counts are 0. */
  lemma EducationZeroWithoutAdults(local: map<string, Number>, m: Metric)
    requires m.IsEducationCount()
    ensures !(Value(LocalOr0(local, EduTotal25Plus.Code())) > 0.0) ==> ExpectedMetric(local, m) == Int(0)
  {
  }

  /** A metric whose code is absent from the cleaned data is 0; a present (positive) one is passed through unchanged. */
  lemma MetricDefaults(local: map<string, Number>, m: Metric)
    requires !m.IsEducationCount()
    ensures m.Code() !in local ==> ExpectedMetric(local, m) == Int(0)
    ensures m.Code() in local && Value(local[m.Code()]) > 0.0 ==> ExpectedMetric(local, m) == local[m.Code()]
  {
  }

  // ---------------------------------------------------------------------
  // get_census_data

  const CensusSource := "US Census Bureau (2022 ACS 5-year)"

  /**
   * `get_census_data`: geocode, fetch the ACS row for the block group, compile,
   * and tag the result with its source.
   */
  method GetCensusData(config: map<string, Json>, census: CensusGeocoderReply, geocode: GeocodeReply,
                       fcc: LatLon -> FccReply, acs: GeoId -> AcsReply,
                       parseFloat: string -> Option<real>, benchmarksFor: string -> Json)
    returns (r: Option<CensusProfile>)
    ensures r.None? <==> || !Enabled(config, "enable_census")
                         || GetCensusGeoid(config, census, geocode, fcc).None?
                         || var g := GetCensusGeoid(config, census, geocode, fcc);
                            var a := AcsResult(g, acs(g.value), parseFloat);
                            a.None? || a.value == map[]
    ensures r.Some? ==> var g := GetCensusGeoid(config, census, geocode, fcc);
                        && g == Some(r.value.locationIdentifiers)
                        && Consistent(r.value.locationIdentifiers)
                        && r.value.source == Some(CensusSource)
                        && r.value.benchmarks == benchmarksFor(StateName(g.value.state))
                        && var a := AcsResult(g, acs(g.value), parseFloat);
                           && a.Some?
                           && forall m: Metric :: m in r.value.metrics && r.value.metrics[m] == ExpectedMetric(a.value, m)
  {
    if !Enabled(config, "enable_census") {
      return None;
    }
    var geo := GetCensusGeoid(config, census, geocode, fcc);
    if geo.None? {
      return None;
    }
    var acsData := GetAcsData(geo, acs(geo.value), parseFloat);
    var compiled := CompareWithBenchmarks(acsData, geo.value, benchmarksFor);
    if compiled.Some? {
      r := Some(compiled.value.(source := Some(CensusSource)));
    } else {
      r := None;
    }
  }
}
