/**
 * Comparable selection in `get_rentcast_data` (data.py): the RentCast reply
 * is an input; its comparables are sorted by similarity, the first three are
 * turned into display rows, and those rows are sorted again and cut to five.
 * Rounding `price / sqft` to two places is the parameter `round2`.
 */
module DataRentcast {
  import opened Common
  import opened PyStr
  import opened JsonValue
  import opened StableSort
  import Data

  /** The `similarityScore` member: missing, JSON null, or a number. */
  datatype Similarity = SimAbsent | SimNull | SimScore(score: real)

  /** A JSON member the code reads with `.get`: missing, JSON null, or given. */
  datatype Member<T> = Missing | Null | Given(value: T)

  /**
   * One comparable. `price`, `squareFootage` and `lastSeen` are None when
   * missing or null, which the code treats alike (`or 0`, a truthiness test);
   * the address members keep the difference. The members the code only
   * passes on are kept in `extra`.
   */
  datatype Comp = Comp(
    similarity: Similarity,
    price: Option<real>,
    squareFootage: Option<real>,
    lastSeen: Option<string>,
    formattedAddress: Member<string>,
    addressLine1: Member<string>,
    addressLine2: Member<string>,
    extra: map<string, Json>)

  /** The RentCast reply: none, or a status, the top-level members and the `comparables` member. */
  datatype RentcastReply =
    | RentcastNoResponse
    | RentcastResponse(status: int, fields: map<string, Json>, comparables: Member<seq<Comp>>)

  /** One display row of `top_3`; an address line is None when it is JSON null. */
  datatype CompRow = CompRow(
    addressLine1: Option<string>,
    addressLine2: Option<string>,
    price: real,
    ppsf: real,
    similarity: real,
    bedrooms: Json,
    bathrooms: Json,
    squareFootage: real,
    distance: Json,
    lastSeenDate: string,
    propertyType: Json,
    yearBuilt: Json)

  datatype RentEstimate = RentEstimate(
    estimatedRent: Json,
    rentRange: seq<Json>,
    currency: Json,
    comparables: seq<CompRow>)

  /** The sort key `x.get("similarityScore", 0)`; a null score cannot be compared. */
  function SimilarityKey(c: Comp): real {
    match c.similarity
    case SimScore(r) => r
    case _ => 0.0
  }

  /** Python compares keys only when there are two or more items, and a null key then raises. */
  predicate Sortable(comps: seq<Comp>) {
    |comps| <= 1 || forall i :: 0 <= i < |comps| ==> !comps[i].similarity.SimNull?
  }

  function RowSimilarity(row: CompRow): real {
    row.similarity
  }

  /** `x or 0` for a number that may be missing. */
  function OrZero(x: Option<real>): real {
    if x.Some? then x.value else 0.0
  }

  /** Price per square foot, 0 unless both price and area are positive. */
  function Ppsf(price: real, sqft: real, round2: real -> real): real {
    if sqft > 0.0 && price > 0.0 then round2(price / sqft) else 0.0
  }

  /** The date part of `lastSeen`: its first ten characters, or "N/A" when missing or empty. */
  function LastSeenDate(lastSeen: Option<string>): (r: string)
    ensures lastSeen.None? || lastSeen.value == [] ==> r == "N/A"
    ensures lastSeen.Some? && lastSeen.value != [] ==> |r| == Min(10, |lastSeen.value|) && r == lastSeen.value[..|r|]
  {
    if lastSeen.Some? && lastSeen.value != [] then lastSeen.value[..Min(10, |lastSeen.value|)] else "N/A"
  }

  function Min(a: int, b: int): int {
    if a <= b then a else b
  }

  /** `c.get(key, default)` of a string member: None for JSON null. */
  function GetMember(m: Member<string>, default: string): Option<string> {
    match m
    case Missing => Some(default)
    case Null => None
    case Given(s) => Some(s)
  }

  /**
   * A null `formattedAddress` makes `addr_full.split(",")` raise: the default
   * of the `addressLine1` lookup is evaluated whether or not it is used.
   */
  predicate AddressRaises(c: Comp) {
    c.formattedAddress.Null?
  }

  /** `addr_full`: the formatted address, or "Unknown" when it is missing. */
  function FullAddress(c: Comp): string
    requires !AddressRaises(c)
  {
    GetMember(c.formattedAddress, "Unknown").value
  }

  /** The first address line: `addressLine1` (None when null), else the formatted address up to its first comma. */
  function AddressLine1(c: Comp): Option<string>
    requires !AddressRaises(c)
  {
    GetMember(c.addressLine1, Split(FullAddress(c), ',')[0])
  }

  /**
   * The second address line: `addressLine2` (None when null); when that is
   * falsy and the formatted address has a comma, what follows the first
   * comma, stripped.
   */
  function AddressLine2(c: Comp): Option<string>
    requires !AddressRaises(c)
  {
    var line2 := GetMember(c.addressLine2, "");
    var full := FullAddress(c);
    if (line2.None? || line2.value == []) && ',' in full then
      var parts := Split(full, ',');
      if |parts| > 1 then Some(Strip(Join(parts[1..], ','))) else line2
    else line2
  }

  /** The display row built from one comparable. */
  function Row(c: Comp, round2: real -> real): CompRow
    requires !AddressRaises(c)
  {
    var price := OrZero(c.price);
    var sqft := OrZero(c.squareFootage);
    CompRow(
      AddressLine1(c), AddressLine2(c),
      price, Ppsf(price, sqft, round2), SimilarityKey(c),
      Get(c.extra, "bedrooms", JNull), Get(c.extra, "bathrooms", JNull),
      sqft, Get(c.extra, "distance", JInt(0)),
      LastSeenDate(c.lastSeen),
      Get(c.extra, "propertyType", JStr("Unknown")), Get(c.extra, "yearBuilt", JStr("")))
  }

  function Rows(comps: seq<Comp>, round2: real -> real): (rows: seq<CompRow>)
    requires forall i :: 0 <= i < |comps| ==> !AddressRaises(comps[i])
    ensures |rows| == |comps|
    ensures forall i :: 0 <= i < |comps| ==> rows[i] == Row(comps[i], round2)
  {
    if comps == [] then [] else [Row(comps[0], round2)] + Rows(comps[1..], round2)
  }

  /** `comps` after `comps.sort(key=..., reverse=True)`. */
  function SortedComps(comps: seq<Comp>): seq<Comp> {
    SortDesc(comps, SimilarityKey)
  }

  /** `comps[:3]` of the sorted list. */
  function TopComps(comps: seq<Comp>): seq<Comp> {
    var sorted := SortedComps(comps);
    sorted[..Min(3, |sorted|)]
  }

  /** `data.get("comparables", [])`: the list, empty when missing; a null list cannot be sorted. */
  function CompList(m: Member<seq<Comp>>): seq<Comp> {
    match m
    case Given(cs) => cs
    case _ => []
  }

  /** Building the rows raises at a chosen comparable whose formatted address is null. */
  predicate RowsRaise(first: seq<Comp>) {
    exists i :: 0 <= i < |first| && AddressRaises(first[i])
  }

  /** The estimate `get_rentcast_data` returns. */
  function RentcastResult(config: map<string, Json>, apiKey: Option<string>, reply: RentcastReply,
                          round2: real -> real): Option<RentEstimate> {
    if !Data.Enabled(config, "enable_rentcast") || !Data.HasKey(apiKey) then None
    else if reply.RentcastNoResponse? || reply.status != 200 then None
    else if reply.comparables.Null? then None
    else
      var comps := CompList(reply.comparables);
      if !Sortable(comps) || RowsRaise(TopComps(comps)) then None
      else
        var top3 := Rows(TopComps(comps), round2);
        var final := SortDesc(top3, RowSimilarity);
        Some(RentEstimate(
          Get(reply.fields, "rent", JInt(0)),
          [Get(reply.fields, "rentRangeLow", JInt(0)), Get(reply.fields, "rentRangeHigh", JInt(0))],
          Get(reply.fields, "currency", JStr("USD")),
          final[..Min(5, |final|)]))
  }

  /** The loop body: the display row built from one comparable. */
  method BuildRow(c: Comp, round2: real -> real) returns (row: CompRow)
    requires !AddressRaises(c)
    ensures row == Row(c, round2)
  {
    var price := OrZero(c.price);
    var sqft := OrZero(c.squareFootage);
    var ppsf := 0.0;
    if sqft > 0.0 && price > 0.0 {
      ppsf := round2(price / sqft);
    }
    assert ppsf == Ppsf(price, sqft, round2);
    row := CompRow(
      AddressLine1(c), AddressLine2(c), price, ppsf, SimilarityKey(c),
      Get(c.extra, "bedrooms", JNull), Get(c.extra, "bathrooms", JNull),
      sqft, Get(c.extra, "distance", JInt(0)), LastSeenDate(c.lastSeen),
      Get(c.extra, "propertyType", JStr("Unknown")), Get(c.extra, "yearBuilt", JStr("")));
  }

  /**
   * The loop over the first three comparables: one display row each, in
   * order, or None when a comparable with a null formatted address raises.
   */
  method BuildRows(first: seq<Comp>, round2: real -> real) returns (top3: Option<seq<CompRow>>)
    ensures top3.None? <==> RowsRaise(first)
    ensures top3.Some? ==> top3.value == Rows(first, round2)
  {
    var rows := [];
    for i := 0 to |first|
      invariant |rows| == i
      invariant forall j :: 0 <= j < i ==> !AddressRaises(first[j]) && rows[j] == Row(first[j], round2)
    {
      if AddressRaises(first[i]) {
        return None;
      }
      var row := BuildRow(first[i], round2);
      rows := rows + [row];
    }
    return Some(rows);
  }

  /** `get_rentcast_data`: the sort, the loop over the first three, the second sort and the cut. */
  method GetRentcastData(config: map<string, Json>, apiKey: Option<string>, reply: RentcastReply,
                         round2: real -> real)
    returns (r: Option<RentEstimate>)
    ensures r == RentcastResult(config, apiKey, reply, round2)
  {
    if !Data.Enabled(config, "enable_rentcast") || !Data.HasKey(apiKey) {
      return None;
    }
    if reply.RentcastNoResponse? || reply.status != 200 {
      return None;
    }
    if reply.comparables.Null? {
      return None;  // the AttributeError of `None.sort` is caught
    }
    var comps := CompList(reply.comparables);
    if !Sortable(comps) {
      return None;  // the TypeError from comparing None is caught
    }
    comps := SortDesc(comps, SimilarityKey);
    var first := comps[..Min(3, |comps|)];
    assert first == TopComps(CompList(reply.comparables));
    var top3 := BuildRows(first, round2);
    if top3.None? {
      return None;  // the AttributeError of `None.split` is caught
    }
    var final := SortDesc(top3.value, RowSimilarity);
    r := Some(RentEstimate(
      Get(reply.fields, "rent", JInt(0)),
      [Get(reply.fields, "rentRangeLow", JInt(0)), Get(reply.fields, "rentRangeHigh", JInt(0))],
      Get(reply.fields, "currency", JStr("USD")),
      final[..Min(5, |final|)]));
  }

  /** The display rows of sorted comparables are in descending similarity order. */
  lemma RowsSorted(comps: seq<Comp>, round2: real -> real)
    requires forall i :: 0 <= i < |comps| ==> !AddressRaises(comps[i])
    requires SortedDesc(comps, SimilarityKey)
    ensures SortedDesc(Rows(comps, round2), RowSimilarity)
  {
    var rows := Rows(comps, round2);
    forall i, j | 0 <= i < j < |rows|
      ensures RowSimilarity(rows[i]) >= RowSimilarity(rows[j])
    {
      assert rows[i] == Row(comps[i], round2) && rows[j] == Row(comps[j], round2);
    }
  }

  /**
   * The second sort and the cut to five change nothing: the comparables are
   * the rows of the three most similar comparables, in descending similarity.
   */
  lemma RentcastComparables(config: map<string, Json>, apiKey: Option<string>, reply: RentcastReply,
                            round2: real -> real)
    requires RentcastResult(config, apiKey, reply, round2).Some?
    ensures var est := RentcastResult(config, apiKey, reply, round2).value;
            var comps := CompList(reply.comparables);
            && est.comparables == Rows(TopComps(comps), round2)
            && |est.comparables| <= 3
            && |est.comparables| == Min(3, |comps|)
            && SortedDesc(est.comparables, RowSimilarity)
  {
    var comps := CompList(reply.comparables);
    var top := TopComps(comps);
    ResultComparables(config, apiKey, reply, round2);
    TopCompsSorted(comps);
    FinalRows(top, round2);
  }

  /** Rows of at most three comparables in descending similarity survive the second sort and the cut to five. */
  lemma FinalRows(top: seq<Comp>, round2: real -> real)
    requires |top| <= 3 && SortedDesc(top, SimilarityKey)
    requires forall i :: 0 <= i < |top| ==> !AddressRaises(top[i])
    ensures var rows := Rows(top, round2);
            var final := SortDesc(rows, RowSimilarity);
            final[..Min(5, |final|)] == rows && SortedDesc(rows, RowSimilarity)
  {
    var rows := Rows(top, round2);
    RowsSorted(top, round2);
    SortDescSorted(rows, RowSimilarity);
    assert rows[..Min(5, |rows|)] == rows;
  }

  /** The comparables of a result: the rows of the top three, sorted again and cut to five. */
  lemma ResultComparables(config: map<string, Json>, apiKey: Option<string>, reply: RentcastReply,
                          round2: real -> real)
    requires RentcastResult(config, apiKey, reply, round2).Some?
    ensures !RowsRaise(TopComps(CompList(reply.comparables)))
    ensures var rows := Rows(TopComps(CompList(reply.comparables)), round2);
            var final := SortDesc(rows, RowSimilarity);
            RentcastResult(config, apiKey, reply, round2).value.comparables == final[..Min(5, |final|)]
  {
  }

  /** The three chosen comparables are in descending similarity. */
  lemma TopCompsSorted(comps: seq<Comp>)
    ensures SortedDesc(TopComps(comps), SimilarityKey)
  {
    var sorted := SortedComps(comps);
    var top := TopComps(comps);
    forall i, j | 0 <= i < j < |top|
      ensures SimilarityKey(top[i]) >= SimilarityKey(top[j])
    {
      assert top[i] == sorted[i] && top[j] == sorted[j];
    }
  }

  /** Every chosen comparable is at least as similar as every comparable left out. */
  lemma TopCompsMostSimilar(comps: seq<Comp>, c: Comp, d: Comp)
    requires c in TopComps(comps)
    requires d in multiset(comps) - multiset(TopComps(comps))
    ensures SimilarityKey(c) >= SimilarityKey(d)
  {
    var sorted := SortedComps(comps);
    var k := Min(3, |sorted|);
    assert sorted == sorted[..k] + sorted[k..];
    assert multiset(sorted) == multiset(sorted[..k]) + multiset(sorted[k..]);
    assert d in multiset(sorted[k..]);
    var i :| 0 <= i < k && sorted[i] == c;
    var j :| 0 <= j < |sorted[k..]| && sorted[k..][j] == d;
    assert sorted[k + j] == d;
  }

  /**
   * With every formatted address usable, the sort fails, and the whole call
   * gives None, only for two or more comparables with a null score among them.
   */
  lemma RentcastNullScore(config: map<string, Json>, apiKey: Option<string>, status: int,
                          fields: map<string, Json>, comps: seq<Comp>, round2: real -> real)
    requires Data.Enabled(config, "enable_rentcast") && Data.HasKey(apiKey)
    requires forall i :: 0 <= i < |comps| ==> !AddressRaises(comps[i])
    ensures RentcastResult(config, apiKey, RentcastResponse(status, fields, Given(comps)), round2).None?
            <==> status != 200 || (|comps| >= 2 && exists i :: 0 <= i < |comps| && comps[i].similarity.SimNull?)
  {
    var top := TopComps(comps);
    forall i | 0 <= i < |top|
      ensures !AddressRaises(top[i])
    {
      TopCompsChosen(comps, i);
    }
  }

  /** Each chosen comparable is one of the comparables. */
  lemma TopCompsChosen(comps: seq<Comp>, i: nat)
    requires i < |TopComps(comps)|
    ensures TopComps(comps)[i] in comps
  {
    var sorted := SortedComps(comps);
    assert TopComps(comps)[i] == sorted[i];
    assert sorted[i] in multiset(sorted);
  }

  /**
   * A null `comparables` list cannot be sorted and gives None; a missing one
   * gives an estimate without comparables. A null formatted address among the
   * three chosen comparables gives None.
   */
  lemma RentcastNullMembers(config: map<string, Json>, apiKey: Option<string>, fields: map<string, Json>,
                            comps: seq<Comp>, round2: real -> real)
    requires Data.Enabled(config, "enable_rentcast") && Data.HasKey(apiKey)
    ensures RentcastResult(config, apiKey, RentcastResponse(200, fields, Null), round2).None?
    ensures var r := RentcastResult(config, apiKey, RentcastResponse(200, fields, Missing), round2);
            r.Some? && r.value.comparables == []
    ensures RowsRaise(TopComps(comps)) ==>
              RentcastResult(config, apiKey, RentcastResponse(200, fields, Given(comps)), round2).None?
  {
    assert TopComps([]) == [];
  }

  /** `ppsf` is 0 unless both price and square footage are positive. */
  lemma RowPpsf(c: Comp, round2: real -> real)
    requires !AddressRaises(c)
    ensures var row := Row(c, round2);
            && (row.ppsf != 0.0 ==> row.price > 0.0 && row.squareFootage > 0.0)
            && (row.price > 0.0 && row.squareFootage > 0.0 ==> row.ppsf == round2(row.price / row.squareFootage))
  {
  }

  /**
   * Without `addressLine1`, and with `addressLine2` missing, null or empty, a
   * formatted address with a comma is shown split at its first comma: the
   * part before it, and the rest stripped.
   */
  lemma {:induction false} AddressSplitAtFirstComma(c: Comp)
    requires c.addressLine1.Missing? && (c.addressLine2.Given? ==> c.addressLine2.value == "")
    requires c.formattedAddress.Given? && ',' in c.formattedAddress.value
    ensures var full := c.formattedAddress.value;
            && AddressLine1(c).Some? && AddressLine2(c).Some?
            && exists rest :: && full == AddressLine1(c).value + [','] + rest
                              && ',' !in AddressLine1(c).value
                              && AddressLine2(c).value == Strip(rest)
  {
    var full := c.formattedAddress.value;
    SplitFirstSeparator(full, ',');
    var parts := Split(full, ',');
    var rest := Join(parts[1..], ',');
    Line1Fallback(c);
    Line2Fallback(c);
    assert full == AddressLine1(c).value + [','] + rest;
  }

  /** Without `addressLine1`, line 1 is the formatted address up to its first comma. */
  lemma Line1Fallback(c: Comp)
    requires !AddressRaises(c) && c.addressLine1.Missing?
    ensures AddressLine1(c) == Some(Split(FullAddress(c), ',')[0])
  {
  }

  /** With `addressLine2` missing, null or empty, and a comma in the formatted address, line 2 is what follows the first comma, stripped. */
  lemma Line2Fallback(c: Comp)
    requires !AddressRaises(c) && (c.addressLine2.Given? ==> c.addressLine2.value == "")
    requires ',' in FullAddress(c)
    ensures AddressLine2(c) == Some(Strip(Join(Split(FullAddress(c), ',')[1..], ',')))
  {
    SplitFirstSeparator(FullAddress(c), ',');
  }

  /**
   * Without a comma in the formatted address and with both line members
   * missing, the whole formatted address (or "Unknown") is line 1 and line 2
   * is empty.
   */
  lemma AddressWithoutComma(c: Comp)
    requires !AddressRaises(c) && c.addressLine1.Missing? && c.addressLine2.Missing?
    requires ',' !in FullAddress(c)
    ensures AddressLine1(c) == Some(FullAddress(c)) && AddressLine2(c) == Some("")
  {
    SplitPiece(FullAddress(c), ',');
  }

  /**
   * A null line member is shown as null: `addressLine1` always, and
   * `addressLine2` when the formatted address has no comma to fall back on.
   */
  lemma AddressNullLines(c: Comp)
    requires !AddressRaises(c)
    ensures c.addressLine1.Null? ==> AddressLine1(c).None?
    ensures c.addressLine2.Null? && ',' !in FullAddress(c) ==> AddressLine2(c).None?
  {
  }
}
