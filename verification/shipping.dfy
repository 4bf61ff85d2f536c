/** Shipping zones, quotes and address rules of the storefront's shipping
    service: prefix-based zone lookup with a fallback zone, a base cost that
    covers the first kilogram, delivery estimates bucketed by zone id, and the
    address validator and display formatter. */
module Shipping {
  import opened Prelude

  /** A shipping zone as stored in the zone table. */
  datatype Zone = Zone(
    id: string,
    name: string,
    postalCodes: seq<string>,   // prefixes, not numeric ranges
    baseCost: real,
    additionalPerKg: real)

  /** A computed quote. Degraded quotes carry no `zoneId`. */
  datatype Quote = Quote(
    zone: string,
    baseCost: real,
    additionalCost: real,
    totalCost: real,
    estimatedDays: string,
    zoneId: Option<string>)

  /** A shipping address; a missing field is the empty string. */
  datatype Address = Address(
    street: string,
    streetNumber: string,
    betweenStreets: string,
    city: string,
    province: string,
    postalCode: string)

  /** The outcome of reading the zone table from the document store:
      `Unavailable` is a read that threw. */
  datatype TableRead = Loaded(zones: seq<Zone>) | Unavailable

  const FallbackId: string := "otros"

  const NearDays: string := "3-5 días hábiles"
  const MidDays: string := "5-7 días hábiles"
  const FarDays: string := "7-10 días hábiles"

  /** Ids whose estimate is the mid-distance bucket. */
  const MidZoneIds: seq<string> := ["cordoba", "santa_fe", "mendoza", "tucuman"]

  const Caba: Zone := Zone("caba", "Ciudad Autónoma de Buenos Aires", ["1000", "1999"], 500.0, 150.0)
  const GbaNorte: Zone := Zone("gba_norte", "Gran Buenos Aires Norte", ["1600", "1699"], 800.0, 200.0)
  const GbaSur: Zone := Zone("gba_sur", "Gran Buenos Aires Sur", ["1700", "1999"], 800.0, 200.0)
  const GbaOeste: Zone := Zone("gba_oeste", "Gran Buenos Aires Oeste", ["1400", "1699"], 800.0, 200.0)
  const InteriorBuenosAires: Zone :=
    Zone("interior_buenos_aires", "Interior Buenos Aires", ["6000", "7999", "8000", "8999"], 1200.0, 300.0)
  const Cordoba: Zone := Zone("cordoba", "Córdoba", ["5000", "5999"], 1500.0, 350.0)
  const SantaFe: Zone := Zone("santa_fe", "Santa Fe", ["2000", "3999"], 1400.0, 330.0)
  const Mendoza: Zone := Zone("mendoza", "Mendoza", ["5500", "5999"], 1600.0, 380.0)
  const Tucuman: Zone := Zone("tucuman", "Tucumán", ["4000", "4999"], 1800.0, 420.0)
  const Otros: Zone := Zone("otros", "Otras Provincias", [], 2000.0, 500.0)

  /** The table the service seeds into an empty store, in declared order. */
  const DefaultZones: seq<Zone> :=
    [Caba, GbaNorte, GbaSur, GbaOeste, InteriorBuenosAires, Cordoba, SantaFe, Mendoza, Tucuman, Otros]

  // ---------------------------------------------------------------------------
  // Zone resolution

  /** Some prefix of the zone is a prefix of `code`. */
  predicate Matches(z: Zone, code: string) {
    exists i :: 0 <= i < |z.postalCodes| && StartsWith(code, z.postalCodes[i])
  }

  /** `zones[i]` is the first zone in table order that matches `code`. */
  ghost predicate FirstMatchAt(zones: seq<Zone>, code: string, i: int) {
    0 <= i < |zones| && Matches(zones[i], code)
    && forall j :: 0 <= j < i ==> !Matches(zones[j], code)
  }

  /** `zones.find(z => z.postal_codes.some(p => code.startsWith(p)))` */
  function FindZone(zones: seq<Zone>, code: string): (r: Option<Zone>)
    ensures r.Some? <==> exists i :: 0 <= i < |zones| && Matches(zones[i], code)
    ensures r.Some? ==> exists i :: FirstMatchAt(zones, code, i) && zones[i] == r.value
  {
    if |zones| == 0 then None
    else if Matches(zones[0], code) then
      assert FirstMatchAt(zones, code, 0);
      Some(zones[0])
    else
      var r := FindZone(zones[1..], code);
      assert forall i :: 0 < i < |zones| ==> zones[i] == zones[1..][i - 1];
      assert r.Some? ==> exists i :: FirstMatchAt(zones, code, i) && zones[i] == r.value by {
        if r.Some? {
          var i :| FirstMatchAt(zones[1..], code, i) && zones[1..][i] == r.value;
          assert FirstMatchAt(zones, code, i + 1);
        }
      }
      r
  }

  /** `zones.find(z => z.id === id)` */
  function FindById(zones: seq<Zone>, id: string): (r: Option<Zone>)
    ensures r.Some? <==> exists i :: 0 <= i < |zones| && zones[i].id == id
    ensures r.Some? ==> r.value in zones && r.value.id == id
  {
    if |zones| == 0 then None
    else if zones[0].id == id then Some(zones[0])
    else
      var r := FindById(zones[1..], id);
      assert forall i :: 0 < i < |zones| ==> zones[i] == zones[1..][i - 1];
      r
  }

  /** The zone a quote is computed from: the first matching zone, otherwise
      the zone whose id is `otros`, otherwise none. */
  function ResolveZone(zones: seq<Zone>, code: string): (r: Option<Zone>)
    ensures (exists i :: 0 <= i < |zones| && Matches(zones[i], code)) ==>
              r.Some? && exists i :: FirstMatchAt(zones, code, i) && zones[i] == r.value
    ensures (forall i :: 0 <= i < |zones| ==> !Matches(zones[i], code)) ==>
              r == FindById(zones, FallbackId)
  {
    match FindZone(zones, code)
    case Some(z) => Some(z)
    case None => FindById(zones, FallbackId)
  }

  /** A zone without prefixes matches no postal code. */
  lemma EmptyPrefixesNeverMatch(z: Zone, code: string)
    requires z.postalCodes == []
    ensures !Matches(z, code)
  {
  }

  /** A resolved zone without prefixes can only be the fallback zone, reached
      because no zone of the table matched. */
  lemma EmptyPrefixZoneIsFallback(zones: seq<Zone>, code: string)
    requires ResolveZone(zones, code).Some?
    requires ResolveZone(zones, code).value.postalCodes == []
    ensures ResolveZone(zones, code).value.id == FallbackId
    ensures forall i :: 0 <= i < |zones| ==> !Matches(zones[i], code)
  {
    EmptyPrefixesNeverMatch(ResolveZone(zones, code).value, code);
  }

  // ---------------------------------------------------------------------------
  // Quotes

  /** The delivery estimate for a zone id. */
  function DeliveryEstimate(id: string): (r: string)
    ensures id in MidZoneIds ==> r == MidDays
    ensures id == FallbackId ==> r == FarDays
    ensures id !in MidZoneIds && id != FallbackId ==> r == NearDays
  {
    if id in MidZoneIds then MidDays
    else if id == FallbackId then FarDays
    else NearDays
  }

  function MaxReal(a: real, b: real): real { if a >= b then a else b }

  /** The quote for a resolved zone: the first kilogram is in the base cost. */
  function ZoneQuote(z: Zone, weightKg: real): (q: Quote)
    ensures q.zone == z.name && q.zoneId == Some(z.id)
    ensures q.baseCost == z.baseCost
    ensures q.totalCost == q.baseCost + q.additionalCost
    ensures q.estimatedDays == DeliveryEstimate(z.id)
  {
    var additional := MaxReal(0.0, weightKg - 1.0) * z.additionalPerKg;
    Quote(z.name, z.baseCost, additional, z.baseCost + additional, DeliveryEstimate(z.id), Some(z.id))
  }

  /** The quote when no zone matched and the table has no `otros` zone. */
  function UnknownZoneQuote(weightKg: real): (q: Quote)
    ensures q.zone == "Desconocida" && q.zoneId == None
    ensures q.totalCost == q.baseCost + q.additionalCost
  {
    Quote("Desconocida", 2500.0, weightKg * 600.0, 2500.0 + weightKg * 600.0, FarDays, None)
  }

  /** The quote returned when the computation throws. */
  const ErrorQuote: Quote := Quote("Error en cálculo", 0.0, 0.0, 0.0, "Contactar soporte", None)

  /** `calculateShippingCost(postalCode, weightKg)` over the outcome of the
      zone-table read. */
  function CalculateShippingCost(read: TableRead, postalCode: string, weightKg: real): (q: Quote)
    ensures read.Unavailable? ==> q == ErrorQuote
    ensures read.Loaded? && ResolveZone(read.zones, postalCode).None? ==> q == UnknownZoneQuote(weightKg)
    ensures read.Loaded? && ResolveZone(read.zones, postalCode).Some? ==>
              q == ZoneQuote(ResolveZone(read.zones, postalCode).value, weightKg)
    ensures q.totalCost == q.baseCost + q.additionalCost
  {
    match read
    case Unavailable => ErrorQuote
    case Loaded(zones) =>
      match ResolveZone(zones, postalCode)
      case None => UnknownZoneQuote(weightKg)
      case Some(z) => ZoneQuote(z, weightKg)
  }

  /** The cost formula of a resolved zone, and the free first kilogram. */
  lemma ZoneCostFormula(z: Zone, weightKg: real)
    ensures ZoneQuote(z, weightKg).additionalCost ==
            (if weightKg > 1.0 then (weightKg - 1.0) * z.additionalPerKg else 0.0)
    ensures weightKg <= 1.0 ==> ZoneQuote(z, weightKg).totalCost == z.baseCost
    ensures z.additionalPerKg >= 0.0 ==> ZoneQuote(z, weightKg).totalCost >= z.baseCost
  {
  }

  /** With a non-negative rate, a heavier parcel never costs less. */
  lemma ZoneCostMonotone(z: Zone, w1: real, w2: real)
    requires z.additionalPerKg >= 0.0
    requires w1 <= w2
    ensures ZoneQuote(z, w1).totalCost <= ZoneQuote(z, w2).totalCost
  {
    var a1 := MaxReal(0.0, w1 - 1.0);
    var a2 := MaxReal(0.0, w2 - 1.0);
    assert a1 <= a2;
    assert a1 * z.additionalPerKg <= a2 * z.additionalPerKg;
  }

  /** The unknown-zone quote charges every kilogram, the first included. */
  lemma UnknownZoneCost(read: TableRead, postalCode: string, weightKg: real)
    requires read.Loaded?
    requires forall i :: 0 <= i < |read.zones| ==> !Matches(read.zones[i], postalCode)
    requires forall i :: 0 <= i < |read.zones| ==> read.zones[i].id != FallbackId
    ensures CalculateShippingCost(read, postalCode, weightKg).zone == "Desconocida"
    ensures CalculateShippingCost(read, postalCode, weightKg).baseCost == 2500.0
    ensures CalculateShippingCost(read, postalCode, weightKg).additionalCost == weightKg * 600.0
    ensures CalculateShippingCost(read, postalCode, weightKg).totalCost == 2500.0 + weightKg * 600.0
    ensures CalculateShippingCost(read, postalCode, weightKg).estimatedDays == FarDays
  {
  }

  /** A failed read yields zero costs, the error label and no zone id. */
  lemma ErrorQuoteShape(postalCode: string, weightKg: real)
    ensures CalculateShippingCost(Unavailable, postalCode, weightKg).totalCost == 0.0
    ensures CalculateShippingCost(Unavailable, postalCode, weightKg).baseCost == 0.0
    ensures CalculateShippingCost(Unavailable, postalCode, weightKg).additionalCost == 0.0
    ensures CalculateShippingCost(Unavailable, postalCode, weightKg).zone == "Error en cálculo"
    ensures CalculateShippingCost(Unavailable, postalCode, weightKg).estimatedDays == "Contactar soporte"
    ensures CalculateShippingCost(Unavailable, postalCode, weightKg).zoneId.None?
  {
  }

  /** A quote carries a zone id exactly when it comes from a resolved zone. */
  lemma ZoneIdMeansResolved(read: TableRead, postalCode: string, weightKg: real)
    ensures CalculateShippingCost(read, postalCode, weightKg).zoneId.Some? <==>
            read.Loaded? && ResolveZone(read.zones, postalCode).Some?
  {
  }

  // ---------------------------------------------------------------------------
  // The default table

  /** Every default zone has a distinct id, and only `otros` has no prefixes. */
  lemma DefaultZonesWellFormed()
    ensures forall i, j :: 0 <= i < j < |DefaultZones| ==> DefaultZones[i].id != DefaultZones[j].id
    ensures forall i :: 0 <= i < |DefaultZones| ==>
              (DefaultZones[i].postalCodes == [] <==> DefaultZones[i].id == FallbackId)
  {
  }

  /** A zone none of whose prefixes agrees with `code` on the first two
      characters does not match it. */
  lemma NoMatchOnTwoChars(z: Zone, code: string)
    requires |code| >= 2
    requires forall k :: 0 <= k < |z.postalCodes| ==>
               |z.postalCodes[k]| >= 2
               && (z.postalCodes[k][0] != code[0] || z.postalCodes[k][1] != code[1])
    ensures !Matches(z, code)
  {
  }

  /** Strings that differ in their first character differ. */
  lemma DifferentHead(a: string, b: string)
    requires |a| > 0 && |b| > 0 && a[0] != b[0]
    ensures a != b
  {
  }

  /** `FindById` returns the first zone carrying the id. */
  lemma {:induction false} FindByIdAt(zones: seq<Zone>, id: string, k: nat)
    requires k < |zones| && zones[k].id == id
    requires forall j :: 0 <= j < k ==> zones[j].id != id
    ensures FindById(zones, id) == Some(zones[k])
  {
    if k > 0 {
      FindByIdAt(zones[1..], id, k - 1);
    }
  }

  /** In the default table only the last zone is `otros`. */
  lemma DefaultFallbackIsLast()
    ensures FindById(DefaultZones, FallbackId) == Some(Otros)
  {
    DifferentHead(Caba.id, FallbackId);
    DifferentHead(GbaNorte.id, FallbackId);
    DifferentHead(GbaSur.id, FallbackId);
    DifferentHead(GbaOeste.id, FallbackId);
    DifferentHead(InteriorBuenosAires.id, FallbackId);
    DifferentHead(Cordoba.id, FallbackId);
    DifferentHead(SantaFe.id, FallbackId);
    DifferentHead(Mendoza.id, FallbackId);
    DifferentHead(Tucuman.id, FallbackId);
    FindByIdAt(DefaultZones, FallbackId, 9);
  }

  /** No default zone has a prefix of `"1234"`. */
  lemma NoDefaultZoneMatches1234()
    ensures forall i :: 0 <= i < |DefaultZones| ==> !Matches(DefaultZones[i], "1234")
  {
    var code := "1234";
    NoMatchOnTwoChars(Caba, code);
    NoMatchOnTwoChars(GbaNorte, code);
    NoMatchOnTwoChars(GbaSur, code);
    NoMatchOnTwoChars(GbaOeste, code);
    NoMatchOnTwoChars(InteriorBuenosAires, code);
    NoMatchOnTwoChars(Cordoba, code);
    NoMatchOnTwoChars(SantaFe, code);
    NoMatchOnTwoChars(Mendoza, code);
    NoMatchOnTwoChars(Tucuman, code);
    EmptyPrefixesNeverMatch(Otros, code);
  }

  /** `"1000"`/`"1999"` are prefixes, not a range: `"1234"` falls back. */
  lemma PrefixesAreNotRanges()
    ensures ResolveZone(DefaultZones, "1234") == Some(Otros)
  {
    NoDefaultZoneMatches1234();
    DefaultFallbackIsLast();
  }

  /** Overlapping prefixes go to the earlier zone: a code starting with
      `1999` is quoted as CABA, never as GBA Sur. */
  lemma OverlapGoesToFirstZone(code: string)
    requires StartsWith(code, "1999")
    ensures ResolveZone(DefaultZones, code) == Some(Caba)
  {
    assert StartsWith(code, Caba.postalCodes[1]);
    assert FirstMatchAt(DefaultZones, code, 0);
  }

  /** Interior Buenos Aires gets the near estimate, like CABA and GBA. */
  lemma InteriorIsNear()
    ensures DeliveryEstimate("interior_buenos_aires") == NearDays
  {
    assert "interior_buenos_aires" !in MidZoneIds;
  }

  // ---------------------------------------------------------------------------
  // Address rules

  /** The fields of the address form. */
  datatype Field = Street | StreetNumber | BetweenStreets | City | Province | PostalCode

  /** The required fields, in the order they are checked. */
  const RequiredFields: seq<Field> := [Street, StreetNumber, City, Province, PostalCode]

  function FieldName(f: Field): string {
    match f
    case Street => "street"
    case StreetNumber => "streetNumber"
    case BetweenStreets => "betweenStreets"
    case City => "city"
    case Province => "province"
    case PostalCode => "postalCode"
  }

  function FieldValue(a: Address, f: Field): string {
    match f
    case Street => a.street
    case StreetNumber => a.streetNumber
    case BetweenStreets => a.betweenStreets
    case City => a.city
    case Province => a.province
    case PostalCode => a.postalCode
  }

  /** `{ ...address, [field]: value }` */
  function SetField(a: Address, f: Field, value: string): (r: Address)
    ensures FieldValue(r, f) == value
    ensures forall g :: g != f ==> FieldValue(r, g) == FieldValue(a, g)
  {
    match f
    case Street => a.(street := value)
    case StreetNumber => a.(streetNumber := value)
    case BetweenStreets => a.(betweenStreets := value)
    case City => a.(city := value)
    case Province => a.(province := value)
    case PostalCode => a.(postalCode := value)
  }

  datatype Validation = Valid | Invalid(error: string)

  function MissingFieldError(f: Field): string {
    "El campo " + FieldName(f) + " es obligatorio"
  }

  const InvalidPostalCodeError: string := "Código postal inválido"

  /** `/^\d{4,5}$/.test(code)` */
  predicate PostalCodePattern(code: string) {
    4 <= |code| <= 5 && AllDigits(code)
  }

  /** The position of the first field of `fields` whose value is blank, or
      `|fields|` when none is. */
  function FirstBlankIndex(a: Address, fields: seq<Field>): (k: nat)
    ensures k <= |fields|
    ensures k < |fields| ==> Blank(FieldValue(a, fields[k]))
    ensures forall j :: 0 <= j < k ==> !Blank(FieldValue(a, fields[j]))
  {
    if |fields| == 0 || Blank(FieldValue(a, fields[0])) then 0
    else
      assert forall j :: 0 < j < |fields| ==> fields[j] == fields[1..][j - 1];
      1 + FirstBlankIndex(a, fields[1..])
  }

  /** The first field of `fields` whose value is blank. */
  function FirstBlank(a: Address, fields: seq<Field>): (r: Option<Field>)
    ensures r.None? <==> forall k :: 0 <= k < |fields| ==> !Blank(FieldValue(a, fields[k]))
    ensures r.Some? ==> FirstBlankIndex(a, fields) < |fields| && r.value == fields[FirstBlankIndex(a, fields)]
  {
    if FirstBlankIndex(a, fields) < |fields| then Some(fields[FirstBlankIndex(a, fields)]) else None
  }

  /** `validateShippingAddress(address)` */
  function ValidateShippingAddress(a: Address): (v: Validation)
    ensures v == Valid <==>
              (forall k :: 0 <= k < |RequiredFields| ==> !Blank(FieldValue(a, RequiredFields[k])))
              && PostalCodePattern(a.postalCode)
  {
    match FirstBlank(a, RequiredFields)
    case Some(f) => Invalid(MissingFieldError(f))
    case None =>
      if PostalCodePattern(a.postalCode) then Valid else Invalid(InvalidPostalCodeError)
  }

  /** The error names the first blank field in the order street, number, city,
      province, postal code; the pattern is only checked once all are present. */
  lemma ValidationReportsFirstBlank(a: Address, k: nat)
    requires k < |RequiredFields|
    requires Blank(FieldValue(a, RequiredFields[k]))
    requires forall j :: 0 <= j < k ==> !Blank(FieldValue(a, RequiredFields[j]))
    ensures ValidateShippingAddress(a) == Invalid(MissingFieldError(RequiredFields[k]))
  {
    assert FirstBlankIndex(a, RequiredFields) == k;
  }

  /** With every required field present, only the pattern can reject, and the
      pattern sees the untrimmed code. */
  lemma ValidationChecksPattern(a: Address)
    requires forall k :: 0 <= k < |RequiredFields| ==> !Blank(FieldValue(a, RequiredFields[k]))
    ensures !PostalCodePattern(a.postalCode) ==> ValidateShippingAddress(a) == Invalid(InvalidPostalCodeError)
  {
  }

  /** The cross streets never affect validation. */
  lemma BetweenStreetsNotRequired(a: Address, between: string)
    ensures ValidateShippingAddress(a.(betweenStreets := between)) == ValidateShippingAddress(a)
  {
    var b := a.(betweenStreets := between);
    assert forall k :: 0 <= k < |RequiredFields| ==> FieldValue(b, RequiredFields[k]) == FieldValue(a, RequiredFields[k]);
    FirstBlankAgrees(a, b, RequiredFields);
  }

  /** Two addresses that agree on the fields looked at have the same first
      blank one. */
  lemma {:induction false} FirstBlankAgrees(a: Address, b: Address, fields: seq<Field>)
    requires forall k :: 0 <= k < |fields| ==> FieldValue(a, fields[k]) == FieldValue(b, fields[k])
    ensures FirstBlankIndex(a, fields) == FirstBlankIndex(b, fields)
    ensures FirstBlank(a, fields) == FirstBlank(b, fields)
  {
    if |fields| > 0 && !Blank(FieldValue(a, fields[0])) {
      assert forall k :: 0 <= k < |fields[1..]| ==> fields[1..][k] == fields[k + 1];
      FirstBlankAgrees(a, b, fields[1..]);
    }
  }

  /** A valid address has a postal code of four or five characters. */
  lemma ValidPostalCodeLength(a: Address)
    requires ValidateShippingAddress(a) == Valid
    ensures 4 <= |a.postalCode| <= 5
  {
  }

  /** Padding the postal code with a space makes a complete address invalid. */
  lemma PaddedPostalCodeRejected()
    ensures ValidateShippingAddress(Address("Corrientes", "100", "", "CABA", "CABA", " 1005")) == Invalid(InvalidPostalCodeError)
  {
    var a := Address("Corrientes", "100", "", "CABA", "CABA", " 1005");
    assert !Blank(a.street) by { assert !IsJsWhitespace(a.street[0]); }
    assert !Blank(a.streetNumber) by { assert !IsJsWhitespace(a.streetNumber[0]); }
    assert !Blank(a.city) by { assert !IsJsWhitespace(a.city[0]); }
    assert !Blank(a.province) by { assert !IsJsWhitespace(a.province[0]); }
    assert !Blank(a.postalCode) by { assert !IsJsWhitespace(a.postalCode[1]); }
    assert !IsDigit(a.postalCode[0]);
  }

  /** The parts `formatShippingAddress` joins, before empty ones are dropped. */
  function FormatParts(a: Address): seq<string> {
    [ a.street,
      a.streetNumber,
      if a.betweenStreets != "" then "entre " + a.betweenStreets else "",
      a.city,
      a.province,
      if a.postalCode != "" then "CP: " + a.postalCode else "" ]
  }

  const NoAddressText: string := "Dirección no especificada"

  /** `formatShippingAddress(address)` */
  function FormatShippingAddress(a: Option<Address>): (r: string)
    ensures a.None? ==> r == NoAddressText
  {
    match a
    case None => NoAddressText
    case Some(addr) => Join(Filter(FormatParts(addr), (s: string) => s != ""), ", ")
  }

  /** A complete address keeps all six parts, with the cross streets and
      the postal code labelled. */
  lemma FormatComplete(a: Address)
    requires a.street != "" && a.streetNumber != "" && a.betweenStreets != ""
    requires a.city != "" && a.province != "" && a.postalCode != ""
    ensures FormatShippingAddress(Some(a)) ==
            Join([a.street, a.streetNumber, "entre " + a.betweenStreets, a.city, a.province, "CP: " + a.postalCode], ", ")
  {
    FilterAll(FormatParts(a), (s: string) => s != "");
  }

  /** Empty fields are skipped: an address with only a postal code shows just
      the labelled code, and an all-empty address shows nothing. */
  lemma FormatSkipsEmpty(code: string)
    ensures code != "" ==> FormatShippingAddress(Some(Address("", "", "", "", "", code))) == "CP: " + code
    ensures code == "" ==> FormatShippingAddress(Some(Address("", "", "", "", "", code))) == ""
  {
    var parts := FormatParts(Address("", "", "", "", "", code));
    var p := (s: string) => s != "";
    assert Filter(parts, p) == Filter(parts[5..], p) by {
      assert Filter(parts, p) == Filter(parts[1..], p);
      assert Filter(parts[1..], p) == Filter(parts[2..], p) by { assert parts[1..][1..] == parts[2..]; }
      assert Filter(parts[2..], p) == Filter(parts[3..], p) by { assert parts[2..][1..] == parts[3..]; }
      assert Filter(parts[3..], p) == Filter(parts[4..], p) by { assert parts[3..][1..] == parts[4..]; }
      assert Filter(parts[4..], p) == Filter(parts[5..], p) by { assert parts[4..][1..] == parts[5..]; }
    }
    assert parts[5..] == [parts[5]];
  }
}
