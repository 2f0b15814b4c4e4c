/** The row normaliser: `mapRow` in the upload route and its copies in the
    analysis and report routes. Each field of the sample record is read
    from an ordered list of header aliases with JS `a || b || c`, and the
    numeric ones are coerced with `parseFloat(...) || 0`. */
module Normaliser {
  import opened Values
  import opened Samples

  /** A parsed row: header text to raw cell. A header the row lacks reads
      as `undefined`. */
  type Row = map<string, Raw>

  function Lookup(row: Row, key: string): Raw
  {
    if key in row then row[key] else Missing
  }

  /** The alias at index i is the first one whose value is truthy. */
  predicate FirstTruthyAlias(row: Row, aliases: seq<string>, i: int)
    requires 0 <= i < |aliases|
  {
    && Truthy(Lookup(row, aliases[i]))
    && forall j | 0 <= j < i :: !Truthy(Lookup(row, aliases[j]))
  }

  predicate NoTruthyAlias(row: Row, aliases: seq<string>)
  {
    forall i | 0 <= i < |aliases| :: !Truthy(Lookup(row, aliases[i]))
  }

  /** `row[a0] || row[a1] || ... || row[an]`: the first truthy value, and
      when there is none the value of the last alias (which may be "",
      0, null or undefined). */
  function Resolve(row: Row, aliases: seq<string>): (v: Raw)
    requires |aliases| > 0
    ensures forall i | 0 <= i < |aliases| && FirstTruthyAlias(row, aliases, i) :: v == Lookup(row, aliases[i])
    ensures NoTruthyAlias(row, aliases) ==> v == Lookup(row, aliases[|aliases| - 1])
    ensures Truthy(v) <==> !NoTruthyAlias(row, aliases)
    decreases |aliases|
  {
    if |aliases| == 1 || Truthy(Lookup(row, aliases[0])) then Lookup(row, aliases[0])
    else
      var v := Resolve(row, aliases[1..]);
      assert forall i | 1 <= i < |aliases| && FirstTruthyAlias(row, aliases, i) :: FirstTruthyAlias(row, aliases[1..], i - 1);
      assert NoTruthyAlias(row, aliases[1..]) ==> NoTruthyAlias(row, aliases);
      v
  }

  /** `parseFloat(row[a0] || ... || row[an]) || 0`: the number the first
      truthy alias holds (0 when that value does not parse, even if a later
      alias would), and 0 when no alias is truthy. */
  function ResolveNumber(row: Row, aliases: seq<string>, parse: Parser): (x: real)
    requires |aliases| > 0
    ensures x == 0.0 || ParseFloat(Resolve(row, aliases), parse) == Some(x)
  {
    NumberOf(Resolve(row, aliases), parse)
  }

  lemma ResolveNumberPriority(row: Row, aliases: seq<string>, parse: Parser, i: nat)
    requires i < |aliases| && FirstTruthyAlias(row, aliases, i)
    ensures ResolveNumber(row, aliases, parse) == NumberOf(Lookup(row, aliases[i]), parse)
  {
  }

  lemma ResolveNumberDefault(row: Row, aliases: seq<string>, parse: Parser)
    requires |aliases| > 0 && NoTruthyAlias(row, aliases)
    ensures ResolveNumber(row, aliases, parse) == 0.0
  {
  }

  /** The upload route stores the resolved label as it is; the analysis and
      report routes add `|| ''`. */
  datatype Variant = Upload | Analysis

  function ResolveLabel(row: Row, aliases: seq<string>, variant: Variant): (v: Raw)
    requires |aliases| > 0
    ensures forall i | 0 <= i < |aliases| && FirstTruthyAlias(row, aliases, i) :: v == Lookup(row, aliases[i])
    ensures NoTruthyAlias(row, aliases) ==>
      v == (if variant == Upload then Lookup(row, aliases[|aliases| - 1]) else Str(""))
  {
    var r := Resolve(row, aliases);
    assert NoTruthyAlias(row, aliases) ==> r == Lookup(row, aliases[|aliases| - 1]) && !Truthy(r);
    assert variant == Upload || variant == Analysis;
    if variant == Analysis && !Truthy(r) then Str("") else r
  }

  const SampleIdAliases: seq<string> := ["S. No.", "Sample ID", "sampleId"]
  const LocationAliases: seq<string> := ["Locations", "Location", "location"]

  /** The numeric fields of the record, each with its own alias list. */
  datatype Field =
    | Longitude | Latitude | PH | Conductivity | DissolvedSolids
    | MetalField(m: Metal)
    | HeavyMetalIndex

  /** Header aliases in priority order: unit-qualified header, bare name,
      lower-case name. */
  function Aliases(f: Field): (a: seq<string>)
    ensures |a| >= 2
  {
    match f
    case Longitude => ["Longitude (degrees in decimal)", "Longitude", "longitude"]
    case Latitude => ["Latitude (degrees in decimal)", "Latitude", "latitude"]
    case PH => ["pH", "ph"]
    case Conductivity => ["EC μS/cm at 25 °C", "EC", "ec"]
    case DissolvedSolids => ["TDS mg/L", "TDS", "tds"]
    case MetalField(m) => MetalAliases(m)
    case HeavyMetalIndex => ["Heavy Metal μg/L", "Heavy Metal", "heavyMetalIndex"]
  }

  function MetalAliases(m: Metal): (a: seq<string>)
    ensures |a| == 3
  {
    match m
    case Arsenic => ["As μg/L", "As", "as"]
    case Cadmium => ["Cd μg/L", "Cd", "cd"]
    case Chromium => ["Cr μg/L", "Cr", "cr"]
    case Copper => ["Cu μg/L", "Cu", "cu"]
    case Iron => ["Fe μg/L", "Fe", "fe"]
    case Manganese => ["Mn μg/L", "Mn", "mn"]
    case Nickel => ["Ni μg/L", "Ni", "ni"]
    case Lead => ["Pb μg/L", "Pb", "pb"]
    case Zinc => ["Zn μg/L", "Zn", "zn"]
  }

  /** The record field a `Field` names. */
  function FieldValue(s: Sample, f: Field): Option<real>
  {
    match f
    case Longitude => s.longitude
    case Latitude => s.latitude
    case PH => s.pH
    case Conductivity => s.EC
    case DissolvedSolids => s.TDS
    case MetalField(m) => s.Concentration(m)
    case HeavyMetalIndex => s.heavyMetalIndex
  }

  /** Whether a variant of the mapper writes the field at all: only the
      upload copy maps the heavy-metal index. */
  predicate Maps(variant: Variant, f: Field)
  {
    f != HeavyMetalIndex || variant == Upload
  }

  function Number(row: Row, f: Field, parse: Parser): Option<real>
  {
    Some(ResolveNumber(row, Aliases(f), parse))
  }

  /** `mapRow(row)`: every measurement field is present (a number, never
      undefined or NaN); only the upload variant has a
      heavy-metal index; the analysis variant's labels are never falsy
      except as "". */
  function MapRow(row: Row, variant: Variant, parse: Parser): (s: Sample)
    ensures Complete(s)
    ensures s.heavyMetalIndex.Some? <==> variant == Upload
    ensures variant == Analysis ==> Truthy(s.sampleId) || s.sampleId == Str("")
    ensures variant == Analysis ==> Truthy(s.location) || s.location == Str("")
  {
    Sample(
      sampleId := ResolveLabel(row, SampleIdAliases, variant),
      location := ResolveLabel(row, LocationAliases, variant),
      longitude := Number(row, Longitude, parse),
      latitude := Number(row, Latitude, parse),
      pH := Number(row, PH, parse),
      EC := Number(row, Conductivity, parse),
      TDS := Number(row, DissolvedSolids, parse),
      As := Number(row, MetalField(Arsenic), parse),
      Cd := Number(row, MetalField(Cadmium), parse),
      Cr := Number(row, MetalField(Chromium), parse),
      Cu := Number(row, MetalField(Copper), parse),
      Fe := Number(row, MetalField(Iron), parse),
      Mn := Number(row, MetalField(Manganese), parse),
      Ni := Number(row, MetalField(Nickel), parse),
      Pb := Number(row, MetalField(Lead), parse),
      Zn := Number(row, MetalField(Zinc), parse),
      heavyMetalIndex := if variant == Upload then Number(row, HeavyMetalIndex, parse) else None)
  }

  lemma MappedLabels(row: Row, variant: Variant, parse: Parser)
    ensures MapRow(row, variant, parse).sampleId == ResolveLabel(row, SampleIdAliases, variant)
    ensures MapRow(row, variant, parse).location == ResolveLabel(row, LocationAliases, variant)
  {
  }

  lemma MappedSiteFields(row: Row, variant: Variant, parse: Parser)
    ensures var s := MapRow(row, variant, parse);
      && s.longitude == Number(row, Longitude, parse)
      && s.latitude == Number(row, Latitude, parse)
      && s.pH == Number(row, PH, parse)
      && s.EC == Number(row, Conductivity, parse)
      && s.TDS == Number(row, DissolvedSolids, parse)
  {
  }

  lemma MappedFieldIsResolved(row: Row, variant: Variant, parse: Parser, f: Field)
    requires Maps(variant, f)
    ensures FieldValue(MapRow(row, variant, parse), f) == Number(row, f, parse)
  {
    if f.MetalField? {
      MappedMetalIsResolved(row, variant, parse, f.m);
    }
  }

  lemma MappedMetalIsResolved(row: Row, variant: Variant, parse: Parser, m: Metal)
    ensures MapRow(row, variant, parse).Concentration(m) == Number(row, MetalField(m), parse)
  {
    match m
    case Arsenic => {}
    case Cadmium => {}
    case Chromium => {}
    case Copper => {}
    case Iron => {}
    case Manganese => {}
    case Nickel => {}
    case Lead => {}
    case Zinc => {}
  }

  /** Every mapped numeric field is present and holds either the number
      its chosen cell parses to or exactly 0: never NaN, never absent. */
  lemma MappedFieldIsParsedOrZero(row: Row, variant: Variant, parse: Parser, f: Field)
    requires Maps(variant, f)
    ensures FieldValue(MapRow(row, variant, parse), f).Some?
    ensures var x := FieldValue(MapRow(row, variant, parse), f).value;
      x == 0.0 || ParseFloat(Resolve(row, Aliases(f)), parse) == Some(x)
  {
    MappedFieldIsResolved(row, variant, parse, f);
  }

  /** Alias priority: every mapped numeric field holds the number of the
      first alias, in the listed order, whose value is truthy. */
  lemma MappedFieldTakesFirstTruthyAlias(row: Row, variant: Variant, parse: Parser, f: Field, i: nat)
    requires Maps(variant, f)
    requires i < |Aliases(f)| && FirstTruthyAlias(row, Aliases(f), i)
    ensures FieldValue(MapRow(row, variant, parse), f) == Some(NumberOf(Lookup(row, Aliases(f)[i]), parse))
  {
    MappedFieldIsResolved(row, variant, parse, f);
    ResolveNumberPriority(row, Aliases(f), parse, i);
  }

  /** A mapped numeric field holds exactly the number `parseFloat` reads
      from its first truthy alias (a parsed 0 stays 0). */
  lemma MappedFieldKeepsParsedNumber(row: Row, variant: Variant, parse: Parser, f: Field, i: nat, x: real)
    requires Maps(variant, f)
    requires i < |Aliases(f)| && FirstTruthyAlias(row, Aliases(f), i)
    requires ParseFloat(Lookup(row, Aliases(f)[i]), parse) == Some(x)
    ensures FieldValue(MapRow(row, variant, parse), f) == Some(x)
  {
    MappedFieldTakesFirstTruthyAlias(row, variant, parse, f, i);
  }

  /** Default to zero: when every alias is missing or falsy the field is 0. */
  lemma MappedFieldDefaultsToZero(row: Row, variant: Variant, parse: Parser, f: Field)
    requires Maps(variant, f)
    requires NoTruthyAlias(row, Aliases(f))
    ensures FieldValue(MapRow(row, variant, parse), f) == Some(0.0)
  {
    MappedFieldIsResolved(row, variant, parse, f);
    ResolveNumberDefault(row, Aliases(f), parse);
  }

  /** The unit-qualified header wins over the bare one. */
  lemma QualifiedHeaderWins(parse: Parser, variant: Variant)
    ensures MapRow(map["EC μS/cm at 25 °C" := Num(500.0), "EC" := Num(999.0)], variant, parse).EC == Some(500.0)
  {
    var row := map["EC μS/cm at 25 °C" := Num(500.0), "EC" := Num(999.0)];
    assert FirstTruthyAlias(row, Aliases(Conductivity), 0);
    MappedFieldTakesFirstTruthyAlias(row, variant, parse, Conductivity, 0);
  }

  /** `||` chooses before `parseFloat` runs: a numeric 0 falls through to
      the next alias ... */
  lemma NumericZeroFallsThrough(parse: Parser, variant: Variant)
    ensures MapRow(map["As μg/L" := Num(0.0), "As" := Num(7.0)], variant, parse).As == Some(7.0)
  {
    var row := map["As μg/L" := Num(0.0), "As" := Num(7.0)];
    assert FirstTruthyAlias(row, Aliases(MetalField(Arsenic)), 1);
    MappedFieldTakesFirstTruthyAlias(row, variant, parse, MetalField(Arsenic), 1);
  }

  /** ... while text that does not parse is still chosen and gives 0,
      hiding a later alias that would have parsed. */
  lemma UnparseableTextShadowsLaterAlias(parse: Parser, variant: Variant)
    requires parse("n/a") == None
    ensures MapRow(map["As μg/L" := Str("n/a"), "As" := Num(7.0)], variant, parse).As == Some(0.0)
  {
    var row := map["As μg/L" := Str("n/a"), "As" := Num(7.0)];
    assert FirstTruthyAlias(row, Aliases(MetalField(Arsenic)), 0);
    MappedFieldTakesFirstTruthyAlias(row, variant, parse, MetalField(Arsenic), 0);
  }
}
