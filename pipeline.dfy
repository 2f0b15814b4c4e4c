/** Facts about the normaliser, the scorer and the report together: what a
    mapped row scores, and what reading a report line back through the row
    normaliser recovers. */
module Pipeline {
  import opened Values
  import opened Samples
  import opened Text
  import opened Normaliser
  import opened Hmpi
  import opened Report

  /** A row in which no alias of any metal holds a truthy value (the
      metal columns are missing, empty, null, 0 or NaN) maps every metal
      to 0, so it scores 0 and is Safe. */
  lemma RowWithoutMetalsScoresSafe(row: Row, variant: Variant, parse: Parser)
    requires forall m :: NoTruthyAlias(row, Aliases(MetalField(m)))
    ensures FinalIndex(MapRow(row, variant, parse)) == 0.0
    ensures ScoreOf(MapRow(row, variant, parse)).status == Safe
    ensures ScoreOf(MapRow(row, variant, parse)).calculatedHMPI == 0.0
  {
    MetalsDefaultToZero(row, variant, parse);
    IndexZero(MapRow(row, variant, parse));
  }

  lemma MetalsDefaultToZero(row: Row, variant: Variant, parse: Parser)
    requires forall m :: NoTruthyAlias(row, Aliases(MetalField(m)))
    ensures forall m :: MapRow(row, variant, parse).Concentration(m) == Some(0.0)
  {
    forall m ensures MapRow(row, variant, parse).Concentration(m) == Some(0.0) {
      MappedMetalIsResolved(row, variant, parse, m);
      ResolveNumberDefault(row, Aliases(MetalField(m)), parse);
    }
  }

  /** Every record the mapper produces has all nine metals, so its index is
      always the closed-form sum divided by 9. */
  lemma MappedRowDividesByNine(row: Row, variant: Variant, parse: Parser)
    ensures var s := MapRow(row, variant, parse);
      ValidCount(s, Metals) == 9 && FinalIndex(s) == QualitySum(s, Metals) / 9.0
  {
    var s := MapRow(row, variant, parse);
    CompleteSampleCountsNine(s);
    CompleteSampleIndex(s);
  }

  // ----- Reading a report line back -----

  /** What a CSV reader makes of a data line: each header column keyed to
      the text under it. */
  function RowOf(keys: seq<string>, cells: seq<string>): Row
    requires |keys| == |cells|
  {
    if keys == [] then map[]
    else RowOf(keys[..|keys| - 1], cells[..|cells| - 1])[keys[|keys| - 1] := Str(cells[|cells| - 1])]
  }

  predicate Distinct(keys: seq<string>)
  {
    forall i, j | 0 <= i < j < |keys| :: keys[i] != keys[j]
  }

  lemma {:induction false} RowOfAbsent(keys: seq<string>, cells: seq<string>, k: string)
    requires |keys| == |cells| && k !in keys
    ensures Lookup(RowOf(keys, cells), k) == Missing
  {
    if keys != [] {
      assert k !in keys[..|keys| - 1];
      RowOfAbsent(keys[..|keys| - 1], cells[..|cells| - 1], k);
    }
  }

  lemma {:induction false} RowOfAt(keys: seq<string>, cells: seq<string>, i: nat)
    requires |keys| == |cells| && Distinct(keys) && i < |keys|
    ensures Lookup(RowOf(keys, cells), keys[i]) == Str(cells[i])
  {
    if i < |keys| - 1 {
      var ks, cs := keys[..|keys| - 1], cells[..|cells| - 1];
      assert Distinct(ks);
      RowOfAt(ks, cs, i);
    }
  }

  /** The value a measurement field stands for once `|| 0` has been
      applied: absent reads as 0. */
  function ValueOrZero(v: Option<real>): real
  {
    if v.Some? then v.value else 0.0
  }

  /** The parser reads back the text the formatter prints for one value
      of the report. A falsy value prints as an empty cell, so it asks
      nothing of either. */
  predicate ReadsBack(v: Option<real>, show: Formatter, parse: Parser)
  {
    NumberTruthy(v) ==> parse(show(v.value)) == Some(v.value)
  }

  /** Each of the thirteen measurements a report line prints for the
      record reads back. */
  predicate PrintedValuesReadBack(r: Scored, show: Formatter, parse: Parser)
  {
    && ReadsBack(r.sample.latitude, show, parse)
    && ReadsBack(r.sample.longitude, show, parse)
    && ReadsBack(r.sample.pH, show, parse)
    && ReadsBack(r.sample.TDS, show, parse)
    && forall m :: ReadsBack(r.sample.Concentration(m), show, parse)
  }

  /** The read-back premises can all hold at once. For a record whose
      measurements are all absent, 0 or 2.5, a formatter that prints every
      number as "2.5" and a parser that reads any text as 2.5 meet them. */
  lemma ReadBackPremisesCanHold(r: Scored)
    requires OneValue(r.sample.latitude) && OneValue(r.sample.longitude)
    requires OneValue(r.sample.pH) && OneValue(r.sample.TDS)
    requires forall m :: OneValue(r.sample.Concentration(m))
    ensures PlainFormatter(x => "2.5")
    ensures PrintedValuesReadBack(r, x => "2.5", text => Some(2.5))
  {
    assert Plain("2.5");
  }

  predicate OneValue(v: Option<real>)
  {
    v == None || v == Some(0.0) || v == Some(2.5)
  }

  /** A report cell read back through an alias list in which only the
      column holding it is present gives the field's value or 0: a blank
      cell (a falsy field) falls through to 0, a printed number parses back. */
  lemma ReadBackNumber(row: Row, aliases: seq<string>, k: nat, v: Option<real>, show: Formatter, parse: Parser)
    requires k < |aliases|
    requires Lookup(row, aliases[k]) == Str(NumberCell(v, show))
    requires forall j | 0 <= j < |aliases| && j != k :: Lookup(row, aliases[j]) == Missing
    requires PlainFormatter(show) && ReadsBack(v, show, parse)
    ensures ResolveNumber(row, aliases, parse) == ValueOrZero(v)
  {
    if NumberTruthy(v) {
      assert parse(show(v.value)) == Some(v.value) && show(v.value) != "";
      assert FirstTruthyAlias(row, aliases, k);
      ResolveNumberPriority(row, aliases, parse, k);
    } else {
      assert NoTruthyAlias(row, aliases);
      ResolveNumberDefault(row, aliases, parse);
    }
  }

  /** The row the normaliser sees when a report line is read back. */
  function ReportRow(r: Scored, show: Formatter): Row
  {
    var keys := Split(HeaderLine, ',');
    var cells := Split(Line(r, show), ',');
    if |keys| == |cells| then RowOf(keys, cells) else map[]
  }

  lemma HeaderDistinct()
    ensures Distinct(HeaderCells)
  {
  }

  /** No column header is 7 characters long or longer than 15. */
  lemma LongAliasIsNoColumn(a: string)
    requires |a| == 7 || |a| > 15
    ensures a !in HeaderCells
  {
  }

  /** Among the headers only "pH" starts with a lower-case letter. */
  lemma LowerCaseAliasIsNoColumn(a: string)
    requires |a| > 0 && 'a' <= a[0] <= 'z' && a != "pH"
    ensures a !in HeaderCells
  {
  }

  /** A metal's bare symbol is the report column that holds it; its
      unit-qualified and lower-case aliases are not columns. */
  lemma MetalHeaderFacts(m: Metal)
    ensures MetalAliases(m)[1] == HeaderCells[MetalColumn(m)]
    ensures MetalAliases(m)[0] !in HeaderCells && MetalAliases(m)[2] !in HeaderCells
  {
    var a := MetalAliases(m);
    MetalAliasShapes(m);
    LongAliasIsNoColumn(a[0]);
    LowerCaseAliasIsNoColumn(a[2]);
  }

  lemma MetalAliasShapes(m: Metal)
    ensures MetalAliases(m)[1] == HeaderCells[MetalColumn(m)]
    ensures |MetalAliases(m)[0]| == 7
    ensures |MetalAliases(m)[2]| == 2 && 'a' <= MetalAliases(m)[2][0] <= 'z' && MetalAliases(m)[2][1] != 'H'
  {
    match m
    case Arsenic => {}
    case Cadmium => {}
    case Chromium => {}
    case Copper => {}
    case Iron => {}
    case Manganese => {}
    case Nickel => {}
    case Lead => {}
    case Zinc => {}
  }

  lemma LabelHeaderFacts()
    ensures SampleIdAliases[1] == HeaderCells[0] && LocationAliases[1] == HeaderCells[1]
    ensures SampleIdAliases[0] !in HeaderCells && SampleIdAliases[2] !in HeaderCells
    ensures LocationAliases[0] !in HeaderCells && LocationAliases[2] !in HeaderCells
  {
    LowerCaseAliasIsNoColumn(SampleIdAliases[2]);
    LowerCaseAliasIsNoColumn(LocationAliases[2]);
    OddAliasesAreNoColumns();
  }

  /** The aliases that neither their length nor their case keeps apart
      from the headers. */
  lemma OddAliasesAreNoColumns()
    ensures SampleIdAliases[0] !in HeaderCells && LocationAliases[0] !in HeaderCells
    ensures Aliases(DissolvedSolids)[0] !in HeaderCells && Aliases(Conductivity)[1] !in HeaderCells
  {
  }

  lemma MeasurementHeaderFacts()
    ensures Aliases(Latitude)[1] == HeaderCells[2] && Aliases(Longitude)[1] == HeaderCells[3]
    ensures Aliases(PH)[0] == HeaderCells[4] && Aliases(DissolvedSolids)[1] == HeaderCells[5]
    ensures Aliases(Latitude)[0] !in HeaderCells && Aliases(Latitude)[2] !in HeaderCells
    ensures Aliases(Longitude)[0] !in HeaderCells && Aliases(Longitude)[2] !in HeaderCells
    ensures Aliases(PH)[1] !in HeaderCells
    ensures Aliases(DissolvedSolids)[0] !in HeaderCells && Aliases(DissolvedSolids)[2] !in HeaderCells
  {
    LongAliasIsNoColumn(Aliases(Latitude)[0]);
    LongAliasIsNoColumn(Aliases(Longitude)[0]);
    LowerCaseAliasIsNoColumn(Aliases(Latitude)[2]);
    LowerCaseAliasIsNoColumn(Aliases(Longitude)[2]);
    LowerCaseAliasIsNoColumn(Aliases(PH)[1]);
    LowerCaseAliasIsNoColumn(Aliases(DissolvedSolids)[2]);
    OddAliasesAreNoColumns();
  }

  /** The report has no conductivity column under any of its aliases. */
  lemma ConductivityIsNoColumn()
    ensures forall i | 0 <= i < |Aliases(Conductivity)| :: Aliases(Conductivity)[i] !in HeaderCells
  {
    LongAliasIsNoColumn(Aliases(Conductivity)[0]);
    LowerCaseAliasIsNoColumn(Aliases(Conductivity)[2]);
    OddAliasesAreNoColumns();
  }

  /** The row read back from a report line has each column's cell under
      the column's header and nothing else. */
  lemma ReportRowColumns(r: Scored, show: Formatter)
    requires PlainFormatter(show) && PlainLabels(r, show)
    ensures forall k | 0 <= k < |HeaderCells| :: Lookup(ReportRow(r, show), HeaderCells[k]) == Str(Cells(r, show)[k])
    ensures forall a | a !in HeaderCells :: Lookup(ReportRow(r, show), a) == Missing
  {
    HeaderColumns();
    LineSplitsIntoCells(r, show);
    HeaderDistinct();
    forall k | 0 <= k < |HeaderCells| ensures Lookup(ReportRow(r, show), HeaderCells[k]) == Str(Cells(r, show)[k]) {
      RowOfAt(HeaderCells, Cells(r, show), k);
    }
    forall a | a !in HeaderCells ensures Lookup(ReportRow(r, show), a) == Missing {
      RowOfAbsent(HeaderCells, Cells(r, show), a);
    }
  }

  /** The alias a report column answers to, for the measurements the
      report prints. */
  function ReportedAlias(f: Field): (k: nat)
    requires f !in {Conductivity, HeavyMetalIndex}
    ensures k < |Aliases(f)|
  {
    if f == PH then 0 else 1
  }

  /** The report column of a printed measurement. */
  function ReportedColumn(f: Field): (k: nat)
    requires f !in {Conductivity, HeavyMetalIndex}
    ensures 2 <= k < 15
  {
    match f
    case Latitude => 2
    case Longitude => 3
    case PH => 4
    case DissolvedSolids => 5
    case MetalField(m) => MetalColumn(m)
  }

  lemma ReportedColumnFacts(r: Scored, show: Formatter, f: Field)
    requires f !in {Conductivity, HeavyMetalIndex}
    ensures Aliases(f)[ReportedAlias(f)] == HeaderCells[ReportedColumn(f)]
    ensures forall j | 0 <= j < |Aliases(f)| && j != ReportedAlias(f) :: Aliases(f)[j] !in HeaderCells
    ensures Cells(r, show)[ReportedColumn(f)] == NumberCell(FieldValue(r.sample, f), show)
  {
    if f.MetalField? {
      MetalColumnFacts(r, show, f.m);
    } else {
      assert f == Latitude || f == Longitude || f == PH || f == DissolvedSolids;
      MeasurementHeaderFacts();
      SiteCells(r, show);
    }
  }

  lemma MetalColumnFacts(r: Scored, show: Formatter, m: Metal)
    ensures MetalAliases(m)[1] == HeaderCells[MetalColumn(m)]
    ensures forall j | 0 <= j < |MetalAliases(m)| && j != 1 :: MetalAliases(m)[j] !in HeaderCells
    ensures Cells(r, show)[MetalColumn(m)] == NumberCell(r.sample.Concentration(m), show)
  {
    MetalHeaderFacts(m);
    MetalCell(r, show, m);
  }

  /** One printed measurement read back through its alias list: its
      value, or 0 if the record lacked it. */
  lemma ReadBackMeasurement(r: Scored, show: Formatter, parse: Parser, f: Field, v: Option<real>)
    requires PlainFormatter(show) && PlainLabels(r, show)
    requires f !in {Conductivity, HeavyMetalIndex} && FieldValue(r.sample, f) == v
    requires ReadsBack(v, show, parse)
    ensures ResolveNumber(ReportRow(r, show), Aliases(f), parse) == ValueOrZero(v)
  {
    var row := ReportRow(r, show);
    ReportRowColumns(r, show);
    ReportedColumnFacts(r, show, f);
    var k := ReportedAlias(f);
    ReadBackNumber(row, Aliases(f), k, v, show, parse);
  }

  /** A label read back through an alias list in which only the column
      holding it is present: the printed text, "" included. */
  lemma ReadBackLabel(row: Row, aliases: seq<string>, k: nat, text: string)
    requires k < |aliases| && Lookup(row, aliases[k]) == Str(text)
    requires forall j | 0 <= j < |aliases| && j != k :: Lookup(row, aliases[j]) == Missing
    ensures ResolveLabel(row, aliases, Analysis) == Str(text)
  {
    if text != "" {
      assert FirstTruthyAlias(row, aliases, k);
    } else {
      assert NoTruthyAlias(row, aliases);
    }
  }

  /** Both label cells of a report line resolve to the printed text. */
  lemma ReportLabelsResolve(r: Scored, show: Formatter)
    requires PlainFormatter(show) && PlainLabels(r, show)
    ensures ResolveLabel(ReportRow(r, show), SampleIdAliases, Analysis) == Str(LabelCell(r.sample.sampleId, show))
    ensures ResolveLabel(ReportRow(r, show), LocationAliases, Analysis) == Str(LabelCell(r.sample.location, show))
  {
    var row := ReportRow(r, show);
    ReportRowColumns(r, show);
    LabelHeaderFacts();
    ReadBackLabel(row, SampleIdAliases, 1, LabelCell(r.sample.sampleId, show));
    ReadBackLabel(row, LocationAliases, 1, LabelCell(r.sample.location, show));
  }

  /** Both labels of a report line read back as the text printed for them. */
  lemma ReadBackLabels(r: Scored, show: Formatter, parse: Parser)
    requires PlainFormatter(show) && PlainLabels(r, show)
    ensures MapRow(ReportRow(r, show), Analysis, parse).sampleId == Str(LabelCell(r.sample.sampleId, show))
    ensures MapRow(ReportRow(r, show), Analysis, parse).location == Str(LabelCell(r.sample.location, show))
  {
    ReportLabelsResolve(r, show);
    MappedLabels(ReportRow(r, show), Analysis, parse);
  }

  /** No alias of the conductivity is a report column, so it resolves to 0. */
  lemma ReportConductivityResolves(r: Scored, show: Formatter, parse: Parser)
    requires PlainFormatter(show) && PlainLabels(r, show)
    ensures ResolveNumber(ReportRow(r, show), Aliases(Conductivity), parse) == 0.0
  {
    var row := ReportRow(r, show);
    ReportRowColumns(r, show);
    ConductivityIsNoColumn();
    assert NoTruthyAlias(row, Aliases(Conductivity));
    ResolveNumberDefault(row, Aliases(Conductivity), parse);
  }

  /** The conductivity, which the report leaves out, reads back as 0. */
  lemma ReadBackConductivity(r: Scored, show: Formatter, parse: Parser)
    requires PlainFormatter(show) && PlainLabels(r, show)
    ensures MapRow(ReportRow(r, show), Analysis, parse).EC == Some(0.0)
  {
    ReportConductivityResolves(r, show, parse);
    MappedSiteFields(ReportRow(r, show), Analysis, parse);
  }

  /** Mapping any row whose site aliases resolve to a record's values. */
  lemma MappedSite(row: Row, parse: Parser, s: Sample)
    requires ResolveNumber(row, Aliases(Latitude), parse) == ValueOrZero(s.latitude)
    requires ResolveNumber(row, Aliases(Longitude), parse) == ValueOrZero(s.longitude)
    requires ResolveNumber(row, Aliases(PH), parse) == ValueOrZero(s.pH)
    requires ResolveNumber(row, Aliases(DissolvedSolids), parse) == ValueOrZero(s.TDS)
    ensures var m := MapRow(row, Analysis, parse);
      && m.latitude == Some(ValueOrZero(s.latitude))
      && m.longitude == Some(ValueOrZero(s.longitude))
      && m.pH == Some(ValueOrZero(s.pH))
      && m.TDS == Some(ValueOrZero(s.TDS))
  {
    MappedSiteFields(row, Analysis, parse);
  }

  /** The four site cells resolve to their values, or 0. */
  lemma ReportSiteResolves(r: Scored, show: Formatter, parse: Parser)
    requires PlainFormatter(show) && PlainLabels(r, show)
    requires ReadsBack(r.sample.latitude, show, parse)
    requires ReadsBack(r.sample.longitude, show, parse)
    requires ReadsBack(r.sample.pH, show, parse)
    requires ReadsBack(r.sample.TDS, show, parse)
    ensures ResolveNumber(ReportRow(r, show), Aliases(Latitude), parse) == ValueOrZero(r.sample.latitude)
    ensures ResolveNumber(ReportRow(r, show), Aliases(Longitude), parse) == ValueOrZero(r.sample.longitude)
    ensures ResolveNumber(ReportRow(r, show), Aliases(PH), parse) == ValueOrZero(r.sample.pH)
    ensures ResolveNumber(ReportRow(r, show), Aliases(DissolvedSolids), parse) == ValueOrZero(r.sample.TDS)
  {
    var row := ReportRow(r, show);
    assert ResolveNumber(row, Aliases(Latitude), parse) == ValueOrZero(r.sample.latitude) by {
      ReadBackMeasurement(r, show, parse, Latitude, r.sample.latitude);
    }
    assert ResolveNumber(row, Aliases(Longitude), parse) == ValueOrZero(r.sample.longitude) by {
      ReadBackMeasurement(r, show, parse, Longitude, r.sample.longitude);
    }
    assert ResolveNumber(row, Aliases(PH), parse) == ValueOrZero(r.sample.pH) by {
      ReadBackMeasurement(r, show, parse, PH, r.sample.pH);
    }
    assert ResolveNumber(row, Aliases(DissolvedSolids), parse) == ValueOrZero(r.sample.TDS) by {
      ReadBackMeasurement(r, show, parse, DissolvedSolids, r.sample.TDS);
    }
  }

  /** The four site measurements read back: each value, or 0 if absent. */
  lemma ReadBackSite(r: Scored, show: Formatter, parse: Parser)
    requires PlainFormatter(show) && PlainLabels(r, show)
    requires ReadsBack(r.sample.latitude, show, parse)
    requires ReadsBack(r.sample.longitude, show, parse)
    requires ReadsBack(r.sample.pH, show, parse)
    requires ReadsBack(r.sample.TDS, show, parse)
    ensures var s := MapRow(ReportRow(r, show), Analysis, parse);
      && s.latitude == Some(ValueOrZero(r.sample.latitude))
      && s.longitude == Some(ValueOrZero(r.sample.longitude))
      && s.pH == Some(ValueOrZero(r.sample.pH))
      && s.TDS == Some(ValueOrZero(r.sample.TDS))
  {
    ReportSiteResolves(r, show, parse);
    MappedSite(ReportRow(r, show), parse, r.sample);
  }

  /** One metal's report cell resolves to its concentration, or 0. */
  lemma ReportMetalResolves(r: Scored, show: Formatter, parse: Parser, m: Metal)
    requires PlainFormatter(show) && PlainLabels(r, show)
    requires ReadsBack(r.sample.Concentration(m), show, parse)
    ensures ResolveNumber(ReportRow(r, show), Aliases(MetalField(m)), parse) == ValueOrZero(r.sample.Concentration(m))
  {
    ReadBackMeasurement(r, show, parse, MetalField(m), r.sample.Concentration(m));
  }

  /** The nine metal concentrations read back: each value, or 0 if absent. */
  lemma ReadBackMetals(r: Scored, show: Formatter, parse: Parser)
    requires PlainFormatter(show) && PlainLabels(r, show)
    requires forall m :: ReadsBack(r.sample.Concentration(m), show, parse)
    ensures forall m :: MapRow(ReportRow(r, show), Analysis, parse).Concentration(m) == Some(ValueOrZero(r.sample.Concentration(m)))
  {
    var row := ReportRow(r, show);
    forall m ensures MapRow(row, Analysis, parse).Concentration(m) == Some(ValueOrZero(r.sample.Concentration(m))) {
      ReportMetalResolves(r, show, parse, m);
      MappedMetalIsResolved(row, Analysis, parse, m);
    }
  }

  /** Reading a report line back through the analysis normaliser recovers
      the printed labels as text, every printed measurement (an absent one
      as 0) and 0 for the conductivity the report leaves out. */
  lemma ReportRoundTrip(r: Scored, show: Formatter, parse: Parser)
    requires PlainFormatter(show) && PlainLabels(r, show)
    requires PrintedValuesReadBack(r, show, parse)
    ensures var s := MapRow(ReportRow(r, show), Analysis, parse);
      && s.sampleId == Str(LabelCell(r.sample.sampleId, show))
      && s.location == Str(LabelCell(r.sample.location, show))
      && s.latitude == Some(ValueOrZero(r.sample.latitude))
      && s.longitude == Some(ValueOrZero(r.sample.longitude))
      && s.pH == Some(ValueOrZero(r.sample.pH))
      && s.TDS == Some(ValueOrZero(r.sample.TDS))
      && s.EC == Some(0.0)
      && forall m :: s.Concentration(m) == Some(ValueOrZero(r.sample.Concentration(m)))
  {
    ReadBackLabels(r, show, parse);
    ReadBackConductivity(r, show, parse);
    ReadBackSite(r, show, parse);
    ReadBackMetals(r, show, parse);
  }

  /** Scoring a complete record, printing it, reading the line back and
      scoring again gives the same stored index and status. */
  lemma RescoringReportIsStable(s: Sample, show: Formatter, parse: Parser)
    requires Complete(s)
    requires PlainFormatter(show) && PlainLabels(ScoreOf(s), show)
    requires PrintedValuesReadBack(ScoreOf(s), show, parse)
    ensures var again := ScoreOf(MapRow(ReportRow(ScoreOf(s), show), Analysis, parse));
      again.calculatedHMPI == ScoreOf(s).calculatedHMPI && again.status == ScoreOf(s).status
  {
    var r := ScoreOf(s);
    var s' := MapRow(ReportRow(r, show), Analysis, parse);
    ReportRoundTrip(r, show, parse);
    forall m ensures s'.Concentration(m) == s.Concentration(m) {
      CompleteHasEveryMetal(s, m);
    }
    ScoreDependsOnlyOnMetals(s', s);
  }
}
