/** The CSV report the two report routes send: a fixed 17-column header
    line, then one line per scored record, joined with newlines. Cells are
    neither quoted nor escaped. */
module Report {
  import opened Values
  import opened Samples
  import opened Text

  /** The report's columns, in order. */
  const HeaderCells: seq<string> :=
    ["Sample ID", "Location", "Latitude", "Longitude", "pH", "TDS",
     "As", "Cd", "Cr", "Cu", "Fe", "Mn", "Ni", "Pb", "Zn",
     "Calculated HMPI", "Status"]

  /** The header line: the columns joined with commas. */
  const HeaderLine: string := Join(HeaderCells, ',')

  /** `${v || ''}` for a label. */
  function LabelCell(v: Raw, show: Formatter): string
  {
    if Truthy(v) then TextOf(v, show) else ""
  }

  /** A falsy label leaves its cell empty, text is printed as it is, and
      no other truthy value prints as empty. */
  lemma LabelCellText(v: Raw, show: Formatter)
    ensures !Truthy(v) ==> LabelCell(v, show) == ""
    ensures v.Str? ==> LabelCell(v, show) == v.s
    ensures Truthy(v) && !v.Num? ==> LabelCell(v, show) != ""
  {
  }

  /** JS truthiness of a measurement field: undefined and 0 are falsy. */
  predicate NumberTruthy(v: Option<real>)
  {
    v.Some? && v.value != 0.0
  }

  /** The JS value a measurement field holds: `undefined` or a number. */
  function JsValue(v: Option<real>): Raw
  {
    match v
    case None => Missing
    case Some(x) => Num(x)
  }

  /** `${x || ''}` for a measurement: the same template as for a label,
      applied to the field's JS value. */
  function NumberCell(v: Option<real>, show: Formatter): (cell: string)
    ensures cell == LabelCell(JsValue(v), show)
  {
    if NumberTruthy(v) then show(v.value) else ""
  }

  /** The cells of one record's line, in header order; the stored index
      and the status are printed whatever their value. */
  function Cells(r: Scored, show: Formatter): (cells: seq<string>)
    ensures |cells| == |HeaderCells|
  {
    var s := r.sample;
    [LabelCell(s.sampleId, show), LabelCell(s.location, show),
     NumberCell(s.latitude, show), NumberCell(s.longitude, show),
     NumberCell(s.pH, show), NumberCell(s.TDS, show),
     NumberCell(s.As, show), NumberCell(s.Cd, show), NumberCell(s.Cr, show),
     NumberCell(s.Cu, show), NumberCell(s.Fe, show), NumberCell(s.Mn, show),
     NumberCell(s.Ni, show), NumberCell(s.Pb, show), NumberCell(s.Zn, show),
     show(r.calculatedHMPI), StatusText(r.status)]
  }

  /** One record's line. Whatever its labels hold, it reads back as at
      least as many comma-separated fields as the header has. */
  function Line(r: Scored, show: Formatter): (line: string)
    ensures |Split(line, ',')| >= |HeaderCells|
  {
    JoinSplitsIntoAtLeast(Cells(r, show), ',');
    Join(Cells(r, show), ',')
  }

  function Lines(rs: seq<Scored>, show: Formatter): (lines: seq<string>)
    ensures |lines| == |rs|
  {
    seq(|rs|, i requires 0 <= i < |rs| => Line(rs[i], show))
  }

  /** `csvHeader + csvContent`: the header line ends in a newline, the
      record lines are joined with newlines. Every report, the empty one
      included, starts with the header line, and it reads back as at least
      one line more than there are records. */
  function Render(rs: seq<Scored>, show: Formatter): (csv: string)
    ensures |csv| > |HeaderLine| && csv[..|HeaderLine| + 1] == HeaderLine + "\n"
    ensures |Split(csv, '\n')| >= |rs| + 1
  {
    var body := Join(Lines(rs, show), '\n');
    JoinSplitsIntoAtLeast(Lines(rs, show), '\n');
    OccurrencesAppend(HeaderLine + "\n", body, '\n');
    OccurrencesAppend(HeaderLine, "\n", '\n');
    HeaderLine + "\n" + body
  }

  /** Text that can sit in a cell and come back unchanged from a CSV
      reader: no comma or newline, which would split the row or the line,
      and no double quote, which the reader would take as quoting. */
  predicate Plain(text: string)
  {
    ',' !in text && '\n' !in text && '"' !in text
  }

  /** A number formatter as JS has one: never empty, never a comma, a
      newline or a quote. */
  ghost predicate PlainFormatter(show: Formatter)
  {
    forall x :: show(x) != "" && Plain(show(x))
  }

  /** A record whose labels print as `Plain` text. */
  predicate PlainLabels(r: Scored, show: Formatter)
  {
    Plain(LabelCell(r.sample.sampleId, show)) && Plain(LabelCell(r.sample.location, show))
  }

  /** A number formatter that never prints the character `c`. */
  ghost predicate ShowsNo(show: Formatter, c: char)
  {
    forall x :: c !in show(x)
  }

  /** A record whose two label cells do not hold the character `c`. */
  predicate LabelsWithout(r: Scored, show: Formatter, c: char)
  {
    c !in LabelCell(r.sample.sampleId, show) && c !in LabelCell(r.sample.location, show)
  }

  lemma HeaderCellsArePlain()
    ensures forall i | 0 <= i < |HeaderCells| :: Plain(HeaderCells[i])
  {
    forall i | 0 <= i < |HeaderCells| ensures Plain(HeaderCells[i]) {
      assert forall c | c in HeaderCells[i] :: c != ',' && c != '\n' && c != '"';
    }
  }

  /** Splitting the header line on commas gives its 17 columns. */
  lemma HeaderColumns()
    ensures Split(HeaderLine, ',') == HeaderCells
  {
    HeaderCellsArePlain();
    SplitJoin(HeaderCells, ',');
  }

  /** A comma or a newline appears in no cell of a record's line when
      neither the formatter nor the labels print it. */
  lemma CellsWithout(r: Scored, show: Formatter, c: char)
    requires c == ',' || c == '\n'
    requires ShowsNo(show, c) && LabelsWithout(r, show, c)
    ensures forall k | 0 <= k < |HeaderCells| :: c !in Cells(r, show)[k]
  {
    var s := r.sample;
    NumberCellWithout(s.latitude, show, c);
    NumberCellWithout(s.longitude, show, c);
    NumberCellWithout(s.pH, show, c);
    NumberCellWithout(s.TDS, show, c);
    NumberCellWithout(s.As, show, c);
    NumberCellWithout(s.Cd, show, c);
    NumberCellWithout(s.Cr, show, c);
    NumberCellWithout(s.Cu, show, c);
    NumberCellWithout(s.Fe, show, c);
    NumberCellWithout(s.Mn, show, c);
    NumberCellWithout(s.Ni, show, c);
    NumberCellWithout(s.Pb, show, c);
    NumberCellWithout(s.Zn, show, c);
    StatusTextPlain(r.status);
    assert c !in show(r.calculatedHMPI);
  }

  lemma NumberCellWithout(v: Option<real>, show: Formatter, c: char)
    requires ShowsNo(show, c)
    ensures c !in NumberCell(v, show)
  {
    if NumberTruthy(v) {
      assert c !in show(v.value);
    }
  }

  lemma StatusTextPlain(st: Status)
    ensures Plain(StatusText(st)) && StatusText(st) != ""
  {
    match st
    case Safe => {}
    case ModerateRisk => {}
    case HighRisk => {}
  }

  /** A record line has 17 fields, and splitting it on commas gives back
      exactly its cells, when neither its labels nor the formatter print a
      comma or a newline (a quote does no harm to the split). */
  lemma LineSplitsIntoCells(r: Scored, show: Formatter)
    requires ShowsNo(show, ',') && ShowsNo(show, '\n')
    requires LabelsWithout(r, show, ',') && LabelsWithout(r, show, '\n')
    ensures Split(Line(r, show), ',') == Cells(r, show)
    ensures |Split(Line(r, show), ',')| == 17
    ensures '\n' !in Line(r, show)
  {
    CellsWithout(r, show, ',');
    CellsWithout(r, show, '\n');
    SplitJoin(Cells(r, show), ',');
    JoinAvoids(Cells(r, show), ',', '\n');
  }

  /** The report is the header line followed by exactly one line per
      record, in order (an empty batch leaves the header's newline with
      nothing after it), when neither the labels nor the formatter print a
      newline; commas and quotes in a label do not matter here. */
  lemma RenderSplitsIntoLines(rs: seq<Scored>, show: Formatter)
    requires ShowsNo(show, '\n')
    requires forall i | 0 <= i < |rs| :: LabelsWithout(rs[i], show, '\n')
    ensures Split(Render(rs, show), '\n') == [HeaderLine] + (if rs == [] then [""] else Lines(rs, show))
  {
    var lines := Lines(rs, show);
    assert '\n' !in HeaderLine by {
      HeaderCellsArePlain();
      JoinAvoids(HeaderCells, ',', '\n');
    }
    forall i | 0 <= i < |lines| ensures '\n' !in lines[i] {
      CellsWithout(rs[i], show, '\n');
      JoinAvoids(Cells(rs[i], show), ',', '\n');
    }
    SplitAfterFirst(HeaderLine, lines, '\n');
  }

  /** Each of the first 15 cells is empty exactly when its field is falsy;
      the stored index and the status are never empty. */
  lemma BlankCells(r: Scored, show: Formatter)
    requires forall x :: show(x) != ""
    ensures Cells(r, show)[0] == "" <==> !Truthy(r.sample.sampleId)
    ensures Cells(r, show)[1] == "" <==> !Truthy(r.sample.location)
    ensures Cells(r, show)[2] == "" <==> !NumberTruthy(r.sample.latitude)
    ensures Cells(r, show)[3] == "" <==> !NumberTruthy(r.sample.longitude)
    ensures Cells(r, show)[4] == "" <==> !NumberTruthy(r.sample.pH)
    ensures Cells(r, show)[5] == "" <==> !NumberTruthy(r.sample.TDS)
    ensures forall m :: Cells(r, show)[MetalColumn(m)] == "" <==> !NumberTruthy(r.sample.Concentration(m))
    ensures Cells(r, show)[15] != "" && Cells(r, show)[16] != ""
  {
    OuterCells(r, show);
    SiteCells(r, show);
    LabelBlank(r.sample.sampleId, show);
    LabelBlank(r.sample.location, show);
    StatusTextPlain(r.status);
    forall m ensures Cells(r, show)[MetalColumn(m)] == NumberCell(r.sample.Concentration(m), show) {
      MetalCell(r, show, m);
    }
  }

  /** With a formatter that never prints an empty string, a label cell is
      empty exactly when the label is falsy. */
  lemma LabelBlank(v: Raw, show: Formatter)
    requires forall x :: show(x) != ""
    ensures LabelCell(v, show) == "" <==> !Truthy(v)
  {
    if v.Num? {
      assert show(v.x) != "";
    }
  }

  /** The column that holds a metal's concentration. */
  function MetalColumn(m: Metal): (k: nat)
    ensures 6 <= k < 15
  {
    match m
    case Arsenic => 6
    case Cadmium => 7
    case Chromium => 8
    case Copper => 9
    case Iron => 10
    case Manganese => 11
    case Nickel => 12
    case Lead => 13
    case Zinc => 14
  }

  /** Columns 2 to 5 hold latitude, longitude, pH and TDS. */
  lemma SiteCells(r: Scored, show: Formatter)
    ensures Cells(r, show)[2] == NumberCell(r.sample.latitude, show)
    ensures Cells(r, show)[3] == NumberCell(r.sample.longitude, show)
    ensures Cells(r, show)[4] == NumberCell(r.sample.pH, show)
    ensures Cells(r, show)[5] == NumberCell(r.sample.TDS, show)
  {
  }

  /** Columns 0, 1, 15 and 16 hold the labels, the stored index and the
      status. */
  lemma OuterCells(r: Scored, show: Formatter)
    ensures Cells(r, show)[0] == LabelCell(r.sample.sampleId, show)
    ensures Cells(r, show)[1] == LabelCell(r.sample.location, show)
    ensures Cells(r, show)[15] == show(r.calculatedHMPI)
    ensures Cells(r, show)[16] == StatusText(r.status)
  {
  }

  lemma MetalCell(r: Scored, show: Formatter, m: Metal)
    ensures Cells(r, show)[MetalColumn(m)] == NumberCell(r.sample.Concentration(m), show)
  {
  }
}
