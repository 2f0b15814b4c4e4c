/** The canonical groundwater sample record (the fields of the stored
    GroundwaterData document), the nine tracked heavy metals with their
    standard concentrations, and the scored record the index adds to it. */
module Samples {
  import opened Values

  datatype Metal =
    | Arsenic | Cadmium | Chromium | Copper | Iron
    | Manganese | Nickel | Lead | Zinc

  /** The metals in the order the scorer visits its table of standards. */
  const Metals: seq<Metal> :=
    [Arsenic, Cadmium, Chromium, Copper, Iron, Manganese, Nickel, Lead, Zinc]

  /** Standard concentration of each metal in micrograms per litre. */
  function Standard(m: Metal): (s: real)
    ensures s >= 3.0
  {
    match m
    case Arsenic => 10.0
    case Cadmium => 3.0
    case Chromium => 50.0
    case Copper => 2000.0
    case Iron => 300.0
    case Manganese => 400.0
    case Nickel => 70.0
    case Lead => 10.0
    case Zinc => 3000.0
  }

  /** A sample record. Labels keep the raw value the row supplied; a numeric
      field is None when the record lacks it (`undefined` or `null`), which
      happens for records read back from the database. */
  datatype Sample = Sample(
    sampleId: Raw,
    location: Raw,
    longitude: Option<real>,
    latitude: Option<real>,
    pH: Option<real>,
    EC: Option<real>,
    TDS: Option<real>,
    As: Option<real>,
    Cd: Option<real>,
    Cr: Option<real>,
    Cu: Option<real>,
    Fe: Option<real>,
    Mn: Option<real>,
    Ni: Option<real>,
    Pb: Option<real>,
    Zn: Option<real>,
    heavyMetalIndex: Option<real>)
  {
    /** `sample[metal]` for a metal of the table. */
    function Concentration(m: Metal): Option<real>
    {
      match m
      case Arsenic => As
      case Cadmium => Cd
      case Chromium => Cr
      case Copper => Cu
      case Iron => Fe
      case Manganese => Mn
      case Nickel => Ni
      case Lead => Pb
      case Zinc => Zn
    }

    /** The same record with one metal's concentration set to `c`. */
    function WithConcentration(m: Metal, c: real): (s: Sample)
      ensures s.Concentration(m) == Some(c)
      ensures forall n :: n != m ==> s.Concentration(n) == Concentration(n)
    {
      match m
      case Arsenic => this.(As := Some(c))
      case Cadmium => this.(Cd := Some(c))
      case Chromium => this.(Cr := Some(c))
      case Copper => this.(Cu := Some(c))
      case Iron => this.(Fe := Some(c))
      case Manganese => this.(Mn := Some(c))
      case Nickel => this.(Ni := Some(c))
      case Lead => this.(Pb := Some(c))
      case Zinc => this.(Zn := Some(c))
    }
  }

  /** Every measurement field is present: what the row mapper produces. */
  predicate Complete(s: Sample)
  {
    && s.longitude.Some? && s.latitude.Some? && s.pH.Some? && s.EC.Some? && s.TDS.Some?
    && s.As.Some? && s.Cd.Some? && s.Cr.Some? && s.Cu.Some? && s.Fe.Some?
    && s.Mn.Some? && s.Ni.Some? && s.Pb.Some? && s.Zn.Some?
  }

  lemma CompleteHasEveryMetal(s: Sample, m: Metal)
    requires Complete(s)
    ensures s.Concentration(m).Some?
  {
  }

  datatype Status = Safe | ModerateRisk | HighRisk

  /** The status strings the scorer stores and the report prints. */
  function StatusText(st: Status): string
  {
    match st
    case Safe => "Safe"
    case ModerateRisk => "Moderate Risk"
    case HighRisk => "High Risk"
  }

  /** A sample with the two fields the scorer adds: `{...sample,
      calculatedHMPI, status}`. */
  datatype Scored = Scored(sample: Sample, calculatedHMPI: real, status: Status)
}
