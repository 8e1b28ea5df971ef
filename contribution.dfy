/** models/contribution.rb: an individual contribution is a row of
    `individual_contributions`, and two of its one-letter codes are decoded
    into symbols. A code the decoder does not list decodes to nil. */
module Contribution {
  import opened Wrappers
  import opened Store
  import Importer

  datatype AmendmentKind = New | Amendment | Termination

  datatype ElectionType = Primary | General | Other | Convention | Runoff | Special | Recount

  /** The code each amendment kind is written as in the bulk files. */
  function AmendmentCode(k: AmendmentKind): string {
    match k
    case New => "N"
    case Amendment => "A"
    case Termination => "T"
  }

  /** The code each election type is written as in the bulk files. */
  function ElectionCode(e: ElectionType): string {
    match e
    case Primary => "P"
    case General => "G"
    case Other => "O"
    case Convention => "C"
    case Runoff => "R"
    case Special => "S"
    case Recount => "E"
  }

  /** The `case` over an amendment code. */
  function DecodeAmendment(v: Value): (r: Option<AmendmentKind>)
    ensures r.Some? ==> v == Str(AmendmentCode(r.value))
    ensures r.None? ==> forall k :: v != Str(AmendmentCode(k))
  {
    if v == Str("N") then Some(New)
    else if v == Str("A") then Some(Amendment)
    else if v == Str("T") then Some(Termination)
    else None
  }

  /** The `case` over an election code. */
  function DecodeElection(v: Value): (r: Option<ElectionType>)
    ensures r.Some? ==> v == Str(ElectionCode(r.value))
    ensures r.None? ==> forall e :: v != Str(ElectionCode(e))
  {
    if v == Str("P") then Some(Primary)
    else if v == Str("G") then Some(General)
    else if v == Str("O") then Some(Other)
    else if v == Str("C") then Some(Convention)
    else if v == Str("R") then Some(Runoff)
    else if v == Str("S") then Some(Special)
    else if v == Str("E") then Some(Recount)
    else None
  }

  /** The amendment decoder is the inverse of the code table: a value
      decodes to a kind exactly when it is that kind's code, so distinct
      codes give distinct kinds and every other value, NULL included,
      gives nil. */
  lemma AmendmentDecodesCodes(v: Value, k: AmendmentKind)
    ensures DecodeAmendment(v) == Some(k) <==> v == Str(AmendmentCode(k))
    ensures DecodeAmendment(Str(AmendmentCode(k))) == Some(k)
    ensures DecodeAmendment(v).None? <==> v !in {Str("N"), Str("A"), Str("T")}
  {
  }

  /** The election decoder is the inverse of its code table in the same way. */
  lemma ElectionDecodesCodes(v: Value, e: ElectionType)
    ensures DecodeElection(v) == Some(e) <==> v == Str(ElectionCode(e))
    ensures DecodeElection(Str(ElectionCode(e))) == Some(e)
    ensures DecodeElection(v).None? <==>
      v !in {Str("P"), Str("G"), Str("O"), Str("C"), Str("R"), Str("S"), Str("E")}
  {
  }

  /** Distinct kinds are written with distinct codes. */
  lemma CodesInjective(k: AmendmentKind, l: AmendmentKind, e: ElectionType, f: ElectionType)
    ensures AmendmentCode(k) == AmendmentCode(l) ==> k == l
    ensures ElectionCode(e) == ElectionCode(f) ==> e == f
  {
    AmendmentDecodesCodes(Str(AmendmentCode(k)), l);
    ElectionDecodesCodes(Str(ElectionCode(e)), f);
  }

  /** `amendment_indicator` as written: it reads the attribute `AMMDT_IND`. */
  function AmendmentIndicatorAsWritten(rec: Record): (r: Option<AmendmentKind>)
    ensures r.Some? ==> Attribute(Importer.IndividualContributionsSchema, rec, "AMMDT_IND") == Str(AmendmentCode(r.value))
  {
    DecodeAmendment(Attribute(Importer.IndividualContributionsSchema, rec, "AMMDT_IND"))
  }

  /** `amendment_indicator` reading the column the schema declares, `AMNDT_IND`. */
  function AmendmentIndicator(rec: Record): (r: Option<AmendmentKind>)
    ensures r.Some? ==> Attribute(Importer.IndividualContributionsSchema, rec, "AMNDT_IND") == Str(AmendmentCode(r.value))
    ensures r.None? ==> forall k :: Attribute(Importer.IndividualContributionsSchema, rec, "AMNDT_IND") != Str(AmendmentCode(k))
  {
    DecodeAmendment(Attribute(Importer.IndividualContributionsSchema, rec, "AMNDT_IND"))
  }

  /** `election_type`. */
  function ElectionTypeOf(rec: Record): (r: Option<ElectionType>)
    ensures r.Some? ==> Attribute(Importer.IndividualContributionsSchema, rec, "TRANSACTION_PGI") == Str(ElectionCode(r.value))
    ensures r.None? ==> forall e :: Attribute(Importer.IndividualContributionsSchema, rec, "TRANSACTION_PGI") != Str(ElectionCode(e))
  {
    DecodeElection(Attribute(Importer.IndividualContributionsSchema, rec, "TRANSACTION_PGI"))
  }

  /** The contributions table has no column `AMMDT_IND`, worked out column
      by column from the last. */
  lemma NoAmmdtColumn()
    ensures ColumnIndex(Importer.IndividualContributionsSchema, "AMMDT_IND").None?
  {
    var cols := Importer.IndividualContributionsSchema.columns;
    assert IndexFrom(cols, "AMMDT_IND", 21).None?;
    assert IndexFrom(cols, "AMMDT_IND", 20).None?;
    assert IndexFrom(cols, "AMMDT_IND", 19).None?;
    assert IndexFrom(cols, "AMMDT_IND", 18).None?;
    assert IndexFrom(cols, "AMMDT_IND", 17).None?;
    assert IndexFrom(cols, "AMMDT_IND", 16).None?;
    assert IndexFrom(cols, "AMMDT_IND", 15).None?;
    assert IndexFrom(cols, "AMMDT_IND", 14).None?;
    assert IndexFrom(cols, "AMMDT_IND", 13).None?;
    assert IndexFrom(cols, "AMMDT_IND", 12).None?;
    assert IndexFrom(cols, "AMMDT_IND", 11).None?;
    assert IndexFrom(cols, "AMMDT_IND", 10).None?;
    assert IndexFrom(cols, "AMMDT_IND", 9).None?;
    assert IndexFrom(cols, "AMMDT_IND", 8).None?;
    assert IndexFrom(cols, "AMMDT_IND", 7).None?;
    assert IndexFrom(cols, "AMMDT_IND", 6).None?;
    assert IndexFrom(cols, "AMMDT_IND", 5).None?;
    assert IndexFrom(cols, "AMMDT_IND", 4).None?;
    assert IndexFrom(cols, "AMMDT_IND", 3).None?;
    assert IndexFrom(cols, "AMMDT_IND", 2).None?;
    assert IndexFrom(cols, "AMMDT_IND", 1).None?;
    assert IndexFrom(cols, "AMMDT_IND", 0).None?;
  }

  /** As written, `amendment_indicator` is nil for every contribution. */
  lemma AmendmentIndicatorAsWrittenIsNil(rec: Record)
    ensures AmendmentIndicatorAsWritten(rec) == None
  {
    NoAmmdtColumn();
  }

  /** `AMNDT_IND` is the contributions table's second column. */
  lemma AmendmentColumn()
    ensures ColumnIndex(Importer.IndividualContributionsSchema, "AMNDT_IND") == Some(1)
  {
    var cols := Importer.IndividualContributionsSchema.columns;
    IndexHere(cols, "AMNDT_IND", 1);
    IndexSkip(cols, "AMNDT_IND", 0);
  }

  /** `TRANSACTION_PGI` is the contributions table's fourth column. */
  lemma ElectionColumn()
    ensures ColumnIndex(Importer.IndividualContributionsSchema, "TRANSACTION_PGI") == Some(3)
  {
    var cols := Importer.IndividualContributionsSchema.columns;
    IndexHere(cols, "TRANSACTION_PGI", 3);
    IndexSkip(cols, "TRANSACTION_PGI", 2);
    IndexSkip(cols, "TRANSACTION_PGI", 1);
    IndexSkip(cols, "TRANSACTION_PGI", 0);
  }

  /** On a stored contribution, `amendment_indicator` decodes the row's
      `AMNDT_IND` value: a kind exactly when the value is its code. */
  lemma AmendmentIndicatorMeaning(rec: Record, k: AmendmentKind)
    requires Fits(Importer.IndividualContributionsSchema, rec)
    ensures AmendmentIndicator(rec) == Some(k) <==> rec[1] == Str(AmendmentCode(k))
    ensures AmendmentIndicator(rec).None? <==> rec[1] !in {Str("N"), Str("A"), Str("T")}
  {
    AmendmentColumn();
    AmendmentDecodesCodes(rec[1], k);
  }

  /** On a stored contribution, `election_type` decodes the row's
      `TRANSACTION_PGI` value: a type exactly when the value is its code. */
  lemma ElectionTypeMeaning(rec: Record, e: ElectionType)
    requires Fits(Importer.IndividualContributionsSchema, rec)
    ensures ElectionTypeOf(rec) == Some(e) <==> rec[3] == Str(ElectionCode(e))
    ensures ElectionTypeOf(rec).None? <==>
      rec[3] !in {Str("P"), Str("G"), Str("O"), Str("C"), Str("R"), Str("S"), Str("E")}
  {
    ElectionColumn();
    ElectionDecodesCodes(rec[3], e);
  }

  /** A contribution marked as an amendment: the corrected reader reports
      the amendment, the reader as written reports nil. */
  lemma AmendmentMisread(rec: Record)
    requires Fits(Importer.IndividualContributionsSchema, rec) && rec[1] == Str("A")
    ensures AmendmentIndicator(rec) == Some(Amendment)
    ensures AmendmentIndicatorAsWritten(rec) == None
  {
    AmendmentIndicatorMeaning(rec, Amendment);
    AmendmentIndicatorAsWrittenIsNil(rec);
  }
}
