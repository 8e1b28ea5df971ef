/** fec/importer.rb: the seven `CREATE TABLE IF NOT EXISTS` schemas of
    `setup_database`, the staging file `import` loads into its table, and
    `import_all`, which sets the schemas up and then loads every registry
    table in key order. */
module Importer {
  import opened Wrappers
  import opened Store
  import opened Tables
  import RowParser
  import Downloader

  /** A column with no constraint. */
  function Plain(name: string, t: ColType): Column { Column(name, t, false, false) }

  /** A `NOT NULL` column. */
  function Required(name: string, t: ColType): Column { Column(name, t, true, false) }

  /** A `NOT NULL UNIQUE` column. */
  function Key(name: string, t: ColType): Column { Column(name, t, true, true) }

  const ExpendituresSchema: Schema := Schema("expenditures", [
      Required("CMTE_ID", TextType),
      Plain("AMNDT_IND", TextType),
      Plain("RPT_YR", IntType),
      Plain("RPT_TP", TextType),
      Plain("IMAGE_NUM", TextType),
      Plain("LINE_NUM", TextType),
      Plain("FORM_TP_CD", TextType),
      Plain("SCHED_TP_CD", TextType),
      Plain("NAME", TextType),
      Plain("CITY", TextType),
      Plain("STATE", TextType),
      Plain("ZIP_CODE", TextType),
      Plain("TRANSACTION_DT", DateType),
      Plain("TRANSACTION_AMT", NumberType),
      Plain("TRANSACTION_PGI", TextType),
      Plain("PURPOSE", TextType),
      Plain("CATEGORY", TextType),
      Plain("CATEGORY_DESC", TextType),
      Plain("MEMO_CD", TextType),
      Plain("MEMO_TEXT", TextType),
      Plain("ENTITY_TP", TextType),
      Key("SUB_ID", IntegerType),
      Plain("FILE_NUM", IntegerType),
      Plain("TRAN_ID", TextType),
      Plain("BACK_REF_TRAN_ID", TextType)])

  const CommitteesSchema: Schema := Schema("committees", [
      Key("CMTE_ID", TextType),
      Plain("CMTE_NM", TextType),
      Plain("TRES_NM", TextType),
      Plain("CMTE_ST1", TextType),
      Plain("CMTE_ST2", TextType),
      Plain("CMTE_CITY", TextType),
      Plain("CMTE_ST", TextType),
      Plain("CMTE_ZIP", TextType),
      Plain("CMTE_DSGN", TextType),
      Plain("CMTE_TP", TextType),
      Plain("CMTE_PTY_AFFILIATION", TextType),
      Plain("CMTE_FILING_FREQ", TextType),
      Plain("ORG_TP", TextType),
      Plain("CONNECTED_ORG_NM", TextType),
      Plain("CAND_ID", TextType)])

  const CandidatesSchema: Schema := Schema("candidates", [
      Required("CAND_ID", TextType),
      Plain("CAND_NAME", TextType),
      Plain("CAND_PTY_AFFILIATION", TextType),
      Plain("CAND_ELECTION_YR", TextType),
      Plain("CAND_OFFICE_ST", TextType),
      Plain("CAND_OFFICE", TextType),
      Plain("CAND_OFFICE_DISTRICT", TextType),
      Plain("CAND_ICI", TextType),
      Plain("CAND_STATUS", TextType),
      Plain("CAND_PCC", TextType),
      Plain("CAND_ST1", TextType),
      Plain("CAND_ST2", TextType),
      Plain("CAND_CITY", TextType),
      Plain("CAND_ST", TextType),
      Plain("CAND_ZIP", TextType)])

  const LinkagesSchema: Schema := Schema("linkages", [
      Required("CAND_ID", TextType),
      Plain("CAND_ELECTION_YR", IntType),
      Plain("FEC_ELECTION_YR", IntType),
      Plain("CMTE_ID", TextType),
      Plain("CMTE_TP", TextType),
      Plain("CMTE_DSGN", TextType),
      Required("LINKAGE_ID", IntegerType)])

  const IndividualContributionsSchema: Schema := Schema("individual_contributions", [
      Required("CMTE_ID", TextType),
      Plain("AMNDT_IND", TextType),
      Plain("RPT_TP", TextType),
      Plain("TRANSACTION_PGI", TextType),
      Plain("IMAGE_NUM", TextType),
      Plain("TRANSACTION_TP", TextType),
      Plain("ENTITY_TP", TextType),
      Plain("NAME", TextType),
      Plain("CITY", TextType),
      Plain("STATE", TextType),
      Plain("ZIP_CODE", TextType),
      Plain("EMPLOYER", TextType),
      Plain("OCCUPATION", TextType),
      Plain("TRANSACTION_DT", DateType),
      Plain("TRANSACTION_AMT", NumberType),
      Plain("OTHER_ID", TextType),
      Plain("TRAN_ID", TextType),
      Plain("FILE_NUM", TextType),
      Plain("MEMO_CD", TextType),
      Plain("MEMO_TEXT", TextType),
      Key("SUB_ID", IntegerType)])

  const CommitteeContributionsSchema: Schema := Schema("committee_contributions", [
      Required("CMTE_ID", TextType),
      Plain("AMNDT_IND", TextType),
      Plain("RPT_TP", TextType),
      Plain("TRANSACTION_PGI", TextType),
      Plain("IMAGE_NUM", TextType),
      Plain("TRANSACTION_TP", TextType),
      Plain("ENTITY_TP", TextType),
      Plain("NAME", TextType),
      Plain("CITY", TextType),
      Plain("STATE", TextType),
      Plain("ZIP_CODE", TextType),
      Plain("EMPLOYER", TextType),
      Plain("OCCUPATION", TextType),
      Plain("TRANSACTION_DT", DateType),
      Plain("TRANSACTION_AMT", NumberType),
      Plain("OTHER_ID", TextType),
      Plain("CAND_ID", TextType),
      Plain("TRAN_ID", TextType),
      Plain("FILE_NUM", TextType),
      Plain("MEMO_CD", TextType),
      Plain("MEMO_TEXT", TextType),
      Key("SUB_ID", IntegerType)])

  const TransactionsSchema: Schema := Schema("transactions", [
      Required("CMTE_ID", TextType),
      Plain("AMNDT_IND", TextType),
      Plain("RPT_TP", TextType),
      Plain("TRANSACTION_PGI", TextType),
      Plain("IMAGE_NUM", TextType),
      Plain("TRANSACTION_TP", TextType),
      Plain("ENTITY_TP", TextType),
      Plain("NAME", TextType),
      Plain("CITY", TextType),
      Plain("STATE", TextType),
      Plain("ZIP_CODE", TextType),
      Plain("EMPLOYER", TextType),
      Plain("OCCUPATION", TextType),
      Plain("TRANSACTION_DT", DateType),
      Plain("TRANSACTION_AMT", NumberType),
      Plain("OTHER_ID", TextType),
      Plain("TRAN_ID", TextType),
      Plain("FILE_NUM", IntegerType),
      Plain("MEMO_CD", TextType),
      Plain("MEMO_TEXT", TextType),
      Key("SUB_ID", IntegerType)])

  /** The schemas in the order `setup_database` creates them. */
  const AllSchemas: seq<Schema> := [
    ExpendituresSchema, CommitteesSchema, CandidatesSchema, LinkagesSchema,
    IndividualContributionsSchema, CommitteeContributionsSchema, TransactionsSchema]

  /** The names of the columns, from `i` on, that carry a NOT NULL
      (`unique` false) or a UNIQUE (`unique` true) constraint, in order. */
  function ConstrainedFrom(cols: seq<Column>, unique: bool, i: nat): seq<string>
    requires i <= |cols|
    decreases |cols| - i
  {
    if i == |cols| then []
    else
      (if Constrained(cols[i], unique) then [cols[i].name] else [])
      + ConstrainedFrom(cols, unique, i + 1)
  }

  predicate Constrained(c: Column, unique: bool) {
    if unique then c.unique else c.notNull
  }

  /** A name is listed exactly when some column from `i` on has that name
      and carries the constraint. */
  lemma {:induction false} ConstrainedFromMeaning(cols: seq<Column>, unique: bool, i: nat)
    requires i <= |cols|
    ensures forall n :: n in ConstrainedFrom(cols, unique, i) <==>
      exists k :: i <= k < |cols| && cols[k].name == n && Constrained(cols[k], unique)
    decreases |cols| - i
  {
    if i < |cols| {
      ConstrainedFromMeaning(cols, unique, i + 1);
    }
  }

  function NotNullColumns(s: Schema): seq<string> { ConstrainedFrom(s.columns, false, 0) }

  function UniqueColumns(s: Schema): seq<string> { ConstrainedFrom(s.columns, true, 0) }

  /** Each schema's width and exactly which of its columns are NOT NULL and
      which UNIQUE, worked out column by column from the last. */
  lemma ExpendituresNotNull()
    ensures |ExpendituresSchema.columns| == 25
    ensures NotNullColumns(ExpendituresSchema) == ["CMTE_ID", "SUB_ID"]
  {
    var cols := ExpendituresSchema.columns;
    assert ConstrainedFrom(cols, false, 24) == [];
    assert ConstrainedFrom(cols, false, 23) == [];
    assert ConstrainedFrom(cols, false, 22) == [];
    assert ConstrainedFrom(cols, false, 21) == ["SUB_ID"];
    assert ConstrainedFrom(cols, false, 20) == ["SUB_ID"];
    assert ConstrainedFrom(cols, false, 19) == ["SUB_ID"];
    assert ConstrainedFrom(cols, false, 18) == ["SUB_ID"];
    assert ConstrainedFrom(cols, false, 17) == ["SUB_ID"];
    assert ConstrainedFrom(cols, false, 16) == ["SUB_ID"];
    assert ConstrainedFrom(cols, false, 15) == ["SUB_ID"];
    assert ConstrainedFrom(cols, false, 14) == ["SUB_ID"];
    assert ConstrainedFrom(cols, false, 13) == ["SUB_ID"];
    assert ConstrainedFrom(cols, false, 12) == ["SUB_ID"];
    assert ConstrainedFrom(cols, false, 11) == ["SUB_ID"];
    assert ConstrainedFrom(cols, false, 10) == ["SUB_ID"];
    assert ConstrainedFrom(cols, false, 9) == ["SUB_ID"];
    assert ConstrainedFrom(cols, false, 8) == ["SUB_ID"];
    assert ConstrainedFrom(cols, false, 7) == ["SUB_ID"];
    assert ConstrainedFrom(cols, false, 6) == ["SUB_ID"];
    assert ConstrainedFrom(cols, false, 5) == ["SUB_ID"];
    assert ConstrainedFrom(cols, false, 4) == ["SUB_ID"];
    assert ConstrainedFrom(cols, false, 3) == ["SUB_ID"];
    assert ConstrainedFrom(cols, false, 2) == ["SUB_ID"];
    assert ConstrainedFrom(cols, false, 1) == ["SUB_ID"];
    assert ConstrainedFrom(cols, false, 0) == ["CMTE_ID", "SUB_ID"];
  }

  lemma ExpendituresUnique()
    ensures UniqueColumns(ExpendituresSchema) == ["SUB_ID"]
  {
    var cols := ExpendituresSchema.columns;
    assert ConstrainedFrom(cols, true, 24) == [];
    assert ConstrainedFrom(cols, true, 23) == [];
    assert ConstrainedFrom(cols, true, 22) == [];
    assert ConstrainedFrom(cols, true, 21) == ["SUB_ID"];
    assert ConstrainedFrom(cols, true, 20) == ["SUB_ID"];
    assert ConstrainedFrom(cols, true, 19) == ["SUB_ID"];
    assert ConstrainedFrom(cols, true, 18) == ["SUB_ID"];
    assert ConstrainedFrom(cols, true, 17) == ["SUB_ID"];
    assert ConstrainedFrom(cols, true, 16) == ["SUB_ID"];
    assert ConstrainedFrom(cols, true, 15) == ["SUB_ID"];
    assert ConstrainedFrom(cols, true, 14) == ["SUB_ID"];
    assert ConstrainedFrom(cols, true, 13) == ["SUB_ID"];
    assert ConstrainedFrom(cols, true, 12) == ["SUB_ID"];
    assert ConstrainedFrom(cols, true, 11) == ["SUB_ID"];
    assert ConstrainedFrom(cols, true, 10) == ["SUB_ID"];
    assert ConstrainedFrom(cols, true, 9) == ["SUB_ID"];
    assert ConstrainedFrom(cols, true, 8) == ["SUB_ID"];
    assert ConstrainedFrom(cols, true, 7) == ["SUB_ID"];
    assert ConstrainedFrom(cols, true, 6) == ["SUB_ID"];
    assert ConstrainedFrom(cols, true, 5) == ["SUB_ID"];
    assert ConstrainedFrom(cols, true, 4) == ["SUB_ID"];
    assert ConstrainedFrom(cols, true, 3) == ["SUB_ID"];
    assert ConstrainedFrom(cols, true, 2) == ["SUB_ID"];
    assert ConstrainedFrom(cols, true, 1) == ["SUB_ID"];
    assert ConstrainedFrom(cols, true, 0) == ["SUB_ID"];
  }

  lemma CommitteesNotNull()
    ensures |CommitteesSchema.columns| == 15
    ensures NotNullColumns(CommitteesSchema) == ["CMTE_ID"]
  {
    var cols := CommitteesSchema.columns;
    assert ConstrainedFrom(cols, false, 14) == [];
    assert ConstrainedFrom(cols, false, 13) == [];
    assert ConstrainedFrom(cols, false, 12) == [];
    assert ConstrainedFrom(cols, false, 11) == [];
    assert ConstrainedFrom(cols, false, 10) == [];
    assert ConstrainedFrom(cols, false, 9) == [];
    assert ConstrainedFrom(cols, false, 8) == [];
    assert ConstrainedFrom(cols, false, 7) == [];
    assert ConstrainedFrom(cols, false, 6) == [];
    assert ConstrainedFrom(cols, false, 5) == [];
    assert ConstrainedFrom(cols, false, 4) == [];
    assert ConstrainedFrom(cols, false, 3) == [];
    assert ConstrainedFrom(cols, false, 2) == [];
    assert ConstrainedFrom(cols, false, 1) == [];
    assert ConstrainedFrom(cols, false, 0) == ["CMTE_ID"];
  }

  lemma CommitteesUnique()
    ensures UniqueColumns(CommitteesSchema) == ["CMTE_ID"]
  {
    var cols := CommitteesSchema.columns;
    assert ConstrainedFrom(cols, true, 14) == [];
    assert ConstrainedFrom(cols, true, 13) == [];
    assert ConstrainedFrom(cols, true, 12) == [];
    assert ConstrainedFrom(cols, true, 11) == [];
    assert ConstrainedFrom(cols, true, 10) == [];
    assert ConstrainedFrom(cols, true, 9) == [];
    assert ConstrainedFrom(cols, true, 8) == [];
    assert ConstrainedFrom(cols, true, 7) == [];
    assert ConstrainedFrom(cols, true, 6) == [];
    assert ConstrainedFrom(cols, true, 5) == [];
    assert ConstrainedFrom(cols, true, 4) == [];
    assert ConstrainedFrom(cols, true, 3) == [];
    assert ConstrainedFrom(cols, true, 2) == [];
    assert ConstrainedFrom(cols, true, 1) == [];
    assert ConstrainedFrom(cols, true, 0) == ["CMTE_ID"];
  }

  lemma CandidatesNotNull()
    ensures |CandidatesSchema.columns| == 15
    ensures NotNullColumns(CandidatesSchema) == ["CAND_ID"]
  {
    var cols := CandidatesSchema.columns;
    assert ConstrainedFrom(cols, false, 14) == [];
    assert ConstrainedFrom(cols, false, 13) == [];
    assert ConstrainedFrom(cols, false, 12) == [];
    assert ConstrainedFrom(cols, false, 11) == [];
    assert ConstrainedFrom(cols, false, 10) == [];
    assert ConstrainedFrom(cols, false, 9) == [];
    assert ConstrainedFrom(cols, false, 8) == [];
    assert ConstrainedFrom(cols, false, 7) == [];
    assert ConstrainedFrom(cols, false, 6) == [];
    assert ConstrainedFrom(cols, false, 5) == [];
    assert ConstrainedFrom(cols, false, 4) == [];
    assert ConstrainedFrom(cols, false, 3) == [];
    assert ConstrainedFrom(cols, false, 2) == [];
    assert ConstrainedFrom(cols, false, 1) == [];
    assert ConstrainedFrom(cols, false, 0) == ["CAND_ID"];
  }

  lemma CandidatesUnique()
    ensures UniqueColumns(CandidatesSchema) == []
  {
    var cols := CandidatesSchema.columns;
    assert ConstrainedFrom(cols, true, 14) == [];
    assert ConstrainedFrom(cols, true, 13) == [];
    assert ConstrainedFrom(cols, true, 12) == [];
    assert ConstrainedFrom(cols, true, 11) == [];
    assert ConstrainedFrom(cols, true, 10) == [];
    assert ConstrainedFrom(cols, true, 9) == [];
    assert ConstrainedFrom(cols, true, 8) == [];
    assert ConstrainedFrom(cols, true, 7) == [];
    assert ConstrainedFrom(cols, true, 6) == [];
    assert ConstrainedFrom(cols, true, 5) == [];
    assert ConstrainedFrom(cols, true, 4) == [];
    assert ConstrainedFrom(cols, true, 3) == [];
    assert ConstrainedFrom(cols, true, 2) == [];
    assert ConstrainedFrom(cols, true, 1) == [];
    assert ConstrainedFrom(cols, true, 0) == [];
  }

  lemma LinkagesNotNull()
    ensures |LinkagesSchema.columns| == 7
    ensures NotNullColumns(LinkagesSchema) == ["CAND_ID", "LINKAGE_ID"]
  {
    var cols := LinkagesSchema.columns;
    assert ConstrainedFrom(cols, false, 6) == ["LINKAGE_ID"];
    assert ConstrainedFrom(cols, false, 5) == ["LINKAGE_ID"];
    assert ConstrainedFrom(cols, false, 4) == ["LINKAGE_ID"];
    assert ConstrainedFrom(cols, false, 3) == ["LINKAGE_ID"];
    assert ConstrainedFrom(cols, false, 2) == ["LINKAGE_ID"];
    assert ConstrainedFrom(cols, false, 1) == ["LINKAGE_ID"];
    assert ConstrainedFrom(cols, false, 0) == ["CAND_ID", "LINKAGE_ID"];
  }

  lemma LinkagesUnique()
    ensures UniqueColumns(LinkagesSchema) == []
  {
    var cols := LinkagesSchema.columns;
    assert ConstrainedFrom(cols, true, 6) == [];
    assert ConstrainedFrom(cols, true, 5) == [];
    assert ConstrainedFrom(cols, true, 4) == [];
    assert ConstrainedFrom(cols, true, 3) == [];
    assert ConstrainedFrom(cols, true, 2) == [];
    assert ConstrainedFrom(cols, true, 1) == [];
    assert ConstrainedFrom(cols, true, 0) == [];
  }

  lemma IndividualContributionsNotNull()
    ensures |IndividualContributionsSchema.columns| == 21
    ensures NotNullColumns(IndividualContributionsSchema) == ["CMTE_ID", "SUB_ID"]
  {
    var cols := IndividualContributionsSchema.columns;
    assert ConstrainedFrom(cols, false, 20) == ["SUB_ID"];
    assert ConstrainedFrom(cols, false, 19) == ["SUB_ID"];
    assert ConstrainedFrom(cols, false, 18) == ["SUB_ID"];
    assert ConstrainedFrom(cols, false, 17) == ["SUB_ID"];
    assert ConstrainedFrom(cols, false, 16) == ["SUB_ID"];
    assert ConstrainedFrom(cols, false, 15) == ["SUB_ID"];
    assert ConstrainedFrom(cols, false, 14) == ["SUB_ID"];
    assert ConstrainedFrom(cols, false, 13) == ["SUB_ID"];
    assert ConstrainedFrom(cols, false, 12) == ["SUB_ID"];
    assert ConstrainedFrom(cols, false, 11) == ["SUB_ID"];
    assert ConstrainedFrom(cols, false, 10) == ["SUB_ID"];
    assert ConstrainedFrom(cols, false, 9) == ["SUB_ID"];
    assert ConstrainedFrom(cols, false, 8) == ["SUB_ID"];
    assert ConstrainedFrom(cols, false, 7) == ["SUB_ID"];
    assert ConstrainedFrom(cols, false, 6) == ["SUB_ID"];
    assert ConstrainedFrom(cols, false, 5) == ["SUB_ID"];
    assert ConstrainedFrom(cols, false, 4) == ["SUB_ID"];
    assert ConstrainedFrom(cols, false, 3) == ["SUB_ID"];
    assert ConstrainedFrom(cols, false, 2) == ["SUB_ID"];
    assert ConstrainedFrom(cols, false, 1) == ["SUB_ID"];
    assert ConstrainedFrom(cols, false, 0) == ["CMTE_ID", "SUB_ID"];
  }

  lemma IndividualContributionsUnique()
    ensures UniqueColumns(IndividualContributionsSchema) == ["SUB_ID"]
  {
    var cols := IndividualContributionsSchema.columns;
    assert ConstrainedFrom(cols, true, 20) == ["SUB_ID"];
    assert ConstrainedFrom(cols, true, 19) == ["SUB_ID"];
    assert ConstrainedFrom(cols, true, 18) == ["SUB_ID"];
    assert ConstrainedFrom(cols, true, 17) == ["SUB_ID"];
    assert ConstrainedFrom(cols, true, 16) == ["SUB_ID"];
    assert ConstrainedFrom(cols, true, 15) == ["SUB_ID"];
    assert ConstrainedFrom(cols, true, 14) == ["SUB_ID"];
    assert ConstrainedFrom(cols, true, 13) == ["SUB_ID"];
    assert ConstrainedFrom(cols, true, 12) == ["SUB_ID"];
    assert ConstrainedFrom(cols, true, 11) == ["SUB_ID"];
    assert ConstrainedFrom(cols, true, 10) == ["SUB_ID"];
    assert ConstrainedFrom(cols, true, 9) == ["SUB_ID"];
    assert ConstrainedFrom(cols, true, 8) == ["SUB_ID"];
    assert ConstrainedFrom(cols, true, 7) == ["SUB_ID"];
    assert ConstrainedFrom(cols, true, 6) == ["SUB_ID"];
    assert ConstrainedFrom(cols, true, 5) == ["SUB_ID"];
    assert ConstrainedFrom(cols, true, 4) == ["SUB_ID"];
    assert ConstrainedFrom(cols, true, 3) == ["SUB_ID"];
    assert ConstrainedFrom(cols, true, 2) == ["SUB_ID"];
    assert ConstrainedFrom(cols, true, 1) == ["SUB_ID"];
    assert ConstrainedFrom(cols, true, 0) == ["SUB_ID"];
  }

  lemma CommitteeContributionsNotNull()
    ensures |CommitteeContributionsSchema.columns| == 22
    ensures NotNullColumns(CommitteeContributionsSchema) == ["CMTE_ID", "SUB_ID"]
  {
    var cols := CommitteeContributionsSchema.columns;
    assert ConstrainedFrom(cols, false, 21) == ["SUB_ID"];
    assert ConstrainedFrom(cols, false, 20) == ["SUB_ID"];
    assert ConstrainedFrom(cols, false, 19) == ["SUB_ID"];
    assert ConstrainedFrom(cols, false, 18) == ["SUB_ID"];
    assert ConstrainedFrom(cols, false, 17) == ["SUB_ID"];
    assert ConstrainedFrom(cols, false, 16) == ["SUB_ID"];
    assert ConstrainedFrom(cols, false, 15) == ["SUB_ID"];
    assert ConstrainedFrom(cols, false, 14) == ["SUB_ID"];
    assert ConstrainedFrom(cols, false, 13) == ["SUB_ID"];
    assert ConstrainedFrom(cols, false, 12) == ["SUB_ID"];
    assert ConstrainedFrom(cols, false, 11) == ["SUB_ID"];
    assert ConstrainedFrom(cols, false, 10) == ["SUB_ID"];
    assert ConstrainedFrom(cols, false, 9) == ["SUB_ID"];
    assert ConstrainedFrom(cols, false, 8) == ["SUB_ID"];
    assert ConstrainedFrom(cols, false, 7) == ["SUB_ID"];
    assert ConstrainedFrom(cols, false, 6) == ["SUB_ID"];
    assert ConstrainedFrom(cols, false, 5) == ["SUB_ID"];
    assert ConstrainedFrom(cols, false, 4) == ["SUB_ID"];
    assert ConstrainedFrom(cols, false, 3) == ["SUB_ID"];
    assert ConstrainedFrom(cols, false, 2) == ["SUB_ID"];
    assert ConstrainedFrom(cols, false, 1) == ["SUB_ID"];
    assert ConstrainedFrom(cols, false, 0) == ["CMTE_ID", "SUB_ID"];
  }

  lemma CommitteeContributionsUnique()
    ensures UniqueColumns(CommitteeContributionsSchema) == ["SUB_ID"]
  {
    var cols := CommitteeContributionsSchema.columns;
    assert ConstrainedFrom(cols, true, 21) == ["SUB_ID"];
    assert ConstrainedFrom(cols, true, 20) == ["SUB_ID"];
    assert ConstrainedFrom(cols, true, 19) == ["SUB_ID"];
    assert ConstrainedFrom(cols, true, 18) == ["SUB_ID"];
    assert ConstrainedFrom(cols, true, 17) == ["SUB_ID"];
    assert ConstrainedFrom(cols, true, 16) == ["SUB_ID"];
    assert ConstrainedFrom(cols, true, 15) == ["SUB_ID"];
    assert ConstrainedFrom(cols, true, 14) == ["SUB_ID"];
    assert ConstrainedFrom(cols, true, 13) == ["SUB_ID"];
    assert ConstrainedFrom(cols, true, 12) == ["SUB_ID"];
    assert ConstrainedFrom(cols, true, 11) == ["SUB_ID"];
    assert ConstrainedFrom(cols, true, 10) == ["SUB_ID"];
    assert ConstrainedFrom(cols, true, 9) == ["SUB_ID"];
    assert ConstrainedFrom(cols, true, 8) == ["SUB_ID"];
    assert ConstrainedFrom(cols, true, 7) == ["SUB_ID"];
    assert ConstrainedFrom(cols, true, 6) == ["SUB_ID"];
    assert ConstrainedFrom(cols, true, 5) == ["SUB_ID"];
    assert ConstrainedFrom(cols, true, 4) == ["SUB_ID"];
    assert ConstrainedFrom(cols, true, 3) == ["SUB_ID"];
    assert ConstrainedFrom(cols, true, 2) == ["SUB_ID"];
    assert ConstrainedFrom(cols, true, 1) == ["SUB_ID"];
    assert ConstrainedFrom(cols, true, 0) == ["SUB_ID"];
  }

  lemma TransactionsNotNull()
    ensures |TransactionsSchema.columns| == 21
    ensures NotNullColumns(TransactionsSchema) == ["CMTE_ID", "SUB_ID"]
  {
    var cols := TransactionsSchema.columns;
    assert ConstrainedFrom(cols, false, 20) == ["SUB_ID"];
    assert ConstrainedFrom(cols, false, 19) == ["SUB_ID"];
    assert ConstrainedFrom(cols, false, 18) == ["SUB_ID"];
    assert ConstrainedFrom(cols, false, 17) == ["SUB_ID"];
    assert ConstrainedFrom(cols, false, 16) == ["SUB_ID"];
    assert ConstrainedFrom(cols, false, 15) == ["SUB_ID"];
    assert ConstrainedFrom(cols, false, 14) == ["SUB_ID"];
    assert ConstrainedFrom(cols, false, 13) == ["SUB_ID"];
    assert ConstrainedFrom(cols, false, 12) == ["SUB_ID"];
    assert ConstrainedFrom(cols, false, 11) == ["SUB_ID"];
    assert ConstrainedFrom(cols, false, 10) == ["SUB_ID"];
    assert ConstrainedFrom(cols, false, 9) == ["SUB_ID"];
    assert ConstrainedFrom(cols, false, 8) == ["SUB_ID"];
    assert ConstrainedFrom(cols, false, 7) == ["SUB_ID"];
    assert ConstrainedFrom(cols, false, 6) == ["SUB_ID"];
    assert ConstrainedFrom(cols, false, 5) == ["SUB_ID"];
    assert ConstrainedFrom(cols, false, 4) == ["SUB_ID"];
    assert ConstrainedFrom(cols, false, 3) == ["SUB_ID"];
    assert ConstrainedFrom(cols, false, 2) == ["SUB_ID"];
    assert ConstrainedFrom(cols, false, 1) == ["SUB_ID"];
    assert ConstrainedFrom(cols, false, 0) == ["CMTE_ID", "SUB_ID"];
  }

  lemma TransactionsUnique()
    ensures UniqueColumns(TransactionsSchema) == ["SUB_ID"]
  {
    var cols := TransactionsSchema.columns;
    assert ConstrainedFrom(cols, true, 20) == ["SUB_ID"];
    assert ConstrainedFrom(cols, true, 19) == ["SUB_ID"];
    assert ConstrainedFrom(cols, true, 18) == ["SUB_ID"];
    assert ConstrainedFrom(cols, true, 17) == ["SUB_ID"];
    assert ConstrainedFrom(cols, true, 16) == ["SUB_ID"];
    assert ConstrainedFrom(cols, true, 15) == ["SUB_ID"];
    assert ConstrainedFrom(cols, true, 14) == ["SUB_ID"];
    assert ConstrainedFrom(cols, true, 13) == ["SUB_ID"];
    assert ConstrainedFrom(cols, true, 12) == ["SUB_ID"];
    assert ConstrainedFrom(cols, true, 11) == ["SUB_ID"];
    assert ConstrainedFrom(cols, true, 10) == ["SUB_ID"];
    assert ConstrainedFrom(cols, true, 9) == ["SUB_ID"];
    assert ConstrainedFrom(cols, true, 8) == ["SUB_ID"];
    assert ConstrainedFrom(cols, true, 7) == ["SUB_ID"];
    assert ConstrainedFrom(cols, true, 6) == ["SUB_ID"];
    assert ConstrainedFrom(cols, true, 5) == ["SUB_ID"];
    assert ConstrainedFrom(cols, true, 4) == ["SUB_ID"];
    assert ConstrainedFrom(cols, true, 3) == ["SUB_ID"];
    assert ConstrainedFrom(cols, true, 2) == ["SUB_ID"];
    assert ConstrainedFrom(cols, true, 1) == ["SUB_ID"];
    assert ConstrainedFrom(cols, true, 0) == ["SUB_ID"];
  }

  /** `setup_database` creates one table per registry key, in key order,
      each named after its key. */
  lemma SchemasFollowRegistry()
    ensures |AllSchemas| == |TableNames|
    ensures forall k :: 0 <= k < |AllSchemas| ==> AllSchemas[k].name == TableNames[k]
  {
  }

  /** The expenditures table has exactly the 25 columns the downloader's
      truncating parser keeps. */
  lemma ExpendituresWidthMatchesParser()
    ensures Downloader.ParserFor("expenditures") == RowParser.FirstFields(|ExpendituresSchema.columns|)
  {
    ExpendituresNotNull();
  }

  /** The four submission tables declare `SUB_ID` NOT NULL UNIQUE, the
      committees table `CMTE_ID`, and the linkages table declares
      `LINKAGE_ID` NOT NULL. */
  lemma IdentifierConstraints()
    ensures "SUB_ID" in NotNullColumns(ExpendituresSchema) && "SUB_ID" in UniqueColumns(ExpendituresSchema)
    ensures "SUB_ID" in NotNullColumns(IndividualContributionsSchema) && "SUB_ID" in UniqueColumns(IndividualContributionsSchema)
    ensures "SUB_ID" in NotNullColumns(CommitteeContributionsSchema) && "SUB_ID" in UniqueColumns(CommitteeContributionsSchema)
    ensures "SUB_ID" in NotNullColumns(TransactionsSchema) && "SUB_ID" in UniqueColumns(TransactionsSchema)
    ensures "CMTE_ID" in NotNullColumns(CommitteesSchema) && "CMTE_ID" in UniqueColumns(CommitteesSchema)
    ensures "LINKAGE_ID" in NotNullColumns(LinkagesSchema)
  {
    ExpendituresNotNull();
    ExpendituresUnique();
    IndividualContributionsNotNull();
    IndividualContributionsUnique();
    CommitteeContributionsNotNull();
    CommitteeContributionsUnique();
    TransactionsNotNull();
    TransactionsUnique();
    CommitteesNotNull();
    CommitteesUnique();
    LinkagesNotNull();
  }

  /** The schemas from `ss[i]` on, each created if absent, in order. */
  function EnsureFrom(tables: Catalog, ss: seq<Schema>, i: nat): (r: Catalog)
    requires i <= |ss|
    ensures Sound(tables) ==> Sound(r)
    decreases |ss| - i
  {
    if i == |ss| then tables
    else
      assert Consistent(ss[i], []);
      EnsureFrom(Ensure(tables, ss[i]), ss, i + 1)
  }

  /** The catalog after `setup_database`; it keeps the database sound. */
  function Setup(tables: Catalog): (r: Catalog)
    ensures Sound(tables) ==> Sound(r)
  {
    EnsureFrom(tables, AllSchemas, 0)
  }

  /** Creating schemas never drops or changes a table that exists, adds a
      table for every schema, and adds nothing else. */
  lemma {:induction false} EnsureFromFrame(tables: Catalog, ss: seq<Schema>, i: nat)
    requires i <= |ss|
    ensures forall n :: n in tables ==> n in EnsureFrom(tables, ss, i) && EnsureFrom(tables, ss, i)[n] == tables[n]
    ensures forall k :: i <= k < |ss| ==> ss[k].name in EnsureFrom(tables, ss, i)
    ensures forall n :: n in EnsureFrom(tables, ss, i) ==> n in tables || exists k :: i <= k < |ss| && ss[k].name == n
    decreases |ss| - i
  {
    if i < |ss| {
      EnsureFromFrame(Ensure(tables, ss[i]), ss, i + 1);
    }
  }

  /** Once every schema's table exists, creating them again changes nothing. */
  lemma {:induction false} EnsureFromPresent(tables: Catalog, ss: seq<Schema>, i: nat)
    requires i <= |ss|
    requires forall k :: i <= k < |ss| ==> ss[k].name in tables
    ensures EnsureFrom(tables, ss, i) == tables
    decreases |ss| - i
  {
    if i < |ss| {
      EnsureFromPresent(tables, ss, i + 1);
    }
  }

  /** A table the catalog lacked comes out empty with its own schema, when
      no two schemas share a name. */
  lemma {:induction false} EnsureFromFresh(tables: Catalog, ss: seq<Schema>, i: nat, k: nat)
    requires i <= k < |ss| && ss[k].name !in tables
    requires forall a, b :: i <= a < b < |ss| ==> ss[a].name != ss[b].name
    ensures ss[k].name in EnsureFrom(tables, ss, i) && EnsureFrom(tables, ss, i)[ss[k].name] == Table(ss[k], [])
    decreases |ss| - i
  {
    if i == k {
      EnsureFromFrame(Ensure(tables, ss[i]), ss, i + 1);
    } else {
      EnsureFromFresh(Ensure(tables, ss[i]), ss, i + 1, k);
    }
  }

  /** `setup_database` is idempotent, keeps every existing table with its
      rows, and leaves exactly the existing tables plus the seven. */
  lemma SetupIdempotent(tables: Catalog)
    ensures Setup(Setup(tables)) == Setup(tables)
    ensures forall n :: n in tables ==> n in Setup(tables) && Setup(tables)[n] == tables[n]
    ensures forall n :: n in Setup(tables) <==> n in tables || n in TableNames
  {
    SchemasFollowRegistry();
    EnsureFromFrame(tables, AllSchemas, 0);
    EnsureFromFrame(Setup(tables), AllSchemas, 0);
    EnsureFromPresent(Setup(tables), AllSchemas, 0);
    forall n | n in TableNames
      ensures n in Setup(tables)
    {
      var k :| 0 <= k < |TableNames| && TableNames[k] == n;
      assert AllSchemas[k].name == n;
    }
  }

  /** On an empty database, `setup_database` creates exactly the seven
      registry tables, each empty and with its schema. */
  lemma SetupFresh()
    ensures forall n :: n in Setup(map[]) <==> n in TableNames
    ensures forall k :: 0 <= k < |TableNames| ==> TableNames[k] in Setup(map[]) && Setup(map[])[TableNames[k]] == Table(AllSchemas[k], [])
  {
    SetupIdempotent(map[]);
    RegistryKeys();
    SchemasFollowRegistry();
    forall k | 0 <= k < |TableNames|
      ensures TableNames[k] in Setup(map[]) && Setup(map[])[TableNames[k]] == Table(AllSchemas[k], [])
    {
      EnsureFromFresh(map[], AllSchemas, 0, k);
    }
  }

  /** `Importer.setup_database`: the seven DDL statements in order. */
  method SetupDatabase(db: Database)
    requires db.Valid()
    modifies db
    ensures db.Valid()
    ensures db.tables == Setup(old(db.tables))
  {
    db.EnsureSchema(ExpendituresSchema);
    db.EnsureSchema(CommitteesSchema);
    db.EnsureSchema(CandidatesSchema);
    db.EnsureSchema(LinkagesSchema);
    db.EnsureSchema(IndividualContributionsSchema);
    db.EnsureSchema(CommitteeContributionsSchema);
    db.EnsureSchema(TransactionsSchema);
    SetupUnrolled(old(db.tables));
  }

  lemma SetupUnrolled(tables: Catalog)
    ensures Setup(tables) ==
      Ensure(Ensure(Ensure(Ensure(Ensure(Ensure(Ensure(tables,
        ExpendituresSchema), CommitteesSchema), CandidatesSchema), LinkagesSchema),
        IndividualContributionsSchema), CommitteeContributionsSchema), TransactionsSchema)
  {
    var t1 := Ensure(tables, AllSchemas[0]);
    var t2 := Ensure(t1, AllSchemas[1]);
    var t3 := Ensure(t2, AllSchemas[2]);
    var t4 := Ensure(t3, AllSchemas[3]);
    var t5 := Ensure(t4, AllSchemas[4]);
    var t6 := Ensure(t5, AllSchemas[5]);
    var t7 := Ensure(t6, AllSchemas[6]);
    assert EnsureFrom(t7, AllSchemas, 7) == t7;
    assert EnsureFrom(t6, AllSchemas, 6) == t7;
    assert EnsureFrom(t5, AllSchemas, 5) == t7;
    assert EnsureFrom(t4, AllSchemas, 4) == t7;
    assert EnsureFrom(t3, AllSchemas, 3) == t7;
    assert EnsureFrom(t2, AllSchemas, 2) == t7;
    assert EnsureFrom(t1, AllSchemas, 1) == t7;
  }

  /** `hash.dig(name, :output, key)` on the registry: nil for a missing
      table or a missing key. */
  function RegistryDig(name: string, key: string): (r: Option<string>)
    ensures r.Some? ==> name in TABLES
    ensures r.Some? <==> name in TABLES && (key == "data" || key == "header")
  {
    if name !in TABLES then None
    else if key == "data" then Some(TABLES[name].output.data)
    else if key == "header" then Some(TABLES[name].output.header)
    else None
  }

  /** The file `import` names, as written: `:csv` under `:output`, a key no
      entry has. */
  function ImportPathAsWritten(name: string): (r: Option<string>)
    ensures r.Some? ==> name in TABLES && (r.value == TABLES[name].output.data || r.value == TABLES[name].output.header)
  {
    RegistryDig(name, "csv")
  }

  /** As written, `import` finds no staging file for any table. */
  lemma ImportPathAsWrittenIsNil(name: string)
    ensures ImportPathAsWritten(name) == None
  {
  }

  /** The file `import` evidently means: the table's `output.data` path. */
  function ImportPath(name: string): (r: Option<string>) {
    RegistryDig(name, "data")
  }

  /** The corrected path is the very file the downloader fills for the table. */
  lemma ImportPathIsStagingFile(name: string)
    ensures ImportPath(name).Some? <==> name in TABLES
    ensures name in TABLES ==> ImportPath(name) == Some(Downloader.DownloaderFor(name).config.output.data)
  {
  }

  /** A staged cell as `.import` in CSV mode reads it back: the CSV writer
      writes nil as an empty field, which is read as the empty text. */
  function ToValue(c: RowParser.Cell): Value {
    match c
    case None => Str("")
    case Some(t) => Str(t)
  }

  function ToRecord(row: RowParser.Row): (rec: Record)
    ensures |rec| == |row|
  {
    seq(|row|, k requires 0 <= k < |row| => ToValue(row[k]))
  }

  function Records(rows: seq<RowParser.Row>): (recs: seq<Record>)
    ensures |recs| == |rows|
  {
    seq(|rows|, k requires 0 <= k < |rows| => ToRecord(rows[k]))
  }

  /** Loaded rows hold the staged text of every field and are never NULL,
      so a NOT NULL column cannot reject a staged row; only UNIQUE and the
      row width can. */
  lemma RecordsKeepText(rows: seq<RowParser.Row>)
    ensures forall i, k :: 0 <= i < |rows| && 0 <= k < |rows[i]| ==>
      Records(rows)[i][k] == Str(RowParser.FromCell(rows[i][k]))
  {
  }

  /** What `import` does to the catalog: load the table's staging file into it. */
  function ImportOutcome(tables: Catalog, staged: map<string, seq<RowParser.Row>>, name: string): (r: Result<seq<Record>, DbError>)
    requires Sound(tables)
    ensures name !in TABLES ==> r == Failure(MissingFile(""))
    ensures name in TABLES && TABLES[name].output.data !in staged ==> r == Failure(MissingFile(TABLES[name].output.data))
    ensures r.Success? ==>
      name in TABLES && name in tables && TABLES[name].output.data in staged
      && r.value == tables[name].rows + Records(staged[TABLES[name].output.data])
      && Consistent(tables[name].schema, r.value)
  {
    match ImportPath(name)
    case None => Failure(MissingFile(""))
    case Some(path) =>
      if path !in staged then Failure(MissingFile(path))
      else LoadOutcome(tables, name, Records(staged[path]))
  }

  /** `Importer#import` (with the corrected staging path). */
  method Import(db: Database, disk: Downloader.Disk, name: string) returns (r: Result<nat, DbError>)
    requires db.Valid()
    modifies db
    ensures db.Valid()
    ensures match ImportOutcome(old(db.tables), disk.staged, name)
      case Success(rows) => r.Success? && name in old(db.tables)
        && db.tables == old(db.tables)[name := Table(old(db.tables)[name].schema, rows)]
      case Failure(e) => r == Failure(e) && db.tables == old(db.tables)
  {
    var path := ImportPath(name);
    if path.None? {
      return Failure(MissingFile(""));
    }
    if path.value !in disk.staged {
      return Failure(MissingFile(path.value));
    }
    r := db.Load(name, Records(disk.staged[path.value]));
  }

  /** The catalog after importing `names[i..]` in order, stopping at the
      first failure. */
  datatype Run = Run(result: Result<(), DbError>, tables: Catalog)

  function ImportFrom(tables: Catalog, staged: map<string, seq<RowParser.Row>>, names: seq<string>, i: nat): (run: Run)
    requires Sound(tables) && i <= |names|
    ensures Sound(run.tables)
    decreases |names| - i
  {
    if i == |names| then Run(Success(()), tables)
    else
      match ImportOutcome(tables, staged, names[i])
      case Failure(e) => Run(Failure(e), tables)
      case Success(rows) =>
        LoadAllOrNothing(tables, names[i], Records(staged[ImportPath(names[i]).value]));
        ImportFrom(tables[names[i] := Table(tables[names[i]].schema, rows)], staged, names, i + 1)
  }

  /** A run keeps the set of tables: loading never creates or drops one. */
  lemma {:induction false} ImportFromKeys(tables: Catalog, staged: map<string, seq<RowParser.Row>>, names: seq<string>, i: nat)
    requires Sound(tables) && i <= |names|
    ensures forall n :: n in ImportFrom(tables, staged, names, i).tables <==> n in tables
    decreases |names| - i
  {
    if i < |names| && ImportOutcome(tables, staged, names[i]).Success? {
      var name := names[i];
      var rows := ImportOutcome(tables, staged, name).value;
      ImportFromKeys(tables[name := Table(tables[name].schema, rows)], staged, names, i + 1);
    }
  }

  /** A table the run does not name is left as it was, whether or not the run
      succeeds. */
  lemma {:induction false} ImportFromUntouched(tables: Catalog, staged: map<string, seq<RowParser.Row>>, names: seq<string>, i: nat, n: string)
    requires Sound(tables) && i <= |names| && n in tables
    requires forall k :: i <= k < |names| ==> names[k] != n
    ensures n in ImportFrom(tables, staged, names, i).tables
    ensures ImportFrom(tables, staged, names, i).tables[n] == tables[n]
    decreases |names| - i
  {
    if i < |names| && ImportOutcome(tables, staged, names[i]).Success? {
      var name := names[i];
      var rows := ImportOutcome(tables, staged, name).value;
      ImportFromUntouched(tables[name := Table(tables[name].schema, rows)], staged, names, i + 1, n);
    }
  }

  /** After a successful run over distinct names, each named table holds its
      old rows followed by its staging file's rows, loaded once. */
  lemma {:induction false} ImportFromLoaded(tables: Catalog, staged: map<string, seq<RowParser.Row>>, names: seq<string>, i: nat, k: nat)
    requires Sound(tables) && i <= k < |names|
    requires forall a, b :: i <= a < b < |names| ==> names[a] != names[b]
    requires ImportFrom(tables, staged, names, i).result.Success?
    ensures names[k] in tables && ImportPath(names[k]).Some? && ImportPath(names[k]).value in staged
    ensures var out := ImportFrom(tables, staged, names, i).tables;
      names[k] in out
      && out[names[k]] == Table(tables[names[k]].schema, tables[names[k]].rows + Records(staged[ImportPath(names[k]).value]))
    decreases |names| - i
  {
    var name := names[i];
    var path := ImportPath(name).value;
    LoadAllOrNothing(tables, name, Records(staged[path]));
    var next := tables[name := Table(tables[name].schema, tables[name].rows + Records(staged[path]))];
    if k == i {
      ImportFromUntouched(next, staged, names, i + 1, name);
    } else {
      ImportFromLoaded(next, staged, names, i + 1, k);
    }
  }

  /** The loop of `import_all` over the given table names. */
  method ImportTables(db: Database, disk: Downloader.Disk, names: seq<string>) returns (r: Result<(), DbError>)
    requires db.Valid()
    modifies db
    ensures db.Valid()
    ensures Run(r, db.tables) == ImportFrom(old(db.tables), disk.staged, names, 0)
  {
    var i := 0;
    while i < |names|
      invariant 0 <= i <= |names|
      invariant db.Valid()
      invariant ImportFrom(db.tables, disk.staged, names, i) == ImportFrom(old(db.tables), disk.staged, names, 0)
    {
      var step := Import(db, disk, names[i]);
      if step.Failure? {
        return Failure(step.error);
      }
      i := i + 1;
    }
    r := Success(());
  }

  /** `Importer.import_all`: set the schemas up, then import every registry
      table in key order; the first failure stops the run. */
  method ImportAll(db: Database, disk: Downloader.Disk) returns (r: Result<(), DbError>)
    requires db.Valid()
    modifies db
    ensures db.Valid()
    ensures Run(r, db.tables) == ImportFrom(Setup(old(db.tables)), disk.staged, TableNames, 0)
  {
    SetupDatabase(db);
    r := ImportTables(db, disk, TableNames);
  }

  /** On an empty database a successful `import_all` leaves exactly the seven
      registry tables. */
  lemma ImportAllFreshTables(staged: map<string, seq<RowParser.Row>>)
    ensures forall n :: n in ImportFrom(Setup(map[]), staged, TableNames, 0).tables <==> n in TableNames
  {
    SetupFresh();
    ImportFromKeys(Setup(map[]), staged, TableNames, 0);
  }

  /** On an empty database a successful `import_all` leaves each registry
      table holding exactly the rows of its own staging file, under its own
      schema. */
  lemma ImportAllFreshRows(staged: map<string, seq<RowParser.Row>>, k: nat)
    requires k < |TableNames|
    requires ImportFrom(Setup(map[]), staged, TableNames, 0).result.Success?
    ensures ImportPath(TableNames[k]).Some? && ImportPath(TableNames[k]).value in staged
    ensures TableNames[k] in ImportFrom(Setup(map[]), staged, TableNames, 0).tables
    ensures ImportFrom(Setup(map[]), staged, TableNames, 0).tables[TableNames[k]]
         == Table(AllSchemas[k], Records(staged[ImportPath(TableNames[k]).value]))
  {
    var initial := Setup(map[]);
    FreshTable(k);
    RegistryKeys();
    ImportFromLoaded(initial, staged, TableNames, 0, k);
    var recs := Records(staged[ImportPath(TableNames[k]).value]);
    assert [] + recs == recs;
  }

  /** The table `setup_database` creates for the `k`-th registry key. */
  lemma FreshTable(k: nat)
    requires k < |TableNames|
    ensures Sound(Setup(map[]))
    ensures TableNames[k] in Setup(map[]) && Setup(map[])[TableNames[k]] == Table(AllSchemas[k], [])
  {
    SetupFresh();
  }
}
