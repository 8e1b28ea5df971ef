/** The registry of the seven bulk tables (fec/tables.rb): for each table,
    the name of the entry inside the remote zip, the two remote URLs, the two
    local staging paths and, for two tables, a documentation URL. The
    registry is a constant; nothing in the program changes it. */
module Tables {
  import opened Wrappers

  datatype Source = Source(zip: string, header: string)
  datatype Output = Output(data: string, header: string)
  datatype TableSpec = TableSpec(
    filename: string,
    source: Source,
    output: Output,
    documentation: Option<string>)

  /** The registry's keys in the order the hash literal lists them, which
      is the order Ruby's `TABLES.keys` enumerates them. */
  const TableNames: seq<string> := [
    "expenditures", "committees", "candidates", "linkages",
    "individual_contributions", "committee_contributions", "transactions"]

  const ExpendituresSpec: TableSpec := TableSpec(
    "oppexp.txt",
    Source("https://www.fec.gov/files/bulk-downloads/2020/oppexp20.zip",
           "https://www.fec.gov/files/bulk-downloads/data_dictionaries/oppexp_header_file.csv"),
    Output("data/expenditures2020.csv", "data/expenditures2020_header.csv"),
    None)

  const CommitteesSpec: TableSpec := TableSpec(
    "cm.txt",
    Source("https://www.fec.gov/files/bulk-downloads/2020/cm20.zip",
           "https://www.fec.gov/files/bulk-downloads/data_dictionaries/cm_header_file.csv"),
    Output("data/committees2020.csv", "data/committees2020_header.csv"),
    None)

  const CandidatesSpec: TableSpec := TableSpec(
    "cn.txt",
    Source("https://www.fec.gov/files/bulk-downloads/2020/cn20.zip",
           "https://www.fec.gov/files/bulk-downloads/data_dictionaries/cn_header_file.csv"),
    Output("data/candidates2020.csv", "data/candidates2020_header.csv"),
    Some("https://www.fec.gov/campaign-finance-data/all-candidates-file-description/"))

  const LinkagesSpec: TableSpec := TableSpec(
    "ccl.txt",
    Source("https://www.fec.gov/files/bulk-downloads/2020/ccl20.zip",
           "https://www.fec.gov/files/bulk-downloads/data_dictionaries/ccl_header_file.csv"),
    Output("data/linkages2020.csv", "data/linkages2020_header.csv"),
    None)

  const IndividualContributionsSpec: TableSpec := TableSpec(
    "itcont.txt",
    Source("https://www.fec.gov/files/bulk-downloads/2020/indiv20.zip",
           "https://www.fec.gov/files/bulk-downloads/data_dictionaries/indiv_header_file.csv"),
    Output("data/individual_contributions2020.csv", "data/individual_contributions2020_header.csv"),
    Some("https://www.fec.gov/campaign-finance-data/contributions-individuals-file-description/"))

  const CommitteeContributionsSpec: TableSpec := TableSpec(
    "itpas2.txt",
    Source("https://www.fec.gov/files/bulk-downloads/2020/pas220.zip",
           "https://www.fec.gov/files/bulk-downloads/data_dictionaries/pas2_header_file.csv"),
    Output("data/committee_contributions2020.csv", "data/committee_contributions2020_header.csv"),
    None)

  const TransactionsSpec: TableSpec := TableSpec(
    "itoth.txt",
    Source("https://www.fec.gov/files/bulk-downloads/2020/oth20.zip",
           "https://www.fec.gov/files/bulk-downloads/data_dictionaries/oth_header_file.csv"),
    Output("data/transactions2020.csv", "data/transactions2020_header.csv"),
    None)

  /** `TABLES`, frozen: a constant map that nothing updates. */
  const TABLES: map<string, TableSpec> := map[
    "expenditures" := ExpendituresSpec,
    "committees" := CommitteesSpec,
    "candidates" := CandidatesSpec,
    "linkages" := LinkagesSpec,
    "individual_contributions" := IndividualContributionsSpec,
    "committee_contributions" := CommitteeContributionsSpec,
    "transactions" := TransactionsSpec
  ]

  /** `Hash#fetch` on a key the registry does not hold raises KeyError. */
  datatype RegistryError = KeyError(key: string)

  function Fetch(name: string): (r: Result<TableSpec, RegistryError>)
    ensures r.Success? <==> name in TableNames
    ensures r.Success? ==> name in TABLES && r.value == TABLES[name]
    ensures r.Failure? ==> r.error == KeyError(name)
  {
    if name in TABLES then Success(TABLES[name]) else Failure(KeyError(name))
  }

  /** A local staging path: a `.csv` file under the `data/` directory. */
  predicate IsStagingPath(p: string) {
    "data/" <= p && |p| >= 9 && p[|p| - 4..] == ".csv"
  }

  /** The header copy's path: the data path with `_header` before `.csv`. */
  function HeaderPathOf(p: string): string
    requires |p| >= 4
  {
    p[..|p| - 4] + "_header.csv"
  }

  lemma RegistryKeys()
    ensures |TableNames| == 7
    ensures forall n :: n in TABLES <==> n in TableNames
    ensures forall i, j :: 0 <= i < j < |TableNames| ==> TableNames[i] != TableNames[j]
  {
  }

  /** The registry, key by key. */
  lemma Entries()
    ensures TABLES["expenditures"] == ExpendituresSpec
    ensures TABLES["committees"] == CommitteesSpec
    ensures TABLES["candidates"] == CandidatesSpec
    ensures TABLES["linkages"] == LinkagesSpec
    ensures TABLES["individual_contributions"] == IndividualContributionsSpec
    ensures TABLES["committee_contributions"] == CommitteeContributionsSpec
    ensures TABLES["transactions"] == TransactionsSpec
  {
  }

  lemma ExpendituresStaged()
    ensures IsStagingPath(ExpendituresSpec.output.data) && IsStagingPath(ExpendituresSpec.output.header)
    ensures ExpendituresSpec.output.header == HeaderPathOf(ExpendituresSpec.output.data)
  {
  }

  lemma CommitteesStaged()
    ensures IsStagingPath(CommitteesSpec.output.data) && IsStagingPath(CommitteesSpec.output.header)
    ensures CommitteesSpec.output.header == HeaderPathOf(CommitteesSpec.output.data)
  {
  }

  lemma CandidatesStaged()
    ensures IsStagingPath(CandidatesSpec.output.data) && IsStagingPath(CandidatesSpec.output.header)
    ensures CandidatesSpec.output.header == HeaderPathOf(CandidatesSpec.output.data)
  {
  }

  lemma LinkagesStaged()
    ensures IsStagingPath(LinkagesSpec.output.data) && IsStagingPath(LinkagesSpec.output.header)
    ensures LinkagesSpec.output.header == HeaderPathOf(LinkagesSpec.output.data)
  {
  }

  lemma IndividualContributionsStaged()
    ensures IsStagingPath(IndividualContributionsSpec.output.data) && IsStagingPath(IndividualContributionsSpec.output.header)
    ensures IndividualContributionsSpec.output.header == HeaderPathOf(IndividualContributionsSpec.output.data)
  {
  }

  lemma CommitteeContributionsStaged()
    ensures IsStagingPath(CommitteeContributionsSpec.output.data) && IsStagingPath(CommitteeContributionsSpec.output.header)
    ensures CommitteeContributionsSpec.output.header == HeaderPathOf(CommitteeContributionsSpec.output.data)
  {
  }

  lemma TransactionsStaged()
    ensures IsStagingPath(TransactionsSpec.output.data) && IsStagingPath(TransactionsSpec.output.header)
    ensures TransactionsSpec.output.header == HeaderPathOf(TransactionsSpec.output.data)
  {
  }

  /** Every output path is a `.csv` file under `data/`, and each header path
      is its data path with `_header` inserted before `.csv`. */
  lemma StagingPaths(name: string)
    requires name in TABLES
    ensures IsStagingPath(TABLES[name].output.data)
    ensures IsStagingPath(TABLES[name].output.header)
    ensures TABLES[name].output.header == HeaderPathOf(TABLES[name].output.data)
  {
    Entries();
    if name == "expenditures" {
      ExpendituresStaged();
    } else if name == "committees" {
      CommitteesStaged();
    } else if name == "candidates" {
      CandidatesStaged();
    } else if name == "linkages" {
      LinkagesStaged();
    } else if name == "individual_contributions" {
      IndividualContributionsStaged();
    } else if name == "committee_contributions" {
      CommitteeContributionsStaged();
    } else {
      TransactionsStaged();
    }
  }

  /** The registry read backwards: the table, if any, whose data file,
      header file or archive entry is `name`. Being functions of the name,
      they show that no two tables share one. */
  ghost function DataFileOwner(name: string): Option<string> {
    if name == ExpendituresSpec.output.data then Some("expenditures") else
    if name == CommitteesSpec.output.data then Some("committees") else
    if name == CandidatesSpec.output.data then Some("candidates") else
    if name == LinkagesSpec.output.data then Some("linkages") else
    if name == IndividualContributionsSpec.output.data then Some("individual_contributions") else
    if name == CommitteeContributionsSpec.output.data then Some("committee_contributions") else
    if name == TransactionsSpec.output.data then Some("transactions") else
    None
  }

  ghost function HeaderFileOwner(name: string): Option<string> {
    if name == ExpendituresSpec.output.header then Some("expenditures") else
    if name == CommitteesSpec.output.header then Some("committees") else
    if name == CandidatesSpec.output.header then Some("candidates") else
    if name == LinkagesSpec.output.header then Some("linkages") else
    if name == IndividualContributionsSpec.output.header then Some("individual_contributions") else
    if name == CommitteeContributionsSpec.output.header then Some("committee_contributions") else
    if name == TransactionsSpec.output.header then Some("transactions") else
    None
  }

  ghost function EntryOwner(name: string): Option<string> {
    if name == ExpendituresSpec.filename then Some("expenditures") else
    if name == CommitteesSpec.filename then Some("committees") else
    if name == CandidatesSpec.filename then Some("candidates") else
    if name == LinkagesSpec.filename then Some("linkages") else
    if name == IndividualContributionsSpec.filename then Some("individual_contributions") else
    if name == CommitteeContributionsSpec.filename then Some("committee_contributions") else
    if name == TransactionsSpec.filename then Some("transactions") else
    None
  }

  lemma OwnersInvert(name: string)
    requires name in TABLES
    ensures DataFileOwner(TABLES[name].output.data) == Some(name)
    ensures HeaderFileOwner(TABLES[name].output.header) == Some(name)
    ensures HeaderFileOwner(TABLES[name].output.data) == None
    ensures EntryOwner(TABLES[name].filename) == Some(name)
  {
    DataOwnerInverts(name);
    HeaderOwnerInverts(name);
    EntryOwnerInverts(name);
  }

  lemma DataOwnerInverts(name: string)
    requires name in TABLES
    ensures DataFileOwner(TABLES[name].output.data) == Some(name)
  {
    Entries();
  }

  lemma HeaderOwnerInverts(name: string)
    requires name in TABLES
    ensures HeaderFileOwner(TABLES[name].output.header) == Some(name)
    ensures HeaderFileOwner(TABLES[name].output.data) == None
  {
    Entries();
  }

  lemma EntryOwnerInverts(name: string)
    requires name in TABLES
    ensures EntryOwner(TABLES[name].filename) == Some(name)
  {
    Entries();
  }

  /** No two tables share an archive entry name or a staging file, and no
      table's data file is any table's header file. */
  lemma DistinctEntries(n: string, m: string)
    requires n in TABLES && m in TABLES
    ensures TABLES[n].output.data != TABLES[m].output.header
    ensures n != m ==> TABLES[n].output.data != TABLES[m].output.data
    ensures n != m ==> TABLES[n].output.header != TABLES[m].output.header
    ensures n != m ==> TABLES[n].filename != TABLES[m].filename
  {
    OwnersInvert(n);
    OwnersInvert(m);
  }

  lemma DocumentationPresence(name: string)
    requires name in TABLES
    ensures TABLES[name].documentation.Some?
        <==> name == "candidates" || name == "individual_contributions"
  {
    Entries();
  }
}
