/** fec/downloader.rb: for one table, save the remote header dictionary to
    its local path, then stream the named entry of the remote zip line by
    line into the local staging file, one parsed row per line; and do that
    for every table of the registry in turn.

    The network is a `Remote` value (URL to document, URL to archive, an
    archive being entry name to its lines as `each_line` yields them); the
    local files are a `Disk` object whose maps the methods update and whose
    log records every file operation in order. */
module Downloader {
  import opened Wrappers
  import opened Tables
  import opened RowParser

  datatype DownloadError =
    | Registry(cause: RegistryError)      // TABLES.fetch raised KeyError
    | SourceUnavailable(url: string)      // URI.open failed
    | EntryMissing(entry: string)         // the zip holds no such entry
    | MalformedLine(index: nat)           // CSV.parse_line raised on this line

  datatype Downloader = Downloader(tableName: string, config: TableSpec, lineParser: LineParser)

  /** Only `:expenditures` gets the truncating parser. */
  function ParserFor(name: string): (p: LineParser)
    ensures p == FirstFields(25) <==> name == "expenditures"
    ensures p != FirstFields(25) ==> p == WholeLine
  {
    if name == "expenditures" then FirstFields(25) else WholeLine
  }

  function DownloaderFor(name: string): Downloader
    requires name in TABLES
  {
    Downloader(name, TABLES[name], ParserFor(name))
  }

  /** `Downloader.new(table)`: fails exactly when the registry has no such key. */
  function New(name: string): (r: Result<Downloader, DownloadError>)
    ensures r.Success? <==> name in TableNames
    ensures r.Failure? ==> r.error == Registry(KeyError(name))
    ensures r.Success? ==> name in TABLES && r.value == DownloaderFor(name)
  {
    match Fetch(name)
    case Failure(e) => Failure(Registry(e))
    case Success(spec) => Success(Downloader(name, spec, ParserFor(name)))
  }

  datatype Remote = Remote(documents: map<string, string>, archives: map<string, map<string, seq<string>>>)

  /** A file operation: opening a path for writing (which empties it),
      writing a header text to it, or appending one CSV row to it. */
  datatype Event = Opened(path: string) | Wrote(path: string, text: string) | Appended(path: string, row: Row)

  class Disk {
    var headers: map<string, string>
    var staged: map<string, seq<Row>>
    var log: seq<Event>

    constructor ()
      ensures headers == map[] && staged == map[] && log == []
    {
      headers, staged, log := map[], map[], [];
    }
  }

  /** The lines of the table's archive entry, when the archive and the entry exist. */
  function EntryLines(d: Downloader, remote: Remote): Option<seq<string>> {
    var zip := d.config.source.zip;
    if zip in remote.archives && d.config.filename in remote.archives[zip]
    then Some(remote.archives[zip][d.config.filename])
    else None
  }

  /** How many lines, from the first, parse without error. */
  function ParsablePrefix(lines: seq<string>): (n: nat)
    ensures n <= |lines|
    ensures forall k :: 0 <= k < n ==> WellFormedLine(lines[k])
    ensures n < |lines| ==> !WellFormedLine(lines[n])
  {
    if lines == [] || !WellFormedLine(lines[0]) then 0
    else 1 + ParsablePrefix(lines[1..])
  }

  /** The staging file's rows for these lines: one row per line, in order. */
  function StagedRows(p: LineParser, lines: seq<string>): (rows: seq<Row>)
    requires forall k :: 0 <= k < |lines| ==> WellFormedLine(lines[k])
    ensures |rows| == |lines|
  {
    seq(|lines|, k requires 0 <= k < |lines| => Apply(p, lines[k]))
  }

  function Appends(path: string, rows: seq<Row>): (events: seq<Event>)
    ensures |events| == |rows|
  {
    seq(|rows|, k requires 0 <= k < |rows| => Appended(path, rows[k]))
  }

  /** The lines of the entry that reach the staging file before `download`
      stops: none when the archive or the entry is missing, else those up to
      the first one that does not parse. */
  function WrittenLines(d: Downloader, remote: Remote): (lines: seq<string>)
    ensures forall k :: 0 <= k < |lines| ==> WellFormedLine(lines[k])
  {
    match EntryLines(d, remote)
    case None => []
    case Some(lines) => lines[..ParsablePrefix(lines)]
  }

  /** What `download` raises, in the order its steps would raise it. */
  function DownloadResult(d: Downloader, remote: Remote): (r: Result<(), DownloadError>)
    ensures r.Success? <==>
      d.config.source.header in remote.documents && EntryLines(d, remote).Some?
      && WrittenLines(d, remote) == EntryLines(d, remote).value
    ensures r.Failure? ==> !r.error.Registry?
  {
    if d.config.source.header !in remote.documents then Failure(SourceUnavailable(d.config.source.header))
    else DataResult(d, remote)
  }

  /** What the data half of `download` raises once the header is saved. */
  function DataResult(d: Downloader, remote: Remote): (r: Result<(), DownloadError>)
    ensures r.Success? <==> EntryLines(d, remote).Some? && WrittenLines(d, remote) == EntryLines(d, remote).value
    ensures r.Failure? ==> !r.error.Registry?
  {
    if d.config.source.zip !in remote.archives then Failure(SourceUnavailable(d.config.source.zip))
    else if EntryLines(d, remote).None? then Failure(EntryMissing(d.config.filename))
    else
      var lines := EntryLines(d, remote).value;
      assert lines[..|lines|] == lines;
      if ParsablePrefix(lines) < |lines| then Failure(MalformedLine(ParsablePrefix(lines)))
      else Success(())
  }

  /** The file operations `download` performs: open the header file, write
      the fetched header into it, open the data file, append the rows. */
  function DownloadLog(d: Downloader, remote: Remote): (events: seq<Event>)
    ensures |events| >= 1 && events[0] == Opened(d.config.output.header)
    ensures forall k :: 0 <= k < |events| ==>
      events[k].path == d.config.output.header || events[k].path == d.config.output.data
  {
    var hdr := d.config.output.header;
    var url := d.config.source.header;
    [Opened(hdr)] +
    if url !in remote.documents then []
    else [Wrote(hdr, remote.documents[url])] + DataLog(d, remote)
  }

  /** The data half: open the data file, append the rows. */
  function DataLog(d: Downloader, remote: Remote): (events: seq<Event>)
    ensures forall k :: 0 <= k < |events| ==> events[k].path == d.config.output.data
  {
    [Opened(d.config.output.data)] + Appends(d.config.output.data, StagedRows(d.lineParser, WrittenLines(d, remote)))
  }

  /** What the header file holds after `download`: the fetched text, or
      nothing when the fetch failed after the file was opened. */
  function HeaderText(d: Downloader, remote: Remote): string {
    var url := d.config.source.header;
    if url in remote.documents then remote.documents[url] else ""
  }

  /** The staging files after `download`: the data file is opened, and so
      rewritten, exactly when the header was fetched. */
  function StageOne(d: Downloader, remote: Remote, staged: map<string, seq<Row>>): map<string, seq<Row>> {
    if d.config.source.header !in remote.documents then staged
    else staged[d.config.output.data := StagedRows(d.lineParser, WrittenLines(d, remote))]
  }

  /** `download` succeeds exactly when both sources are reachable, the entry
      exists and every line parses; then the staging file holds one row per
      entry line, in order. */
  lemma DownloadSucceeds(d: Downloader, remote: Remote)
    ensures DownloadResult(d, remote).Success? <==>
      d.config.source.header in remote.documents && EntryLines(d, remote).Some?
      && forall k :: 0 <= k < |EntryLines(d, remote).value| ==> WellFormedLine(EntryLines(d, remote).value[k])
    ensures DownloadResult(d, remote).Success? ==>
      var lines := EntryLines(d, remote).value;
      var rows := StagedRows(d.lineParser, WrittenLines(d, remote));
      |rows| == |lines| && forall k :: 0 <= k < |lines| ==> rows[k] == Apply(d.lineParser, lines[k])
  {
    if EntryLines(d, remote).Some? {
      var lines := EntryLines(d, remote).value;
      assert lines[..|lines|] == lines;
    }
  }

  /** The header file is opened first, and no data file is opened or row
      written unless the header text was fetched and written before them. */
  lemma HeaderBeforeData(d: Downloader, remote: Remote)
    ensures DownloadLog(d, remote)[0] == Opened(d.config.output.header)
    ensures forall k :: 0 <= k < |DownloadLog(d, remote)| && DownloadLog(d, remote)[k].Appended? ==>
      k >= 3 && d.config.source.header in remote.documents
      && DownloadLog(d, remote)[1] == Wrote(d.config.output.header, remote.documents[d.config.source.header])
      && DownloadLog(d, remote)[2] == Opened(d.config.output.data)
  {
  }

  method SaveHeader(d: Downloader, remote: Remote, disk: Disk) returns (r: Result<(), DownloadError>)
    modifies disk
    ensures var hdr, url := d.config.output.header, d.config.source.header;
      && r == (if url in remote.documents then Success(()) else Failure(SourceUnavailable(url)))
      && disk.headers == old(disk.headers)[hdr := if url in remote.documents then remote.documents[url] else ""]
      && disk.staged == old(disk.staged)
      && disk.log == old(disk.log) + [Opened(hdr)]
                     + (if url in remote.documents then [Wrote(hdr, remote.documents[url])] else [])
  {
    var hdr, url := d.config.output.header, d.config.source.header;
    disk.headers := disk.headers[hdr := ""];
    disk.log := disk.log + [Opened(hdr)];
    if url !in remote.documents {
      return Failure(SourceUnavailable(url));
    }
    var text := remote.documents[url];
    disk.headers := disk.headers[hdr := text];
    disk.log := disk.log + [Wrote(hdr, text)];
    return Success(());
  }

  /** The streaming loop of `download`: append one parsed row per line to
      the already opened file at `path`, stopping at the first line that
      does not parse. */
  method StreamLines(p: LineParser, lines: seq<string>, path: string, disk: Disk)
    returns (r: Result<(), DownloadError>)
    requires path in disk.staged && disk.staged[path] == []
    modifies disk`staged, disk`log
    ensures r == if ParsablePrefix(lines) < |lines| then Failure(MalformedLine(ParsablePrefix(lines))) else Success(())
    ensures disk.staged == old(disk.staged)[path := StagedRows(p, lines[..ParsablePrefix(lines)])]
    ensures disk.log == old(disk.log) + Appends(path, StagedRows(p, lines[..ParsablePrefix(lines)]))
  {
    var i := 0;
    while i < |lines|
      invariant 0 <= i <= |lines|
      invariant forall k :: 0 <= k < i ==> WellFormedLine(lines[k])
      invariant disk.staged == old(disk.staged)[path := StagedRows(p, lines[..i])]
      invariant disk.log == old(disk.log) + Appends(path, StagedRows(p, lines[..i]))
    {
      if !WellFormedLine(lines[i]) {
        PrefixAt(lines, i);
        return Failure(MalformedLine(i));
      }
      var row := Apply(p, lines[i]);
      StreamStep(p, lines, i, path);
      disk.staged := disk.staged[path := disk.staged[path] + [row]];
      disk.log := disk.log + [Appended(path, row)];
      i := i + 1;
    }
    PrefixAt(lines, i);
    return Success(());
  }

  /** One more parsed line adds one row to the file and one append to the log. */
  lemma StreamStep(p: LineParser, lines: seq<string>, i: nat, path: string)
    requires i < |lines| && forall k :: 0 <= k <= i ==> WellFormedLine(lines[k])
    ensures StagedRows(p, lines[..i + 1]) == StagedRows(p, lines[..i]) + [Apply(p, lines[i])]
    ensures Appends(path, StagedRows(p, lines[..i + 1])) == Appends(path, StagedRows(p, lines[..i])) + [Appended(path, Apply(p, lines[i]))]
  {
    assert StagedRows(p, lines[..i + 1]) == StagedRows(p, lines[..i]) + [Apply(p, lines[i])];
  }

  /** ParsablePrefix is the index of the first line that does not parse. */
  lemma PrefixAt(lines: seq<string>, i: nat)
    requires i <= |lines|
    requires forall k :: 0 <= k < i ==> WellFormedLine(lines[k])
    requires i < |lines| ==> !WellFormedLine(lines[i])
    ensures ParsablePrefix(lines) == i
  {
  }

  /** `Downloader#download`. */
  method Download(d: Downloader, remote: Remote, disk: Disk) returns (r: Result<(), DownloadError>)
    modifies disk
    ensures r == DownloadResult(d, remote)
    ensures disk.log == old(disk.log) + DownloadLog(d, remote)
    ensures disk.headers == old(disk.headers)[d.config.output.header := HeaderText(d, remote)]
    ensures disk.staged == StageOne(d, remote, old(disk.staged))
  {
    var hdr, url := d.config.output.header, d.config.source.header;
    r := SaveHeader(d, remote, disk);
    if r.Failure? {
      assert DownloadLog(d, remote) == [Opened(hdr)];
      return;
    }
    ghost var saved := disk.log;
    r := SaveData(d, remote, disk);
    assert DownloadLog(d, remote) == [Opened(hdr)] + [Wrote(hdr, remote.documents[url])] + DataLog(d, remote);
    assert disk.log == saved + DataLog(d, remote);
  }

  /** The data half of `download`: open the data file, then stream the
      archive entry into it. */
  method SaveData(d: Downloader, remote: Remote, disk: Disk) returns (r: Result<(), DownloadError>)
    modifies disk`staged, disk`log
    ensures r == DataResult(d, remote)
    ensures disk.log == old(disk.log) + DataLog(d, remote)
    ensures disk.staged == old(disk.staged)[d.config.output.data := StagedRows(d.lineParser, WrittenLines(d, remote))]
  {
    var path := d.config.output.data;
    disk.staged := disk.staged[path := []];
    disk.log := disk.log + [Opened(path)];
    if d.config.source.zip !in remote.archives || d.config.filename !in remote.archives[d.config.source.zip] {
      assert WrittenLines(d, remote) == [];
      r := if d.config.source.zip !in remote.archives then Failure(SourceUnavailable(d.config.source.zip))
        else Failure(EntryMissing(d.config.filename));
      return;
    }
    var lines := remote.archives[d.config.source.zip][d.config.filename];
    assert WrittenLines(d, remote) == lines[..ParsablePrefix(lines)];
    r := StreamLines(d.lineParser, lines, path, disk);
  }

  /** The file operations of running the given downloaders one after another. */
  function AllLogs(ds: seq<Downloader>, remote: Remote): seq<Event> {
    if ds == [] then []
    else AllLogs(ds[..|ds| - 1], remote) + DownloadLog(ds[|ds| - 1], remote)
  }

  /** The header files after running the given downloaders one after another. */
  function HeadersAfter(ds: seq<Downloader>, remote: Remote, headers: map<string, string>): map<string, string> {
    if ds == [] then headers
    else HeadersAfter(ds[..|ds| - 1], remote, headers)[ds[|ds| - 1].config.output.header := HeaderText(ds[|ds| - 1], remote)]
  }

  /** The staging files after running the given downloaders one after another. */
  function StagedAfter(ds: seq<Downloader>, remote: Remote, staged: map<string, seq<Row>>): map<string, seq<Row>> {
    if ds == [] then staged
    else StageOne(ds[|ds| - 1], remote, StagedAfter(ds[..|ds| - 1], remote, staged))
  }

  lemma FoldStep(ds: seq<Downloader>, i: nat, remote: Remote, headers: map<string, string>, staged: map<string, seq<Row>>)
    requires i < |ds|
    ensures HeadersAfter(ds[..i + 1], remote, headers)
      == HeadersAfter(ds[..i], remote, headers)[ds[i].config.output.header := HeaderText(ds[i], remote)]
    ensures StagedAfter(ds[..i + 1], remote, staged) == StageOne(ds[i], remote, StagedAfter(ds[..i], remote, staged))
  {
    assert ds[..i + 1][..i] == ds[..i];
  }

  /** Every downloader's header file holds its own header text afterwards,
      whether or not the downloads after it succeed. */
  lemma {:induction false} HeadersAfterHold(ds: seq<Downloader>, remote: Remote, headers: map<string, string>, j: nat)
    requires SeparateFiles(ds) && j < |ds|
    ensures ds[j].config.output.header in HeadersAfter(ds, remote, headers)
    ensures HeadersAfter(ds, remote, headers)[ds[j].config.output.header] == HeaderText(ds[j], remote)
  {
    var n := |ds| - 1;
    if j < n {
      var init := ds[..n];
      assert forall a :: 0 <= a < n ==> init[a] == ds[a];
      HeadersAfterHold(init, remote, headers, j);
      assert ds[j].config.output.header != ds[n].config.output.header;
    }
  }

  /** A header file none of the downloaders owns is left as it was. */
  lemma {:induction false} HeadersAfterFrame(ds: seq<Downloader>, remote: Remote, headers: map<string, string>, p: string)
    requires forall j :: 0 <= j < |ds| ==> ds[j].config.output.header != p
    ensures p in HeadersAfter(ds, remote, headers) <==> p in headers
    ensures p in headers ==> HeadersAfter(ds, remote, headers)[p] == headers[p]
  {
    if ds != [] {
      var init := ds[..|ds| - 1];
      assert forall j :: 0 <= j < |init| ==> init[j] == ds[j];
      HeadersAfterFrame(init, remote, headers, p);
    }
  }

  /** A staging file none of the downloaders owns is left as it was. */
  lemma {:induction false} StagedAfterFrame(ds: seq<Downloader>, remote: Remote, staged: map<string, seq<Row>>, p: string)
    requires forall j :: 0 <= j < |ds| ==> ds[j].config.output.data != p
    ensures p in StagedAfter(ds, remote, staged) <==> p in staged
    ensures p in staged ==> StagedAfter(ds, remote, staged)[p] == staged[p]
  {
    if ds != [] {
      var init := ds[..|ds| - 1];
      assert forall j :: 0 <= j < |init| ==> init[j] == ds[j];
      StagedAfterFrame(init, remote, staged, p);
    }
  }

  /** Every one of the downloaders succeeds. */
  predicate AllDownload(ds: seq<Downloader>, remote: Remote) {
    forall j :: 0 <= j < |ds| ==> DownloadResult(ds[j], remote).Success?
  }

  /** The staging file of every one of the downloaders holds the rows of its entry. */
  predicate AllStaged(ds: seq<Downloader>, remote: Remote, staged: map<string, seq<Row>>) {
    forall j :: 0 <= j < |ds| ==> Staged(ds[j], remote, staged)
  }

  /** The downloader's staging file holds the rows of its entry that parse. */
  predicate Staged(d: Downloader, remote: Remote, staged: map<string, seq<Row>>) {
    d.config.output.data in staged
    && staged[d.config.output.data] == StagedRows(d.lineParser, WrittenLines(d, remote))
  }

  /** No two of the downloaders write the same data file or the same header file. */
  predicate SeparateFiles(ds: seq<Downloader>) {
    forall i, j :: 0 <= i < j < |ds| ==>
      ds[i].config.output.data != ds[j].config.output.data
      && ds[i].config.output.header != ds[j].config.output.header
  }

  /** The downloaders `download_all` creates, one per registry key in key order. */
  function RegistryDownloaders(): (ds: seq<Downloader>)
    ensures |ds| == |TableNames|
    ensures forall k :: 0 <= k < |TableNames| ==> New(TableNames[k]) == Success(ds[k])
  {
    RegistryKeys();
    seq(|TableNames|, k requires 0 <= k < |TableNames| => DownloaderFor(TableNames[k]))
  }

  /** The registry's downloaders write separate data files. */
  lemma RegistrySeparate()
    ensures SeparateFiles(RegistryDownloaders())
  {
    RegistryKeys();
    var ds := RegistryDownloaders();
    forall i, j | 0 <= i < j < |ds|
      ensures ds[i].config.output.data != ds[j].config.output.data
      ensures ds[i].config.output.header != ds[j].config.output.header
    {
      DistinctEntries(TableNames[i], TableNames[j]);
    }
  }

  /** Staging one more table keeps the files staged before it. */
  lemma StageStep(ds: seq<Downloader>, i: nat, remote: Remote, staged: map<string, seq<Row>>)
    requires i < |ds| && SeparateFiles(ds) && AllStaged(ds[..i], remote, staged)
    ensures AllStaged(ds[..i + 1], remote,
      staged[ds[i].config.output.data := StagedRows(ds[i].lineParser, WrittenLines(ds[i], remote))])
  {
  }

  lemma AllDownloadStep(ds: seq<Downloader>, i: nat, remote: Remote)
    requires i < |ds| && AllDownload(ds[..i], remote)
    ensures AllDownload(ds[..i + 1], remote) <==> DownloadResult(ds[i], remote).Success?
    ensures !DownloadResult(ds[i], remote).Success? ==> !AllDownload(ds, remote)
  {
    var next := ds[..i + 1];
    assert next[i] == ds[i];
    if DownloadResult(ds[i], remote).Success? {
      forall j | 0 <= j < i + 1
        ensures DownloadResult(next[j], remote).Success?
      {
        if j < i {
          assert next[j] == ds[..i][j];
        }
      }
    }
  }

  lemma LogStep(ds: seq<Downloader>, i: nat, remote: Remote, before: seq<Event>)
    requires i < |ds|
    ensures before + AllLogs(ds[..i + 1], remote) == before + AllLogs(ds[..i], remote) + DownloadLog(ds[i], remote)
  {
    assert ds[..i + 1][..i] == ds[..i];
  }

  /** One turn of the loop of `download_all`: run the next downloader. */
  method DownloadNext(ds: seq<Downloader>, i: nat, remote: Remote, disk: Disk) returns (r: Result<(), DownloadError>)
    requires i < |ds| && SeparateFiles(ds)
    requires AllDownload(ds[..i], remote) && AllStaged(ds[..i], remote, disk.staged)
    modifies disk
    ensures r == DownloadResult(ds[i], remote)
    ensures r.Success? ==> AllDownload(ds[..i + 1], remote) && AllStaged(ds[..i + 1], remote, disk.staged)
    ensures r.Failure? ==> !AllDownload(ds, remote) && AllStaged(ds[..i], remote, disk.staged)
    ensures ds[i].config.source.header in remote.documents ==> Staged(ds[i], remote, disk.staged)
    ensures disk.log == old(disk.log) + DownloadLog(ds[i], remote)
    ensures disk.headers == old(disk.headers)[ds[i].config.output.header := HeaderText(ds[i], remote)]
    ensures disk.staged == StageOne(ds[i], remote, old(disk.staged))
  {
    r := Download(ds[i], remote, disk);
    AllDownloadStep(ds, i, remote);
    if ds[i].config.source.header in remote.documents {
      StageStep(ds, i, remote, old(disk.staged));
      assert forall j :: 0 <= j < i ==> ds[..i + 1][j] == ds[..i][j];
    }
  }

  /** The disk after the first `n` downloaders have run, from `log0`,
      `headers0` and `staged0`: their file operations appended to the log, and
      the header and staging files they leave. */
  predicate RanThrough(ds: seq<Downloader>, n: nat, remote: Remote,
                       log0: seq<Event>, headers0: map<string, string>, staged0: map<string, seq<Row>>,
                       log: seq<Event>, headers: map<string, string>, staged: map<string, seq<Row>>)
    requires n <= |ds|
  {
    log == log0 + AllLogs(ds[..n], remote)
    && headers == HeadersAfter(ds[..n], remote, headers0)
    && staged == StagedAfter(ds[..n], remote, staged0)
  }

  /** Running downloader `i` extends a run through the first `i`. */
  lemma RanStep(ds: seq<Downloader>, i: nat, remote: Remote,
                log0: seq<Event>, headers0: map<string, string>, staged0: map<string, seq<Row>>,
                log: seq<Event>, headers: map<string, string>, staged: map<string, seq<Row>>,
                log': seq<Event>, headers': map<string, string>, staged': map<string, seq<Row>>)
    requires i < |ds|
    requires RanThrough(ds, i, remote, log0, headers0, staged0, log, headers, staged)
    requires log' == log + DownloadLog(ds[i], remote)
    requires headers' == headers[ds[i].config.output.header := HeaderText(ds[i], remote)]
    requires staged' == StageOne(ds[i], remote, staged)
    ensures RanThrough(ds, i + 1, remote, log0, headers0, staged0, log', headers', staged')
  {
    LogStep(ds, i, remote, log0);
    FoldStep(ds, i, remote, headers0, staged0);
  }

  /** The run stopped at downloader `k`: all before it succeeded, `r` is its
      error, the disk is what the first `k + 1` leave, the files before it
      are staged, and its own file holds the lines before the failure
      whenever its data file was opened. */
  predicate StoppedAt(ds: seq<Downloader>, k: nat, remote: Remote, r: Result<(), DownloadError>,
                      log0: seq<Event>, headers0: map<string, string>, staged0: map<string, seq<Row>>,
                      log: seq<Event>, headers: map<string, string>, staged: map<string, seq<Row>>)
  {
    k < |ds| && AllDownload(ds[..k], remote) && r == DownloadResult(ds[k], remote)
    && RanThrough(ds, k + 1, remote, log0, headers0, staged0, log, headers, staged)
    && AllStaged(ds[..k], remote, staged)
    && (ds[k].config.source.header in remote.documents ==> Staged(ds[k], remote, staged))
  }

  /** The loop of `download_all`: run the downloaders in order; the first
      failure stops it. The disk is what all the downloaders leave on
      success, and what those up to the failing one leave otherwise. */
  method DownloadEach(ds: seq<Downloader>, remote: Remote, disk: Disk) returns (r: Result<(), DownloadError>)
    requires SeparateFiles(ds)
    modifies disk
    ensures r.Success? <==> AllDownload(ds, remote)
    ensures r.Success? ==>
      RanThrough(ds, |ds|, remote, old(disk.log), old(disk.headers), old(disk.staged), disk.log, disk.headers, disk.staged)
      && AllStaged(ds, remote, disk.staged)
    ensures r.Failure? ==> exists k ::
      StoppedAt(ds, k, remote, r, old(disk.log), old(disk.headers), old(disk.staged), disk.log, disk.headers, disk.staged)
  {
    r := Success(());
    var i := 0;
    while i < |ds|
      invariant 0 <= i <= |ds|
      invariant r.Success? && AllDownload(ds[..i], remote)
      invariant RanThrough(ds, i, remote, old(disk.log), old(disk.headers), old(disk.staged), disk.log, disk.headers, disk.staged)
      invariant AllStaged(ds[..i], remote, disk.staged)
    {
      ghost var log, headers, staged := disk.log, disk.headers, disk.staged;
      r := DownloadNext(ds, i, remote, disk);
      RanStep(ds, i, remote, old(disk.log), old(disk.headers), old(disk.staged), log, headers, staged,
              disk.log, disk.headers, disk.staged);
      if r.Failure? {
        assert StoppedAt(ds, i, remote, r, old(disk.log), old(disk.headers), old(disk.staged), disk.log, disk.headers, disk.staged);
        return;
      }
      i := i + 1;
    }
  }

  /** `Downloader.download_all`: every registry key, once each, in key order;
      the first failure stops the run. After a full run every table's header
      file holds its header text. */
  method DownloadAll(remote: Remote, disk: Disk) returns (r: Result<(), DownloadError>)
    modifies disk
    ensures r.Success? <==> AllDownload(RegistryDownloaders(), remote)
    ensures r.Success? ==>
      RanThrough(RegistryDownloaders(), |TableNames|, remote, old(disk.log), old(disk.headers), old(disk.staged),
                 disk.log, disk.headers, disk.staged)
      && AllStaged(RegistryDownloaders(), remote, disk.staged)
    ensures r.Success? ==> forall k :: 0 <= k < |TableNames| ==>
      RegistryDownloaders()[k].config.output.header in disk.headers
      && disk.headers[RegistryDownloaders()[k].config.output.header] == HeaderText(RegistryDownloaders()[k], remote)
    ensures r.Failure? ==> exists k ::
      StoppedAt(RegistryDownloaders(), k, remote, r, old(disk.log), old(disk.headers), old(disk.staged),
                disk.log, disk.headers, disk.staged)
  {
    var ds := RegistryDownloaders();
    RegistrySeparate();
    r := DownloadEach(ds, remote, disk);
    if r.Success? {
      assert ds[..|ds|] == ds;
      forall k | 0 <= k < |TableNames|
        ensures ds[k].config.output.header in disk.headers
        ensures disk.headers[ds[k].config.output.header] == HeaderText(ds[k], remote)
      {
        HeadersAfterHold(ds, remote, old(disk.headers), k);
      }
    }
  }
}
