/** The per-line parsers of fec/downloader.rb: `CSV.parse_line(line,
    col_sep: '|', quote_char: "\x00")`, optionally sliced to its first 25
    fields. With NUL as the quote character and no NUL in the data, no
    character is special except the pipe, so parsing is splitting. */
module RowParser {
  import opened Wrappers

  const Pipe: char := '|'

  /** A parsed cell: Ruby's CSV yields nil for an empty unquoted field. */
  type Cell = Option<string>
  type Row = seq<Cell>

  /** Occurrences of `d` in `s`. */
  function Count(s: string, d: char): nat {
    if s == [] then 0 else (if s[0] == d then 1 else 0) + Count(s[1..], d)
  }

  /** The maximal runs of `s` between occurrences of `d`, in order. */
  function Split(s: string, d: char): (fields: seq<string>)
    ensures |fields| == Count(s, d) + 1
    ensures forall k :: 0 <= k < |fields| ==> d !in fields[k]
  {
    if s == [] then [""]
    else if s[0] == d then [""] + Split(s[1..], d)
    else
      var rest := Split(s[1..], d);
      [[s[0]] + rest[0]] + rest[1..]
  }

  /** The fields written back with `d` between neighbours. */
  function Join(fields: seq<string>, d: char): string {
    if fields == [] then ""
    else if |fields| == 1 then fields[0]
    else fields[0] + [d] + Join(fields[1..], d)
  }

  lemma {:induction false} JoinSplit(s: string, d: char)
    ensures Join(Split(s, d), d) == s
  {
    if s != [] {
      var rest := Split(s[1..], d);
      JoinSplit(s[1..], d);
      if s[0] == d {
        assert Split(s, d) == [""] + rest;
        assert ([""] + rest)[1..] == rest;
      } else {
        assert Split(s, d) == [[s[0]] + rest[0]] + rest[1..];
        if |rest| > 1 {
          var tail := rest[1..];
          assert ([[s[0]] + rest[0]] + tail)[1..] == tail;
          assert Join(rest, d) == rest[0] + [d] + Join(tail, d);
        }
      }
    }
  }

  /** Splitting `a`, `d`, `t` where `a` holds no `d` gives `a` and then `t`'s fields. */
  lemma {:induction false} SplitAfterField(a: string, t: string, d: char)
    requires d !in a
    ensures Split(a + [d] + t, d) == [a] + Split(t, d)
  {
    if a == [] {
      assert a + [d] + t == [d] + t;
      assert ([d] + t)[1..] == t;
    } else {
      SplitAfterField(a[1..], t, d);
      assert (a + [d] + t)[1..] == a[1..] + [d] + t;
      assert [a[0]] + a[1..] == a;
    }
  }

  lemma {:induction false} SplitField(a: string, d: char)
    requires d !in a
    ensures Split(a, d) == [a]
  {
    if a != [] {
      SplitField(a[1..], d);
      assert [a[0]] + a[1..] == a;
    }
  }

  /** Split undoes Join for fields free of the delimiter. */
  lemma {:induction false} SplitJoin(fields: seq<string>, d: char)
    requires |fields| > 0
    requires forall k :: 0 <= k < |fields| ==> d !in fields[k]
    ensures Split(Join(fields, d), d) == fields
  {
    if |fields| == 1 {
      SplitField(fields[0], d);
    } else {
      SplitJoin(fields[1..], d);
      SplitAfterField(fields[0], Join(fields[1..], d), d);
      assert [fields[0]] + fields[1..] == fields;
    }
  }

  function ToCell(field: string): Cell {
    if field == "" then None else Some(field)
  }

  function FromCell(c: Cell): string {
    match c
    case None => ""
    case Some(s) => s
  }

  /** The line body once `CSV.parse_line` has taken off its row separator:
      a trailing "\r\n", "\n" or "\r". */
  function Body(raw: string): (body: string)
    ensures |body| <= |raw| && body == raw[..|body|]
  {
    if |raw| >= 2 && raw[|raw| - 2..] == "\r\n" then raw[..|raw| - 2]
    else if |raw| >= 1 && (raw[|raw| - 1] == '\n' || raw[|raw| - 1] == '\r') then raw[..|raw| - 1]
    else raw
  }

  /** A line as `each_line` yields it (never empty) whose body holds no NUL
      (which would open a quoted field) and no stray CR or LF. */
  predicate WellFormedLine(raw: string) {
    raw != [] && '\0' !in Body(raw) && '\r' !in Body(raw) && '\n' !in Body(raw)
  }

  /** `CSV.parse_line(line, col_sep: '|', quote_char: "\x00")`. A blank line
      parses to an empty row; otherwise every field between pipes becomes one
      cell, nil where the field is empty. */
  function ParseLine(raw: string): (row: Row)
    requires WellFormedLine(raw)
  {
    var body := Body(raw);
    if body == "" then [] else Cells(Split(body, Pipe))
  }

  function Cells(fields: seq<string>): (row: Row)
    ensures |row| == |fields|
  {
    seq(|fields|, k requires 0 <= k < |fields| => ToCell(fields[k]))
  }

  /** The text of each cell, nil written as the empty field. */
  function Fields(row: Row): (fields: seq<string>)
    ensures |fields| == |row|
  {
    seq(|row|, k requires 0 <= k < |row| => FromCell(row[k]))
  }

  lemma FieldsOfCells(fields: seq<string>)
    ensures Fields(Cells(fields)) == fields
  {
  }

  /** The parsed row is the body split on the pipe and nothing else: it has one
      cell per pipe plus one, and joining its cells with pipes gives back the
      body, so every other character, a double quote included, is kept as data. */
  lemma ParseLineSplits(raw: string)
    requires WellFormedLine(raw)
    ensures Body(raw) != "" ==> |ParseLine(raw)| == Count(Body(raw), Pipe) + 1
    ensures Body(raw) != "" ==> Fields(ParseLine(raw)) == Split(Body(raw), Pipe)
    ensures Join(Fields(ParseLine(raw)), Pipe) == Body(raw)
    ensures forall k :: 0 <= k < |ParseLine(raw)| ==> ParseLine(raw)[k] != Some("")
  {
    var body := Body(raw);
    if body != "" {
      FieldsOfCells(Split(body, Pipe));
      JoinSplit(body, Pipe);
    }
  }

  /** A field `CSV.parse_line` reads back unchanged: no pipe, no NUL, no CR or LF. */
  predicate PlainField(f: string) {
    Pipe !in f && '\0' !in f && '\r' !in f && '\n' !in f
  }

  /** Parsing a line built by joining plain fields gives those fields back. */
  lemma ParseJoined(fields: seq<string>)
    requires |fields| > 0 && Join(fields, Pipe) != ""
    requires forall k :: 0 <= k < |fields| ==> PlainField(fields[k])
    ensures WellFormedLine(Join(fields, Pipe) + "\n")
    ensures Fields(ParseLine(Join(fields, Pipe) + "\n")) == fields
  {
    var line := Join(fields, Pipe);
    JoinFree(fields, Pipe, '\0');
    JoinFree(fields, Pipe, '\r');
    JoinFree(fields, Pipe, '\n');
    BodyOfTerminated(line);
    SplitJoin(fields, Pipe);
    FieldsOfCells(Split(line, Pipe));
  }

  /** `CSV.parse_line` takes off exactly the "\n" that `each_line` leaves. */
  lemma BodyOfTerminated(line: string)
    requires '\r' !in line && '\n' !in line
    ensures Body(line + "\n") == line
  {
    var raw := line + "\n";
    assert raw[..|raw| - 1] == line;
    if |raw| >= 2 {
      assert raw[|raw| - 2] == line[|line| - 1];
      assert line[|line| - 1] in line;
    }
  }

  lemma {:induction false} JoinFree(fields: seq<string>, d: char, c: char)
    requires c != d
    requires forall k :: 0 <= k < |fields| ==> c !in fields[k]
    ensures c !in Join(fields, d)
  {
    if |fields| > 1 {
      JoinFree(fields[1..], d, c);
    }
  }

  /** The two parsers fec/downloader.rb builds: the whole split, or the split
      sliced by `[0..limit - 1]`. */
  datatype LineParser = WholeLine | FirstFields(limit: nat)

  /** Ruby's `row[0..n - 1]`: the first `n` cells, or all of a shorter row. */
  function Take(row: Row, n: nat): (r: Row)
    ensures |r| == if |row| < n then |row| else n
    ensures r == row[..|r|]
  {
    if |row| <= n then row else row[..n]
  }

  function Apply(p: LineParser, raw: string): Row
    requires WellFormedLine(raw)
  {
    match p
    case WholeLine => ParseLine(raw)
    case FirstFields(n) => Take(ParseLine(raw), n)
  }

  /** The truncating parser keeps the first `min(limit, n)` cells of the
      plain split, in order, and never pads a short row. */
  lemma TruncationKeepsPrefix(limit: nat, raw: string)
    requires WellFormedLine(raw)
    ensures var whole := Apply(WholeLine, raw);
            var cut := Apply(FirstFields(limit), raw);
            cut == whole[..|cut|]
            && (|whole| <= limit ==> cut == whole)
            && (|whole| > limit ==> |cut| == limit)
  {
  }

  /** Every character other than the delimiter lands in some field. */
  lemma {:induction false} CharInSomeField(s: string, d: char, c: char)
    requires c != d && c in s
    ensures exists k :: 0 <= k < |Split(s, d)| && c in Split(s, d)[k]
  {
    var rest := Split(s[1..], d);
    if s[0] == c {
      assert c in Split(s, d)[0];
    } else {
      assert c in s[1..];
      CharInSomeField(s[1..], d, c);
      var k :| 0 <= k < |rest| && c in rest[k];
      if s[0] == d {
        assert Split(s, d)[k + 1] == rest[k];
      } else if k == 0 {
        assert Split(s, d)[0] == [s[0]] + rest[0];
      } else {
        assert Split(s, d)[k] == rest[k];
      }
    }
  }

  /** Double quotes are data: with NUL as the quote character, a double
      quote anywhere on a well-formed line is kept inside one of its cells. */
  lemma QuotesAreData(raw: string)
    requires WellFormedLine(raw) && '"' in Body(raw)
    ensures exists j :: 0 <= j < |ParseLine(raw)| && ParseLine(raw)[j].Some? && '"' in ParseLine(raw)[j].value
  {
    var fields := Split(Body(raw), Pipe);
    CharInSomeField(Body(raw), Pipe, '"');
    var k :| 0 <= k < |fields| && '"' in fields[k];
    assert ParseLine(raw)[k] == ToCell(fields[k]);
  }
}
