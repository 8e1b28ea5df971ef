/** models/candidate.rb: the status predicates of one candidate row and the
    class-level filters over the `candidates` table. A filter is an SQL
    `WHERE column = value`: it keeps, in table order, exactly the rows whose
    column holds that text, and never a row holding NULL there. */
module Candidate {
  import opened Wrappers
  import opened Store
  import Importer

  /** The candidate's attribute `key`, read from its `candidates` row. */
  function Attr(rec: Record, key: string): Value {
    Attribute(Importer.CandidatesSchema, rec, key)
  }

  /** The row's `key` attribute is the text `value`. */
  predicate Matches(rec: Record, key: string, value: string) {
    Attr(rec, key) == Str(value)
  }

  /** `where key => value`, in table order. */
  function Where(rows: seq<Record>, key: string, value: string): (out: seq<Record>)
    ensures |out| <= |rows|
    ensures forall r :: r in out <==> r in rows && Matches(r, key, value)
  {
    if rows == [] then []
    else
      var rest := Where(rows[1..], key, value);
      assert forall r :: r in rows <==> r == rows[0] || r in rows[1..];
      if Matches(rows[0], key, value) then [rows[0]] + rest else rest
  }

  /** Filtering keeps order: filtering a concatenation concatenates the
      filtered halves. Together with the single-row case this makes the
      result the subsequence of matching rows. */
  lemma {:induction false} WhereAppend(a: seq<Record>, b: seq<Record>, key: string, value: string)
    ensures Where(a + b, key, value) == Where(a, key, value) + Where(b, key, value)
  {
    if a != [] {
      var ab := a + b;
      assert ab[0] == a[0];
      assert ab[1..] == a[1..] + b;
      WhereAppend(a[1..], b, key, value);
      var rest := Where(a[1..], key, value);
      var wb := Where(b, key, value);
      if Matches(a[0], key, value) {
        calc {
          Where(ab, key, value);
          [a[0]] + Where(ab[1..], key, value);
          [a[0]] + (rest + wb);
          ([a[0]] + rest) + wb;
        }
      } else {
        assert Where(ab, key, value) == Where(ab[1..], key, value);
      }
    } else {
      assert a + b == b;
    }
  }

  lemma WhereSingle(r: Record, key: string, value: string)
    ensures Where([r], key, value) == if Matches(r, key, value) then [r] else []
  {
  }

  /** Filtering twice on the same condition is filtering once. */
  lemma {:induction false} WhereIdempotent(rows: seq<Record>, key: string, value: string)
    ensures Where(Where(rows, key, value), key, value) == Where(rows, key, value)
  {
    if rows != [] {
      WhereIdempotent(rows[1..], key, value);
    }
  }

  /** `incumbent?`, `challeneger?` and `open_seat?`. */
  predicate Incumbent(rec: Record)
    ensures Incumbent(rec) ==> !Matches(rec, "CAND_ICI", "C") && !Matches(rec, "CAND_ICI", "O")
  {
    Matches(rec, "CAND_ICI", "I")
  }

  predicate Challenger(rec: Record)
    ensures Challenger(rec) ==> !Matches(rec, "CAND_ICI", "I") && !Matches(rec, "CAND_ICI", "O")
  {
    Matches(rec, "CAND_ICI", "C")
  }

  predicate OpenSeat(rec: Record)
    ensures OpenSeat(rec) ==> !Matches(rec, "CAND_ICI", "I") && !Matches(rec, "CAND_ICI", "C")
  {
    Matches(rec, "CAND_ICI", "O")
  }

  /** `CAND_ICI` is the eighth column of `candidates`. */
  lemma IciColumn()
    ensures ColumnIndex(Importer.CandidatesSchema, "CAND_ICI") == Some(7)
  {
    var cols := Importer.CandidatesSchema.columns;
    IndexHere(cols, "CAND_ICI", 7);
    IndexSkip(cols, "CAND_ICI", 6);
    IndexSkip(cols, "CAND_ICI", 5);
    IndexSkip(cols, "CAND_ICI", 4);
    IndexSkip(cols, "CAND_ICI", 3);
    IndexSkip(cols, "CAND_ICI", 2);
    IndexSkip(cols, "CAND_ICI", 1);
    IndexSkip(cols, "CAND_ICI", 0);
  }

  /** The three status predicates test the row's `CAND_ICI` against `I`,
      `C` and `O`; at most one holds, and none holds for any other code. */
  lemma StatusMeaning(rec: Record)
    requires Fits(Importer.CandidatesSchema, rec)
    ensures Incumbent(rec) <==> rec[7] == Str("I")
    ensures Challenger(rec) <==> rec[7] == Str("C")
    ensures OpenSeat(rec) <==> rec[7] == Str("O")
    ensures !(Incumbent(rec) && Challenger(rec)) && !(Incumbent(rec) && OpenSeat(rec))
      && !(Challenger(rec) && OpenSeat(rec))
    ensures rec[7] !in {Str("I"), Str("C"), Str("O")} ==> !Incumbent(rec) && !Challenger(rec) && !OpenSeat(rec)
  {
    IciColumn();
  }

  /** `republicans`, `democrats`, `house_candidates`, `senate_candidates`. */
  function Republicans(rows: seq<Record>): (out: seq<Record>)
    ensures |out| <= |rows|
    ensures forall r :: r in out <==> r in rows && Attr(r, "CAND_PTY_AFFILIATION") == Str("REP")
  {
    Where(rows, "CAND_PTY_AFFILIATION", "REP")
  }

  function Democrats(rows: seq<Record>): (out: seq<Record>)
    ensures |out| <= |rows|
    ensures forall r :: r in out <==> r in rows && Attr(r, "CAND_PTY_AFFILIATION") == Str("DEM")
  {
    Where(rows, "CAND_PTY_AFFILIATION", "DEM")
  }

  function HouseCandidates(rows: seq<Record>): (out: seq<Record>)
    ensures |out| <= |rows|
    ensures forall r :: r in out <==> r in rows && Attr(r, "CAND_OFFICE") == Str("H")
  {
    Where(rows, "CAND_OFFICE", "H")
  }

  function SenateCandidates(rows: seq<Record>): (out: seq<Record>)
    ensures |out| <= |rows|
    ensures forall r :: r in out <==> r in rows && Attr(r, "CAND_OFFICE") == Str("S")
  {
    Where(rows, "CAND_OFFICE", "S")
  }

  lemma PartyColumn()
    ensures ColumnIndex(Importer.CandidatesSchema, "CAND_PTY_AFFILIATION") == Some(2)
  {
    var cols := Importer.CandidatesSchema.columns;
    IndexHere(cols, "CAND_PTY_AFFILIATION", 2);
    IndexSkip(cols, "CAND_PTY_AFFILIATION", 1);
    IndexSkip(cols, "CAND_PTY_AFFILIATION", 0);
  }

  lemma OfficeColumn()
    ensures ColumnIndex(Importer.CandidatesSchema, "CAND_OFFICE") == Some(5)
  {
    var cols := Importer.CandidatesSchema.columns;
    IndexHere(cols, "CAND_OFFICE", 5);
    IndexSkip(cols, "CAND_OFFICE", 4);
    IndexSkip(cols, "CAND_OFFICE", 3);
    IndexSkip(cols, "CAND_OFFICE", 2);
    IndexSkip(cols, "CAND_OFFICE", 1);
    IndexSkip(cols, "CAND_OFFICE", 0);
  }

  /** A stored candidate is among the republicans (democrats) exactly when
      its party column holds `REP` (`DEM`); no candidate is in both. */
  lemma PartyFilters(rows: seq<Record>, r: Record)
    requires Fits(Importer.CandidatesSchema, r)
    ensures r in Republicans(rows) <==> r in rows && r[2] == Str("REP")
    ensures r in Democrats(rows) <==> r in rows && r[2] == Str("DEM")
    ensures !(r in Republicans(rows) && r in Democrats(rows))
  {
    PartyColumn();
  }

  /** A stored candidate is among the house (senate) candidates exactly
      when its office column holds `H` (`S`); no candidate is in both. */
  lemma OfficeFilters(rows: seq<Record>, r: Record)
    requires Fits(Importer.CandidatesSchema, r)
    ensures r in HouseCandidates(rows) <==> r in rows && r[5] == Str("H")
    ensures r in SenateCandidates(rows) <==> r in rows && r[5] == Str("S")
    ensures !(r in HouseCandidates(rows) && r in SenateCandidates(rows))
  {
    OfficeColumn();
  }

  /** Ruby's `String#upcase` on ASCII letters: `a`..`z` become `A`..`Z`
      and every other character stays. */
  function UpcaseChar(c: char): (u: char)
    ensures 'a' <= c <= 'z' ==> 'A' <= u <= 'Z' && u as int - 'A' as int == c as int - 'a' as int
    ensures !('a' <= c <= 'z') ==> u == c
  {
    if 'a' <= c <= 'z' then (c as int - 'a' as int + 'A' as int) as char else c
  }

  function Upcase(s: string): (u: string)
    ensures |u| == |s|
  {
    seq(|s|, i requires 0 <= i < |s| => UpcaseChar(s[i]))
  }

  /** No lower-case ASCII letter is left, and upcasing again changes nothing. */
  lemma UpcaseNormal(s: string)
    ensures forall i :: 0 <= i < |s| ==> !('a' <= Upcase(s)[i] <= 'z')
    ensures Upcase(Upcase(s)) == Upcase(s)
  {
  }

  /** `state(st)`: the candidates whose office state is `st` upper-cased. */
  function State(rows: seq<Record>, st: string): (out: seq<Record>)
    ensures |out| <= |rows|
    ensures forall r :: r in out <==> r in rows && Attr(r, "CAND_OFFICE_ST") == Str(Upcase(st))
  {
    Where(rows, "CAND_OFFICE_ST", Upcase(st))
  }

  /** The state filter ignores the argument's case: any two spellings that
      upcase alike select the same rows, so `state("ny")` is `state("NY")`. */
  lemma StateIgnoresCase(rows: seq<Record>, a: string, b: string)
    requires Upcase(a) == Upcase(b)
    ensures State(rows, a) == State(rows, b)
  {
  }

  lemma StateNy(rows: seq<Record>)
    ensures State(rows, "ny") == State(rows, "NY")
  {
    assert Upcase("ny") == "NY";
    assert Upcase("NY") == "NY";
  }

  /** Every row `state(st)` returns holds `st` upper-cased, so a row stored
      with a lower-case state code is never returned. */
  lemma StateRows(rows: seq<Record>, st: string, r: Record)
    ensures r in State(rows, st) <==> r in rows && Attr(r, "CAND_OFFICE_ST") == Str(Upcase(st))
    ensures r in State(rows, st) ==> forall i :: 0 <= i < |Attr(r, "CAND_OFFICE_ST").text| ==>
      !('a' <= Attr(r, "CAND_OFFICE_ST").text[i] <= 'z')
  {
    UpcaseNormal(st);
  }

  /** The argument of `year`: an Integer, a String or nil. */
  datatype YearArg = IntYear(n: int) | StrYear(s: string) | NilYear

  predicate IsDigit(c: char) { '0' <= c <= '9' }

  /** Ruby's whitespace for `String#to_i`: space, tab, LF, VT, FF, CR. */
  predicate IsSpace(c: char) {
    c == ' ' || c == '\t' || c == '\n' || c == '\U{B}' || c == '\U{C}' || c == '\r'
  }

  /** The first index from `i` on that is not whitespace. */
  function SkipSpace(s: string, i: nat): (j: nat)
    requires i <= |s|
    ensures i <= j <= |s| && (j < |s| ==> !IsSpace(s[j]))
    decreases |s| - i
  {
    if i < |s| && IsSpace(s[i]) then SkipSpace(s, i + 1) else i
  }

  /** The end of the run of digits starting at `start`, where a single
      underscore may stand between two digits. */
  function RunEnd(s: string, start: nat, i: nat): (j: nat)
    requires start <= i <= |s|
    ensures i <= j <= |s|
    decreases |s| - i
  {
    if i < |s| && IsDigit(s[i]) then RunEnd(s, start, i + 1)
    else if i > start && i + 1 < |s| && s[i] == '_' && IsDigit(s[i - 1]) && IsDigit(s[i + 1]) then RunEnd(s, start, i + 2)
    else i
  }

  /** The digits of `s` with the underscores dropped. */
  function Strip(s: string): string {
    if s == [] then [] else (if s[0] == '_' then [] else [s[0]]) + Strip(s[1..])
  }

  /** The decimal value of a digit string. */
  function Val(ds: string): nat {
    if ds == [] then 0
    else Val(ds[..|ds| - 1]) * 10 + (if IsDigit(ds[|ds| - 1]) then ds[|ds| - 1] as int - '0' as int else 0)
  }

  /** `String#to_i`: leading whitespace, an optional sign, then the longest
      run of digits (single underscores allowed between digits); anything
      else, an empty string included, reads as 0. */
  function StrToI(s: string): (n: int)
    ensures (forall k :: 0 <= k < |s| ==> !IsDigit(s[k])) ==> n == 0
  {
    SignedAt(s, SkipSpace(s, 0))
  }

  /** The number at `i`: an optional sign, then the digits. */
  function SignedAt(s: string, i: nat): int
    requires i <= |s|
  {
    if i < |s| && s[i] == '-' then -(MagnitudeAt(s, i + 1) as int)
    else if i < |s| && s[i] == '+' then MagnitudeAt(s, i + 1)
    else MagnitudeAt(s, i)
  }

  /** The value of the digit run at `j`, or 0 when no digit stands there. */
  function MagnitudeAt(s: string, j: nat): nat
    requires j <= |s|
  {
    if j < |s| && IsDigit(s[j]) then Val(Strip(s[j..RunEnd(s, j, j)])) else 0
  }

  /** `y.to_i`. */
  function ToI(y: YearArg): int {
    match y
    case IntYear(n) => n
    case StrYear(s) => StrToI(s)
    case NilYear => 0
  }

  function Digit(d: nat): char
    requires d < 10
  {
    ('0' as int + d) as char
  }

  function NatToS(n: nat): (s: string)
    ensures |s| > 0 && forall i :: 0 <= i < |s| ==> IsDigit(s[i])
  {
    if n < 10 then [Digit(n)] else NatToS(n / 10) + [Digit(n % 10)]
  }

  /** `Integer#to_s`: decimal, with a minus sign when negative. */
  function IntToS(n: int): (s: string)
    ensures n >= 0 ==> |s| > 0 && forall i :: 0 <= i < |s| ==> IsDigit(s[i])
    ensures n < 0 ==> |s| > 1 && s[0] == '-' && forall i :: 1 <= i < |s| ==> IsDigit(s[i])
  {
    if n < 0 then "-" + NatToS(-n) else NatToS(n)
  }

  lemma {:induction false} ValNatToS(n: nat)
    ensures Val(NatToS(n)) == n
  {
    if n >= 10 {
      ValNatToS(n / 10);
      var s := NatToS(n);
      assert s[..|s| - 1] == NatToS(n / 10);
    }
  }

  lemma {:induction false} StripDigits(s: string)
    requires forall k :: 0 <= k < |s| ==> IsDigit(s[k])
    ensures Strip(s) == s
  {
    if s != [] {
      StripDigits(s[1..]);
    }
  }

  /** An all-digit tail starting at `j` is read in full, underscores
      being absent. */
  lemma ReadDigits(s: string, j: nat)
    requires j < |s| && forall k :: j <= k < |s| ==> IsDigit(s[k])
    ensures MagnitudeAt(s, j) == Val(s[j..])
  {
    RunOfDigitsFrom(s, j, j);
    assert s[j..RunEnd(s, j, j)] == s[j..];
    StripDigits(s[j..]);
  }

  /** A non-empty digit string reads as its value, with or without a
      leading minus sign. */
  lemma ReadNat(ds: string)
    requires ds != [] && forall k :: 0 <= k < |ds| ==> IsDigit(ds[k])
    ensures StrToI(ds) == Val(ds)
  {
    assert SkipSpace(ds, 0) == 0;
    ReadDigits(ds, 0);
    assert ds[0..] == ds;
  }

  lemma ReadNeg(ds: string)
    requires ds != [] && forall k :: 0 <= k < |ds| ==> IsDigit(ds[k])
    ensures StrToI("-" + ds) == -(Val(ds) as int)
  {
    var s := "-" + ds;
    assert s[0] == '-' && s[1..] == ds;
    assert SkipSpace(s, 0) == 0;
    ReadDigits(s, 1);
  }

  /** `Integer#to_s` then `String#to_i` gives the integer back, so
      `to_i.to_s` turns a year string like "2020" and the year 2020 into
      the same text. */
  lemma ToSToI(n: int)
    ensures StrToI(IntToS(n)) == n
  {
    if n < 0 {
      ReadNeg(NatToS(-n));
      ValNatToS(-n);
    } else {
      ReadNat(NatToS(n));
      ValNatToS(n);
    }
  }

  lemma {:induction false} RunOfDigitsFrom(s: string, start: nat, i: nat)
    requires start <= i <= |s|
    requires forall k :: start <= k < |s| ==> IsDigit(s[k])
    ensures RunEnd(s, start, i) == |s|
    decreases |s| - i
  {
    if i < |s| {
      RunOfDigitsFrom(s, start, i + 1);
    }
  }

  /** `year(y)`: the candidates whose election year is `y.to_i.to_s`. */
  function Year(rows: seq<Record>, y: YearArg): (out: seq<Record>)
    ensures |out| <= |rows|
    ensures forall r :: r in out <==> r in rows && Attr(r, "CAND_ELECTION_YR") == Str(IntToS(ToI(y)))
  {
    Where(rows, "CAND_ELECTION_YR", IntToS(ToI(y)))
  }

  /** Any year given as the text of an integer selects what the integer
      does, so `year("2020")` is `year(2020)`; nil selects what 0 does. */
  lemma YearNormalises(rows: seq<Record>, n: int)
    ensures Year(rows, StrYear(IntToS(n))) == Year(rows, IntYear(n))
    ensures Year(rows, NilYear) == Year(rows, IntYear(0))
  {
    ToSToI(n);
  }

  lemma Year2020(rows: seq<Record>)
    ensures Year(rows, StrYear("2020")) == Year(rows, IntYear(2020))
  {
    assert NatToS(2) == "2";
    assert NatToS(20) == "20";
    assert NatToS(202) == "202";
    assert IntToS(2020) == "2020";
    YearNormalises(rows, 2020);
  }
}
