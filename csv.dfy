/** The statistics files as written by `to_csv(index=False)`: one line per
    row, fields separated by ',', a field quoted only when it holds a
    separator, a quote or a line break (quotes inside doubled), a missing
    value written as the empty field. The file itself is a sequence of
    lines that the writer overwrites or extends. */
module Csv {
  import opened Cells
  import opened Strings

  predicate NeedsQuotes(s: string)
  {
    exists i :: 0 <= i < |s| && s[i] in {',', '"', '\n', '\r'}
  }

  /** `s` with every '"' doubled. */
  function DoubleQuotes(s: string): (r: string)
    ensures |r| >= |s|
    decreases |s|
  {
    if s == [] then []
    else (if s[0] == '"' then "\"\"" else [s[0]]) + DoubleQuotes(s[1..])
  }

  /** `s` with every pair '""' read back as '"'. */
  function UndoubleQuotes(s: string): string
    decreases |s|
  {
    if |s| >= 2 && s[0] == '"' && s[1] == '"' then "\"" + UndoubleQuotes(s[2..])
    else if s == [] then []
    else [s[0]] + UndoubleQuotes(s[1..])
  }

  lemma {:induction false} UndoubleDouble(s: string)
    ensures UndoubleQuotes(DoubleQuotes(s)) == s
    decreases |s|
  {
    if s != [] {
      UndoubleDouble(s[1..]);
      var d := DoubleQuotes(s[1..]);
      if s[0] == '"' {
        assert DoubleQuotes(s) == "\"\"" + d;
        assert ("\"\"" + d)[2..] == d;
      } else {
        assert DoubleQuotes(s) == [s[0]] + d;
        assert ([s[0]] + d)[1..] == d;
      }
      assert s == [s[0]] + s[1..];
    }
  }

  /** The QUOTE_MINIMAL rendering of a text field: it reads back as
      written, and it is left bare exactly when it needs no quotes, so a
      bare field holds no separator and no quote. */
  function QuoteField(s: string): (r: string)
    ensures UnquoteField(r) == s
    ensures r == s <==> !NeedsQuotes(s)
    ensures r == s ==> ',' !in s && '"' !in s
  {
    if NeedsQuotes(s) then
      var q := "\"" + DoubleQuotes(s) + "\"";
      assert q[1..|q| - 1] == DoubleQuotes(s);
      UndoubleDouble(s);
      q
    else s
  }

  /** Reading one field back: a quoted field loses its quotes and its
      doubled quotes. */
  function UnquoteField(f: string): string
  {
    if |f| >= 2 && f[0] == '"' && f[|f| - 1] == '"' then UndoubleQuotes(f[1..|f| - 1]) else f
  }

  /** A value as `to_csv` writes it. */
  datatype Field = Str(s: string) | Count(n: nat) | Absent

  function RenderField(f: Field): string
  {
    match f
    case Str(s) => QuoteField(s)
    case Count(n) => NatToString(n)
    case Absent => ""
  }

  /** A value renders without a ',' unless it is text holding one. */
  predicate CommaFree(f: Field)
  {
    f.Str? ==> ',' !in f.s
  }

  /** One line: the rendered fields joined by ','. When no text field holds
      a ',', the line splits back into the rendered fields. */
  function RenderRecord(fields: seq<Field>): (line: string)
    requires |fields| >= 1
    ensures (forall i :: 0 <= i < |fields| ==> CommaFree(fields[i])) ==>
      |Split(line, ',')| == |fields| && forall i :: 0 <= i < |fields| ==> Split(line, ',')[i] == RenderField(fields[i])
  {
    var rendered := seq(|fields|, i requires 0 <= i < |fields| => RenderField(fields[i]));
    if forall i :: 0 <= i < |fields| ==> CommaFree(fields[i]) then
      assert forall i :: 0 <= i < |fields| ==> ',' !in rendered[i] by {
        forall i | 0 <= i < |fields| ensures ',' !in rendered[i] {
          RenderedCommaFree(fields[i]);
        }
      }
      SplitJoin(rendered, ',');
      Join(rendered, ',')
    else Join(rendered, ',')
  }

  /** A comma-free value renders without a ','. */
  lemma RenderedCommaFree(f: Field)
    requires CommaFree(f)
    ensures ',' !in RenderField(f)
  {
    match f
    case Str(s) =>
      DoubleQuotesKeepsComma(s);
      if NeedsQuotes(s) {
        assert RenderField(f) == "\"" + DoubleQuotes(s) + "\"";
      }
    case Count(n) =>
      assert forall j :: 0 <= j < |RenderField(f)| ==> IsDigit(RenderField(f)[j]);
    case Absent =>
  }

  lemma {:induction false} DoubleQuotesKeepsComma(s: string)
    requires ',' !in s
    ensures ',' !in DoubleQuotes(s)
    decreases |s|
  {
    if s != [] {
      assert ',' !in s[1..];
      DoubleQuotesKeepsComma(s[1..]);
    }
  }

  /** A record whose text fields hold no ',' splits back into its rendered
      fields, and each reads back as the value written: text unquoted, a
      count parsed, an absent value as the empty field. */
  lemma RecordRoundTrip(fields: seq<Field>)
    requires |fields| >= 1
    requires forall i :: 0 <= i < |fields| ==> CommaFree(fields[i])
    ensures var parts := Split(RenderRecord(fields), ',');
      && |parts| == |fields|
      && forall i :: 0 <= i < |fields| ==>
        match fields[i]
        case Str(s) => UnquoteField(parts[i]) == s
        case Count(n) => (forall j :: 0 <= j < |parts[i]| ==> IsDigit(parts[i][j])) && ParseNat(parts[i]) == n
        case Absent => parts[i] == ""
  {
    var parts := Split(RenderRecord(fields), ',');
    forall i | 0 <= i < |fields| && fields[i].Count? ensures ParseNat(parts[i]) == fields[i].n {
      ParseNatToString(fields[i].n);
    }
  }

  /** The header line: the column names joined by ','; it splits back into
      the names when none holds a ','. */
  function Header(columns: seq<string>): (line: string)
    requires |columns| >= 1
    ensures (forall i :: 0 <= i < |columns| ==> ',' !in columns[i]) ==> Split(line, ',') == columns
  {
    if forall i :: 0 <= i < |columns| ==> ',' !in columns[i] then
      SplitJoin(columns, ',');
      Join(columns, ',')
    else Join(columns, ',')
  }

  /** The lines of a file after `to_csv(header=not append_only, mode='a' if
      append_only else 'w')`. */
  function AfterWrite(lines: seq<string>, header: string, records: seq<string>, appendOnly: bool): (r: seq<string>)
    ensures appendOnly ==> |r| == |lines| + |records| && r[..|lines|] == lines && r[|lines|..] == records
    ensures !appendOnly ==> |r| == 1 + |records| && r[0] == header && r[1..] == records
  {
    if appendOnly then lines + records else [header] + records
  }

  /** A run that overwrites followed by runs that append leaves exactly one
      header, at the top, followed by the records of every run in order. */
  lemma {:induction false} OverwriteThenAppend(lines: seq<string>, header: string, first: seq<string>, later: seq<seq<string>>)
    ensures AppendAll(AfterWrite(lines, header, first, false), header, later) == [header] + first + Flatten(later)
    decreases |later|
  {
    if later != [] {
      var prev := later[..|later| - 1];
      OverwriteThenAppend(lines, header, first, prev);
      assert Flatten(later) == Flatten(prev) + later[|later| - 1];
    }
  }

  /** The lines after a sequence of appending runs. */
  function AppendAll(lines: seq<string>, header: string, runs: seq<seq<string>>): seq<string>
    decreases |runs|
  {
    if runs == [] then lines
    else AfterWrite(AppendAll(lines, header, runs[..|runs| - 1]), header, runs[|runs| - 1], true)
  }

  function Flatten(runs: seq<seq<string>>): seq<string>
    decreases |runs|
  {
    if runs == [] then [] else Flatten(runs[..|runs| - 1]) + runs[|runs| - 1]
  }

  /** A statistics file, as its sequence of lines. */
  class CsvFile {
    var lines: seq<string>

    constructor (initial: seq<string>)
      ensures lines == initial
    {
      lines := initial;
    }

    /** `df.to_csv(path, index=False, header=not appendOnly, mode=...)`. */
    method Write(header: string, records: seq<string>, appendOnly: bool)
      modifies this
      ensures lines == AfterWrite(old(lines), header, records, appendOnly)
    {
      if appendOnly {
        lines := lines + records;
      } else {
        lines := [header] + records;
      }
    }
  }
}
