/** MondoKitTestApp/CurrencyFormatter.swift: the bundled SwiftCSV parser
    (headers, rows and columns of a delimited text) and the table from ISO
    4217 currency codes to their number of minor-unit digits that
    `CurrencyFormatter` builds from it. */
module CurrencyFormatter {
  import opened Wrappers
  import opened Strings

  // ---------------------------------------------------------------------
  // Lines

  /** `NSCharacterSet.newlineCharacterSet()`: U+000A to U+000D, U+0085,
      U+2028 and U+2029. */
  predicate IsNewline(c: char) {
    '\n' <= c <= '\r' || c == '\U{0085}' || c == '\U{2028}' || c == '\U{2029}'
  }

  predicate NoNewlineAtEnds(s: string) {
    s == [] || (!IsNewline(s[0]) && !IsNewline(s[|s| - 1]))
  }

  function TrimLeading(s: string): (r: string)
    ensures |r| <= |s| && r == s[|s| - |r|..]
    ensures forall k | 0 <= k < |s| - |r| :: IsNewline(s[k])
    ensures r == [] || !IsNewline(r[0])
  {
    if s != [] && IsNewline(s[0]) then TrimLeading(s[1..]) else s
  }

  function TrimTrailing(s: string): (r: string)
    ensures |r| <= |s| && r == s[..|r|]
    ensures forall k | |r| <= k < |s| :: IsNewline(s[k])
    ensures r == [] || !IsNewline(r[|r| - 1])
  {
    if s != [] && IsNewline(s[|s| - 1]) then TrimTrailing(s[..|s| - 1]) else s
  }

  /** How many characters trimming removes from the front of `s`. */
  function TrimmedFront(s: string): nat {
    |TrimTrailing(s)| - |TrimLeading(TrimTrailing(s))|
  }

  /** `stringByTrimmingCharactersInSet(newline)`: `s` with its leading and
      trailing newline characters removed; what remains is the slice of `s`
      between them, and it neither starts nor ends with one. */
  function TrimNewlines(s: string): (r: string)
    ensures NoNewlineAtEnds(r)
    ensures TrimmedFront(s) + |r| <= |s| && r == s[TrimmedFront(s)..TrimmedFront(s) + |r|]
    ensures forall k | 0 <= k < TrimmedFront(s) :: IsNewline(s[k])
    ensures forall k | TrimmedFront(s) + |r| <= k < |s| :: IsNewline(s[k])
  {
    var t := TrimTrailing(s);
    var r := TrimLeading(t);
    assert forall k | 0 <= k < |t| - |r| :: IsNewline(s[k]) by {
      forall k | 0 <= k < |t| - |r| ensures IsNewline(s[k]) {
        assert t[k] == s[k];
      }
    }
    r
  }

  /** The end-of-line characters `enumerateLines` breaks at ("\r\n" counts
      as one). */
  predicate IsLineTerminator(c: char) {
    c == '\n' || c == '\r' || c == '\U{0085}' || c == '\U{2028}' || c == '\U{2029}'
  }

  /** The lines of `s` between line terminators, "\r\n" being one. */
  function SplitLines(s: string): (lines: seq<string>)
    ensures |lines| >= 1
    decreases |s|
  {
    if s == [] then [""]
    else if |s| >= 2 && s[0] == '\r' && s[1] == '\n' then [""] + SplitLines(s[2..])
    else if IsLineTerminator(s[0]) then [""] + SplitLines(s[1..])
    else
      var rest := SplitLines(s[1..]);
      [[s[0]] + rest[0]] + rest[1..]
  }

  /** The lines `enumerateLines` reports for the trimmed contents: none for
      nothing, and otherwise one per terminator-separated piece (a trimmed
      string has no terminator at its end). */
  function LinesOf(contents: string): (lines: seq<string>)
    ensures |lines| == 0 <==> TrimNewlines(contents) == []
  {
    var trimmed := TrimNewlines(contents);
    if trimmed == [] then [] else SplitLines(trimmed)
  }

  /** No line contains a line terminator. */
  lemma {:induction false} SplitLinesHaveNoTerminator(s: string)
    ensures forall i, k | 0 <= i < |SplitLines(s)| && 0 <= k < |SplitLines(s)[i]| :: !IsLineTerminator(SplitLines(s)[i][k])
    decreases |s|
  {
    if s != [] {
      if |s| >= 2 && s[0] == '\r' && s[1] == '\n' {
        SplitLinesHaveNoTerminator(s[2..]);
      } else {
        SplitLinesHaveNoTerminator(s[1..]);
      }
    }
  }

  /** `s` with each "\r\n" and each other line terminator written as one
      "\n". */
  function NormalizeLineEnds(s: string): (r: string)
    ensures |r| <= |s|
    ensures forall k | 0 <= k < |r| :: IsLineTerminator(r[k]) ==> r[k] == '\n'
    decreases |s|
  {
    if s == [] then []
    else if |s| >= 2 && s[0] == '\r' && s[1] == '\n' then "\n" + NormalizeLineEnds(s[2..])
    else if IsLineTerminator(s[0]) then "\n" + NormalizeLineEnds(s[1..])
    else [s[0]] + NormalizeLineEnds(s[1..])
  }

  /** The lines of `s` are the pieces between the "\n"s of its normalized
      form: every terminator, "\r\n" included, ends exactly one line, and
      every other character stays in its line, in order. */
  lemma {:induction false} SplitLinesNormalized(s: string)
    ensures SplitLines(s) == Split(NormalizeLineEnds(s), {'\n'})
    decreases |s|
  {
    if s != [] {
      var n := NormalizeLineEnds(s);
      if |s| >= 2 && s[0] == '\r' && s[1] == '\n' {
        SplitLinesNormalized(s[2..]);
        assert n[0] == '\n' && n[1..] == NormalizeLineEnds(s[2..]);
      } else if IsLineTerminator(s[0]) {
        SplitLinesNormalized(s[1..]);
        assert n[0] == '\n' && n[1..] == NormalizeLineEnds(s[1..]);
      } else {
        SplitLinesNormalized(s[1..]);
        assert n[0] == s[0] && n[1..] == NormalizeLineEnds(s[1..]);
      }
    }
  }

  /** Joining the lines with "\n" gives back the text with its terminators
      normalized: no character other than a terminator is lost. */
  lemma JoinSplitLines(s: string)
    ensures Join(SplitLines(s), '\n') == NormalizeLineEnds(s)
  {
    SplitLinesNormalized(s);
    JoinSplit(NormalizeLineEnds(s), '\n');
  }

  // ---------------------------------------------------------------------
  // Headers, rows and columns

  /** `parseHeaders`: the first line split at the delimiter characters. */
  function ParseHeaders(lines: seq<string>, delimiter: set<char>): (headers: seq<string>)
    requires |lines| >= 1
    ensures |headers| >= 1
    ensures forall i, k | 0 <= i < |headers| && 0 <= k < |headers[i]| :: headers[i][k] !in delimiter
  {
    SplitPiecesHaveNoSeparator(lines[0], delimiter);
    Split(lines[0], delimiter)
  }

  /** The row one line gives: each header mapped to the field at its index,
      or to "" past the last field; a later header of the same name
      overwrites an earlier one. */
  function RowOf(headers: seq<string>, values: seq<string>): map<string, string> {
    if headers == [] then map[]
    else
      var n := |headers| - 1;
      RowOf(headers[..n], values)[headers[n] := if n < |values| then values[n] else ""]
  }

  /** The rows of the lines after the first, in order. */
  function RowsOf(headers: seq<string>, lines: seq<string>, delimiter: set<char>): (rows: seq<map<string, string>>)
    ensures |rows| == if |lines| == 0 then 0 else |lines| - 1
    ensures forall i | 0 <= i < |rows| :: rows[i] == RowOf(headers, Split(lines[i + 1], delimiter))
  {
    if |lines| <= 1 then []
    else
      var n := |lines| - 1;
      RowsOf(headers, lines[..n], delimiter) + [RowOf(headers, Split(lines[n], delimiter))]
  }

  /** The header set of `headers`. */
  function HeaderSet(headers: seq<string>): set<string> {
    set i | 0 <= i < |headers| :: headers[i]
  }

  /** Each row has exactly the headers as its keys. */
  lemma {:induction false} RowOfKeys(headers: seq<string>, values: seq<string>)
    ensures RowOf(headers, values).Keys == HeaderSet(headers)
    decreases |headers|
  {
    if headers != [] {
      var n := |headers| - 1;
      RowOfKeys(headers[..n], values);
      assert HeaderSet(headers) == HeaderSet(headers[..n]) + {headers[n]} by {
        forall h | h in HeaderSet(headers) ensures h in HeaderSet(headers[..n]) + {headers[n]} {
          var i :| 0 <= i < |headers| && headers[i] == h;
          if i < n { assert headers[..n][i] == h; }
        }
        forall h | h in HeaderSet(headers[..n]) ensures h in HeaderSet(headers) {
          var i :| 0 <= i < n && headers[..n][i] == h;
          assert headers[i] == h;
        }
      }
    }
  }

  /** The value of a header is the field at its last index, or "" when the
      line has no field there. */
  lemma {:induction false} RowOfValue(headers: seq<string>, values: seq<string>, i: nat)
    requires i < |headers|
    requires forall j | i < j < |headers| :: headers[j] != headers[i]
    ensures headers[i] in RowOf(headers, values)
    ensures RowOf(headers, values)[headers[i]] == if i < |values| then values[i] else ""
    decreases |headers|
  {
    var n := |headers| - 1;
    if i < n {
      assert headers[..n][i] == headers[i];
      forall j | i < j < n ensures headers[..n][j] != headers[..n][i] {
        assert headers[..n][j] == headers[j];
      }
      RowOfValue(headers[..n], values, i);
    }
  }

  /** The columns: each header mapped to its value in every row, in row
      order ("" for a row without it). */
  function ColumnsOf(headers: seq<string>, rows: seq<map<string, string>>): (columns: map<string, seq<string>>)
    ensures forall h | h in columns :: |columns[h]| == |rows|
  {
    if headers == [] then map[]
    else
      var h := headers[|headers| - 1];
      ColumnsOf(headers[..|headers| - 1], rows)[h := Column(h, rows)]
  }

  function Column(h: string, rows: seq<map<string, string>>): (column: seq<string>)
    ensures |column| == |rows|
    ensures forall i | 0 <= i < |rows| :: column[i] == if h in rows[i] then rows[i][h] else ""
  {
    seq(|rows|, i requires 0 <= i < |rows| => if h in rows[i] then rows[i][h] else "")
  }

  /** Every header has a column, and nothing else has. */
  lemma {:induction false} ColumnsOfKeys(headers: seq<string>, rows: seq<map<string, string>>)
    ensures ColumnsOf(headers, rows).Keys == HeaderSet(headers)
    ensures forall h | h in ColumnsOf(headers, rows) :: ColumnsOf(headers, rows)[h] == Column(h, rows)
    decreases |headers|
  {
    if headers != [] {
      var n := |headers| - 1;
      ColumnsOfKeys(headers[..n], rows);
      assert HeaderSet(headers) == HeaderSet(headers[..n]) + {headers[n]} by {
        forall h | h in HeaderSet(headers) ensures h in HeaderSet(headers[..n]) + {headers[n]} {
          var i :| 0 <= i < |headers| && headers[i] == h;
          if i < n { assert headers[..n][i] == h; }
        }
        forall h | h in HeaderSet(headers[..n]) ensures h in HeaderSet(headers) {
          var i :| 0 <= i < n && headers[..n][i] == h;
          assert headers[i] == h;
        }
      }
    }
  }

  /** `CSV`: the parsed form of a delimited text. */
  class CSV {
    var headers: seq<string>
    var rows: seq<map<string, string>>
    var columns: map<string, seq<string>>
    var delimiter: set<char>

    /** `init(contentsOfFile:delimiter:encoding:error:)` for the contents
        read from the file. The contents must hold something besides
        newlines: the first line is read unconditionally. */
    constructor (contents: string, delimiter: set<char>)
      requires TrimNewlines(contents) != []
      ensures this.delimiter == delimiter
      ensures headers == ParseHeaders(LinesOf(contents), delimiter)
      ensures rows == RowsOf(headers, LinesOf(contents), delimiter)
      ensures columns == ColumnsOf(headers, rows)
    {
      this.delimiter := delimiter;
      new;
      var lines := LinesOf(contents);
      headers := ParseHeaders(lines, this.delimiter);
      rows := ParseRows(lines);
      columns := ParseColumns();
    }

    /** `parseRows`: one row per line after the first. */
    method ParseRows(lines: seq<string>) returns (result: seq<map<string, string>>)
      ensures result == RowsOf(headers, lines, delimiter)
    {
      result := [];
      for lineNumber := 0 to |lines|
        invariant result == RowsOf(headers, lines[..lineNumber], delimiter)
      {
        if lineNumber == 0 {
          continue;
        }
        var row: map<string, string> := map[];
        var values := Split(lines[lineNumber], delimiter);
        for index := 0 to |headers|
          invariant row == RowOf(headers[..index], values)
        {
          assert headers[..index + 1][..index] == headers[..index];
          if index < |values| {
            row := row[headers[index] := values[index]];
          } else {
            row := row[headers[index] := ""];
          }
        }
        assert headers[..|headers|] == headers;
        result := result + [row];
        assert lines[..lineNumber + 1][..lineNumber] == lines[..lineNumber];
      }
      assert lines[..|lines|] == lines;
    }

    /** `parseColumns`: one column per header. */
    method ParseColumns() returns (result: map<string, seq<string>>)
      ensures result == ColumnsOf(headers, rows)
    {
      result := map[];
      for k := 0 to |headers|
        invariant result == ColumnsOf(headers[..k], rows)
      {
        assert headers[..k + 1][..k] == headers[..k];
        result := result[headers[k] := Column(headers[k], rows)];
      }
      assert headers[..|headers|] == headers;
    }
  }

  /** Parsed lines have one row per line after the first, a row per line
      that maps each header to its field, and a column per header whose
      entries are that header's field in each row. */
  lemma ParsedShape(lines: seq<string>, delimiter: set<char>, r: nat, i: nat)
    requires r + 1 < |lines|
    requires i < |ParseHeaders(lines, delimiter)|
    requires forall j | i < j < |ParseHeaders(lines, delimiter)| ::
               ParseHeaders(lines, delimiter)[j] != ParseHeaders(lines, delimiter)[i]
    ensures var headers := ParseHeaders(lines, delimiter);
            var rows := RowsOf(headers, lines, delimiter);
            var values := Split(lines[r + 1], delimiter);
            rows[r].Keys == HeaderSet(headers) &&
            rows[r][headers[i]] == (if i < |values| then values[i] else "") &&
            headers[i] in ColumnsOf(headers, rows) &&
            ColumnsOf(headers, rows)[headers[i]][r] == rows[r][headers[i]]
  {
    var headers := ParseHeaders(lines, delimiter);
    var rows := RowsOf(headers, lines, delimiter);
    var values := Split(lines[r + 1], delimiter);
    RowOfKeys(headers, values);
    RowOfValue(headers, values, i);
    ColumnsOfKeys(headers, rows);
    assert headers[i] in HeaderSet(headers);
  }

  // ---------------------------------------------------------------------
  // The minor-unit table

  /** `currencyCodeToMinorUnit` as a specification: for each row, in order,
      with a "currencyCode" and a "minorUnit" that `Int(_)` accepts, the
      code is mapped to that number, overwriting an earlier row's entry. */
  function MinorUnitTable(rows: seq<map<string, string>>): map<string, int> {
    if rows == [] then map[]
    else
      var table := MinorUnitTable(rows[..|rows| - 1]);
      var row := rows[|rows| - 1];
      if "currencyCode" in row && "minorUnit" in row && ParseInt(row["minorUnit"]).Some?
      then table[row["currencyCode"] := ParseInt(row["minorUnit"]).value]
      else table
  }

  /** A row counts when it has a code and a minor unit that parses. */
  predicate IsTableRow(row: map<string, string>) {
    "currencyCode" in row && "minorUnit" in row && ParseInt(row["minorUnit"]).Some?
  }

  /** The loop of `currencyCodeToMinorUnit`. */
  method CurrencyCodeToMinorUnit(rows: seq<map<string, string>>) returns (result: map<string, int>)
    ensures result == MinorUnitTable(rows)
  {
    result := map[];
    for i := 0 to |rows|
      invariant result == MinorUnitTable(rows[..i])
    {
      assert rows[..i + 1][..i] == rows[..i];
      var row := rows[i];
      if "currencyCode" in row && "minorUnit" in row {
        var unitInt := ParseInt(row["minorUnit"]);
        if unitInt.Some? {
          result := result[row["currencyCode"] := unitInt.value];
        }
      }
    }
    assert rows[..|rows|] == rows;
  }

  /** A code is in the table exactly when some row that counts has it. */
  lemma {:induction false} MinorUnitTableKeys(rows: seq<map<string, string>>, code: string)
    ensures code in MinorUnitTable(rows) <==>
            exists i | 0 <= i < |rows| :: IsTableRow(rows[i]) && rows[i]["currencyCode"] == code
    decreases |rows|
  {
    if rows != [] {
      var init := rows[..|rows| - 1];
      MinorUnitTableKeys(init, code);
      if exists i | 0 <= i < |rows| :: IsTableRow(rows[i]) && rows[i]["currencyCode"] == code {
        var i :| 0 <= i < |rows| && IsTableRow(rows[i]) && rows[i]["currencyCode"] == code;
        if i < |rows| - 1 {
          assert init[i] == rows[i];
        }
      }
      if code in MinorUnitTable(rows) && code !in MinorUnitTable(init) {
        assert IsTableRow(rows[|rows| - 1]) && rows[|rows| - 1]["currencyCode"] == code;
      }
    }
  }

  /** The last row that counts for a code decides its minor unit. */
  lemma {:induction false} MinorUnitTableLastWins(rows: seq<map<string, string>>, i: nat)
    requires i < |rows| && IsTableRow(rows[i])
    requires forall j | i < j < |rows| :: !IsTableRow(rows[j]) || rows[j]["currencyCode"] != rows[i]["currencyCode"]
    ensures rows[i]["currencyCode"] in MinorUnitTable(rows)
    ensures MinorUnitTable(rows)[rows[i]["currencyCode"]] == ParseInt(rows[i]["minorUnit"]).value
    decreases |rows|
  {
    if i < |rows| - 1 {
      var init := rows[..|rows| - 1];
      assert init[i] == rows[i];
      forall j | i < j < |init| ensures !IsTableRow(init[j]) || init[j]["currencyCode"] != init[i]["currencyCode"] {
        assert init[j] == rows[j];
      }
      MinorUnitTableLastWins(init, i);
    }
  }

  /** Every minor unit in the table is within the 64-bit range `Int(_)`
      accepts. */
  lemma {:induction false} MinorUnitTableRange(rows: seq<map<string, string>>)
    ensures forall code | code in MinorUnitTable(rows) :: IntMin <= MinorUnitTable(rows)[code] <= IntMax
    decreases |rows|
  {
    if rows != [] {
      MinorUnitTableRange(rows[..|rows| - 1]);
    }
  }

  /** `scale`: the minor unit of the code, and 2 for a code the table does
      not know. */
  function Scale(table: map<string, int>, isoCode: string): (scale: int)
    ensures isoCode !in table ==> scale == 2
    ensures isoCode in table ==> scale == table[isoCode]
  {
    if isoCode in table then table[isoCode] else 2
  }
}
