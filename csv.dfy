/**
 * The CSV serialiser of the admin export. A cell has every `"` doubled and is
 * wrapped in quotes only when it contains a comma; cells are joined with `,`
 * and rows with a line feed, with no line feed after the last row. This is a
 * partial form of section 2 of RFC 4180: a cell holding a quote or a line
 * break is not quoted, and lines end in LF rather than CRLF.
 *
 * To say what the output means, the module also defines a reader for exactly
 * this dialect (ReadCell, SplitFields, ParseRow, Parse) and proves that it
 * reads back every row list whose cells hold no line feed.
 */
module Csv {

  /** Number of occurrences of `c` in `s`. */
  function Count(s: string, c: char): nat {
    if s == [] then 0 else (if s[0] == c then 1 else 0) + Count(s[1..], c)
  }

  /** `cell.replace(/"/g, '""')`. */
  function DoubleQuotes(s: string): (r: string)
    ensures |r| == |s| + Count(s, '"')
    ensures Count(r, '"') == 2 * Count(s, '"')
    ensures forall c :: c in r <==> c in s
  {
    if s == [] then []
    else (if s[0] == '"' then "\"\"" else [s[0]]) + DoubleQuotes(s[1..])
  }

  /** The escaping of one cell: quotes doubled, then outer quotes iff the result holds a comma. */
  function EscapeCell(s: string): (r: string)
    ensures ',' in r <==> ',' in s
    ensures forall c :: c != '"' ==> (c in r <==> c in s)
  {
    var escaped := DoubleQuotes(s);
    if ',' in escaped then "\"" + escaped + "\"" else escaped
  }

  /** `parts.join(sep)`. */
  function JoinWith(parts: seq<string>, sep: char): string {
    if |parts| == 0 then ""
    else if |parts| == 1 then parts[0]
    else parts[0] + [sep] + JoinWith(parts[1..], sep)
  }

  /** Every character of a joined string is the separator or comes from one of the parts. */
  lemma {:induction false} JoinedChars(parts: seq<string>, sep: char)
    ensures forall c :: c in JoinWith(parts, sep) ==> c == sep || exists k :: 0 <= k < |parts| && c in parts[k]
  {
    if |parts| > 1 {
      var rest := JoinWith(parts[1..], sep);
      JoinedChars(parts[1..], sep);
      forall c | c in rest && c != sep
        ensures exists k :: 1 <= k < |parts| && c in parts[k]
      {
        var k :| 0 <= k < |parts[1..]| && c in parts[1..][k];
        assert c in parts[k + 1];
      }
    }
  }

  function EscapeAll(cells: seq<string>): (r: seq<string>)
    ensures |r| == |cells|
  {
    seq(|cells|, k requires 0 <= k < |cells| => EscapeCell(cells[k]))
  }

  /** One CSV line: the escaped cells joined with commas. */
  function FormatRow(cells: seq<string>): string {
    JoinWith(EscapeAll(cells), ',')
  }

  function FormatRows(rows: seq<seq<string>>): (r: seq<string>)
    ensures |r| == |rows|
  {
    seq(|rows|, k requires 0 <= k < |rows| => FormatRow(rows[k]))
  }

  /** The whole CSV text: the formatted rows joined with line feeds. */
  function Serialize(rows: seq<seq<string>>): string {
    JoinWith(FormatRows(rows), '\n')
  }

  // ---------------------------------------------------------------------
  // A reader for the dialect above.

  /** Turns every `""` back into `"`. */
  function UndoubleQuotes(s: string): string {
    if s == [] then []
    else if s[0] == '"' && |s| >= 2 && s[1] == '"' then "\"" + UndoubleQuotes(s[2..])
    else [s[0]] + UndoubleQuotes(s[1..])
  }

  /** Reads one raw field: a field holding a comma is unwrapped first. */
  function ReadCell(raw: string): string {
    if ',' in raw && |raw| >= 2 && raw[0] == '"' && raw[|raw| - 1] == '"'
    then UndoubleQuotes(raw[1..|raw| - 1])
    else UndoubleQuotes(raw)
  }

  /** The quote state after a character: each `"` opens or closes a quoted stretch. */
  function Toggle(c: char, quoted: bool): bool {
    if c == '"' then !quoted else quoted
  }

  function QuoteStateAfter(s: string, quoted: bool): bool {
    if s == [] then quoted else QuoteStateAfter(s[1..], Toggle(s[0], quoted))
  }

  /** Every comma of `s` lies inside a quoted stretch, scanning from state `quoted`. */
  predicate CommasQuoted(s: string, quoted: bool) {
    s == [] || ((s[0] != ',' || quoted) && CommasQuoted(s[1..], Toggle(s[0], quoted)))
  }

  /** Splits a line at the commas that lie outside quoted stretches; `cur` is the field read so far. */
  function SplitFields(s: string, quoted: bool, cur: string): (r: seq<string>)
    ensures |r| >= 1
  {
    if s == [] then [cur]
    else if s[0] == ',' && !quoted then [cur] + SplitFields(s[1..], quoted, "")
    else SplitFields(s[1..], Toggle(s[0], quoted), cur + [s[0]])
  }

  function ReadAll(raw: seq<string>): (r: seq<string>)
    ensures |r| == |raw|
  {
    seq(|raw|, k requires 0 <= k < |raw| => ReadCell(raw[k]))
  }

  function ParseRow(line: string): seq<string> {
    ReadAll(SplitFields(line, false, ""))
  }

  /** Splits text at every occurrence of `sep`; `cur` is the piece read so far. */
  function SplitOn(s: string, sep: char, cur: string): (r: seq<string>)
    ensures |r| >= 1
  {
    if s == [] then [cur]
    else if s[0] == sep then [cur] + SplitOn(s[1..], sep, "")
    else SplitOn(s[1..], sep, cur + [s[0]])
  }

  function ParseLines(lines: seq<string>): (r: seq<seq<string>>)
    ensures |r| == |lines|
  {
    seq(|lines|, k requires 0 <= k < |lines| => ParseRow(lines[k]))
  }

  function Parse(text: string): seq<seq<string>> {
    ParseLines(SplitOn(text, '\n', ""))
  }

  // ---------------------------------------------------------------------
  // Properties.

  /** A text without quotes is left as it is by the quote doubling. */
  lemma {:induction false} NoQuotesUnchanged(s: string)
    requires '"' !in s
    ensures DoubleQuotes(s) == s
  {
    if s != [] {
      assert s[0] != '"' && '"' !in s[1..];
      NoQuotesUnchanged(s[1..]);
      assert s == [s[0]] + s[1..];
    }
  }

  /** A cell with a comma is wrapped in quotes. */
  lemma CommaCellIsWrapped()
    ensures EscapeCell("A,B") == "\"A,B\""
  {
    NoQuotesUnchanged("A,B");
    assert "A,B"[1] == ',';
  }

  /** A cell with a quote but no comma has the quote doubled and is not wrapped. */
  lemma QuoteCellIsDoubledOnly()
    ensures EscapeCell("C\"D") == "C\"\"D"
  {
    assert DoubleQuotes("C\"D") == "C\"\"D" by {
      assert "C\"D"[1..] == "\"D" && "\"D"[1..] == "D";
      NoQuotesUnchanged("D");
      assert DoubleQuotes("\"D") == "\"\"" + "D";
      assert DoubleQuotes("C\"D") == "C" + DoubleQuotes("\"D");
    }
    assert ',' !in "C\"\"D";
  }

  /** Doubling quotes is undone by the reader: nothing is added but the second quote of each pair. */
  lemma {:induction false} UndoubleDouble(s: string)
    ensures UndoubleQuotes(DoubleQuotes(s)) == s
  {
    if s != [] {
      UndoubleDouble(s[1..]);
      var rest := DoubleQuotes(s[1..]);
      if s[0] == '"' {
        assert DoubleQuotes(s) == "\"\"" + rest;
        assert ("\"\"" + rest)[2..] == rest;
      } else {
        assert DoubleQuotes(s) == [s[0]] + rest;
        assert ([s[0]] + rest)[1..] == rest;
      }
    }
  }

  /** Every cell is read back as it was written. */
  lemma CellRoundTrip(s: string)
    ensures ReadCell(EscapeCell(s)) == s
  {
    var escaped := DoubleQuotes(s);
    UndoubleDouble(s);
    if ',' in escaped {
      var w := "\"" + escaped + "\"";
      assert w[1..|w| - 1] == escaped;
    } else {
      assert ',' !in EscapeCell(s);
    }
  }

  lemma {:induction false} QuoteStateAppend(a: string, b: string, q: bool)
    ensures QuoteStateAfter(a + b, q) == QuoteStateAfter(b, QuoteStateAfter(a, q))
    ensures CommasQuoted(a + b, q) <==> CommasQuoted(a, q) && CommasQuoted(b, QuoteStateAfter(a, q))
  {
    if a != [] {
      assert (a + b)[0] == a[0];
      assert (a + b)[1..] == a[1..] + b;
      QuoteStateAppend(a[1..], b, Toggle(a[0], q));
    } else {
      assert a + b == b;
    }
  }

  /**
   * Doubled quotes never change the quote state; inside a quoted stretch every
   * comma stays quoted, and outside one there is no bare comma unless `s` had one.
   */
  lemma {:induction false} DoubledQuoteState(s: string, q: bool)
    ensures QuoteStateAfter(DoubleQuotes(s), q) == q
    ensures CommasQuoted(DoubleQuotes(s), q) <==> q || ',' !in s
  {
    if s != [] {
      DoubledQuoteState(s[1..], q);
      var head := if s[0] == '"' then "\"\"" else [s[0]];
      assert DoubleQuotes(s) == head + DoubleQuotes(s[1..]);
      QuoteStateAppend(head, DoubleQuotes(s[1..]), q);
      assert QuoteStateAfter(head, q) == q && (CommasQuoted(head, q) <==> q || s[0] != ',') by {
        if s[0] == '"' {
          assert head[1..] == "\"" && head[1..][1..] == [];
          assert QuoteStateAfter(head, q) == QuoteStateAfter("\"", !q) == QuoteStateAfter([], q);
          assert CommasQuoted(head, q) == CommasQuoted("\"", !q) == CommasQuoted([], q);
        } else {
          assert head[1..] == [];
          assert QuoteStateAfter(head, q) == QuoteStateAfter([], q);
          assert CommasQuoted(head, q) == ((s[0] != ',' || q) && CommasQuoted([], q));
        }
      }
      assert ',' in s <==> s[0] == ',' || ',' in s[1..] by {
        assert s == [s[0]] + s[1..];
      }
    }
  }

  /** An escaped cell leaves the reader outside quotes, with every comma of the cell quoted. */
  lemma EscapedCellBalanced(s: string)
    ensures CommasQuoted(EscapeCell(s), false)
    ensures !QuoteStateAfter(EscapeCell(s), false)
  {
    var escaped := DoubleQuotes(s);
    DoubledQuoteState(s, false);
    if ',' in escaped {
      DoubledQuoteState(s, true);
      QuoteStateAppend("\"", escaped, false);
      QuoteStateAppend("\"" + escaped, "\"", false);
    }
  }

  /** A stretch whose commas are all quoted is copied into the current field. */
  lemma {:induction false} SplitFieldsSkips(e: string, t: string, q: bool, cur: string)
    requires CommasQuoted(e, q)
    ensures SplitFields(e + t, q, cur) == SplitFields(t, QuoteStateAfter(e, q), cur + e)
  {
    if e != [] {
      assert (e + t)[0] == e[0];
      assert (e + t)[1..] == e[1..] + t;
      SplitFieldsSkips(e[1..], t, Toggle(e[0], q), cur + [e[0]]);
      assert cur + [e[0]] + e[1..] == cur + e;
    } else {
      assert e + t == t && cur + e == cur;
    }
  }

  /** A row of two or more cells is its first escaped cell, a comma, and the rest of the row. */
  lemma FormatRowCons(cells: seq<string>)
    requires |cells| >= 2
    ensures FormatRow(cells) == EscapeCell(cells[0]) + ([','] + FormatRow(cells[1..]))
    ensures EscapeAll(cells) == [EscapeCell(cells[0])] + EscapeAll(cells[1..])
  {
    var parts := EscapeAll(cells);
    assert parts[1..] == EscapeAll(cells[1..]);
    assert parts == [parts[0]] + parts[1..];
  }

  /** A comma outside quotes closes the field read so far. */
  lemma CommaClosesField(rest: string, e: string)
    ensures SplitFields([','] + rest, false, e) == [e] + SplitFields(rest, false, "")
  {
    assert ([','] + rest)[0] == ',' && ([','] + rest)[1..] == rest;
  }

  /** The fields of a formatted row are exactly its escaped cells. */
  lemma {:induction false} SplitFormattedRow(cells: seq<string>)
    requires |cells| >= 1
    ensures SplitFields(FormatRow(cells), false, "") == EscapeAll(cells)
  {
    var e := EscapeCell(cells[0]);
    EscapedCellBalanced(cells[0]);
    assert "" + e == e;
    if |cells| == 1 {
      assert FormatRow(cells) == e + "";
      SplitFieldsSkips(e, "", false, "");
    } else {
      FormatRowCons(cells);
      var rest := FormatRow(cells[1..]);
      SplitFieldsSkips(e, [','] + rest, false, "");
      CommaClosesField(rest, e);
      SplitFormattedRow(cells[1..]);
    }
  }

  /** Every non-empty row is read back cell by cell. */
  lemma RowRoundTrip(cells: seq<string>)
    requires |cells| >= 1
    ensures ParseRow(FormatRow(cells)) == cells
  {
    SplitFormattedRow(cells);
    forall k | 0 <= k < |cells| ensures ParseRow(FormatRow(cells))[k] == cells[k] {
      CellRoundTrip(cells[k]);
    }
  }

  lemma {:induction false} SplitOnSkips(p: string, t: string, sep: char, cur: string)
    requires sep !in p
    ensures SplitOn(p + t, sep, cur) == SplitOn(t, sep, cur + p)
  {
    if p != [] {
      assert (p + t)[0] == p[0];
      assert (p + t)[1..] == p[1..] + t;
      SplitOnSkips(p[1..], t, sep, cur + [p[0]]);
      assert cur + [p[0]] + p[1..] == cur + p;
    } else {
      assert p + t == t && cur + p == cur;
    }
  }

  /** Splitting at a separator that no part contains undoes joining with it. */
  lemma {:induction false} SplitJoin(parts: seq<string>, sep: char)
    requires |parts| >= 1
    requires forall k :: 0 <= k < |parts| ==> sep !in parts[k]
    ensures SplitOn(JoinWith(parts, sep), sep, "") == parts
  {
    SplitOnSkips(parts[0], if |parts| == 1 then "" else [sep] + JoinWith(parts[1..], sep), sep, "");
    if |parts| == 1 {
      assert JoinWith(parts, sep) == parts[0] + "";
      assert "" + parts[0] == parts[0];
    } else {
      var rest := JoinWith(parts[1..], sep);
      assert JoinWith(parts, sep) == parts[0] + ([sep] + rest);
      assert ([sep] + rest)[0] == sep && ([sep] + rest)[1..] == rest;
      assert "" + parts[0] == parts[0];
      assert SplitOn([sep] + rest, sep, parts[0]) == [parts[0]] + SplitOn(rest, sep, "");
      SplitJoin(parts[1..], sep);
      assert parts == [parts[0]] + parts[1..];
    }
  }

  /** A formatted row holds a line feed only if one of its cells does. */
  lemma FormattedRowLineFree(cells: seq<string>)
    requires forall k :: 0 <= k < |cells| ==> '\n' !in cells[k]
    ensures '\n' !in FormatRow(cells)
  {
    var escaped := EscapeAll(cells);
    forall k | 0 <= k < |escaped| ensures '\n' !in escaped[k] {
      assert escaped[k] == EscapeCell(cells[k]);
    }
    JoinedChars(escaped, ',');
  }

  /**
   * The reader recovers every list of non-empty rows whose cells hold no line
   * feed: rows are separated by `\n` and cells by the commas outside quotes.
   */
  lemma DocumentRoundTrip(rows: seq<seq<string>>)
    requires |rows| >= 1
    requires forall r :: 0 <= r < |rows| ==> |rows[r]| >= 1
    requires forall r, k :: 0 <= r < |rows| && 0 <= k < |rows[r]| ==> '\n' !in rows[r][k]
    ensures Parse(Serialize(rows)) == rows
  {
    var lines := FormatRows(rows);
    forall r | 0 <= r < |rows| ensures '\n' !in lines[r] {
      FormattedRowLineFree(rows[r]);
    }
    SplitJoin(lines, '\n');
    forall r | 0 <= r < |rows| ensures Parse(Serialize(rows))[r] == rows[r] {
      RowRoundTrip(rows[r]);
    }
  }

  lemma PlainLetterRow(c: char)
    requires c != ',' && c != '"'
    ensures ParseRow([c]) == [[c]]
  {
    assert [c][1..] == [] && "" + [c] == [c] && !Toggle(c, false);
    assert SplitFields([c], false, "") == SplitFields([], false, [c]) == [[c]];
    assert UndoubleQuotes([c]) == [c] + UndoubleQuotes([]) == [c];
    assert ReadCell([c]) == [c];
    assert ReadAll([[c]])[0] == [c];
  }

  /** The one-cell table holding `a`, a line feed and `b` serialises to that text unchanged. */
  lemma LineFeedCellUnquoted()
    ensures Serialize([["a\nb"]]) == "a\nb"
  {
    NoQuotesUnchanged("a\nb");
    assert ',' !in "a\nb";
    assert EscapeAll(["a\nb"]) == ["a\nb"];
    assert FormatRows([["a\nb"]]) == ["a\nb"];
  }

  lemma SplitAtLineFeed()
    ensures SplitOn("a\nb", '\n', "") == ["a", "b"]
  {
    assert "a\nb"[1..] == "\nb" && "\nb"[1..] == "b" && "b"[1..] == "";
    assert "" + "a" == "a" && "" + "b" == "b";
    assert SplitOn("a\nb", '\n', "") == SplitOn("\nb", '\n', "a");
    assert SplitOn("\nb", '\n', "a") == ["a"] + SplitOn("b", '\n', "");
    assert SplitOn("b", '\n', "") == SplitOn("", '\n', "b") == ["b"];
  }

  /** A line feed inside a cell is not quoted, so it splits the record in two. */
  lemma LineFeedSplitsRecord()
    ensures Parse(Serialize([["a\nb"]])) == [["a"], ["b"]]
  {
    LineFeedCellUnquoted();
    SplitAtLineFeed();
    PlainLetterRow('a');
    PlainLetterRow('b');
    assert "a" == ['a'] && "b" == ['b'];
  }
}
