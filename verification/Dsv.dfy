/** Delimiter-separated text of the bundled d3 (`e.dsv`): the printer `formatRows` and
    the cursor-moving tokenizer behind `parseRows`. */
module Dsv {

  type Row = seq<string>

  const QUOTE: char := '"'
  const CR: char := '\r'
  const LF: char := '\n'

  // The characters that the printer's character class and the tokenizer both take literally.
  predicate Delimiter(d: char) {
    d !in {QUOTE, CR, LF, ']', '\\', '-'}
  }

  // ---------- printing ----------

  predicate Special(f: string, d: char) {
    QUOTE in f || d in f || LF in f
  }

  function Doubled(f: string): string {
    if f == "" then ""
    else if f[0] == QUOTE then [QUOTE, QUOTE] + Doubled(f[1..])
    else [f[0]] + Doubled(f[1..])
  }

  function FormatValue(f: string, d: char): string {
    if Special(f, d) then [QUOTE] + Doubled(f) + [QUOTE] else f
  }

  function FormatRow(row: Row, d: char): string {
    if row == [] then ""
    else if |row| == 1 then FormatValue(row[0], d)
    else FormatValue(row[0], d) + [d] + FormatRow(row[1..], d)
  }

  function FormatRows(rows: seq<Row>, d: char): string {
    if rows == [] then ""
    else if |rows| == 1 then FormatRow(rows[0], d)
    else FormatRow(rows[0], d) + [LF] + FormatRows(rows[1..], d)
  }

  // ---------- reading: what the tokenizer computes on the text still to read ----------

  datatype Token = Field(text: string) | EndOfLine | EndOfFile

  // A token, the text behind it, and whether an end of line is pending.
  datatype Read = Read(token: Token, rest: string, pending: bool)

  function From(s: string, i: nat): (r: string)
    ensures |r| == if i <= |s| then |s| - i else 0
  {
    if i <= |s| then s[i..] else ""
  }

  // The first quote from j on that is not the first of a pair, or the end of the text.
  function Closing(s: string, j: nat): (k: nat)
    requires j <= |s|
    ensures j <= k <= |s|
    ensures k < |s| ==> s[k] == QUOTE
    decreases |s| - j
  {
    if j == |s| then j
    else if s[j] != QUOTE then Closing(s, j + 1)
    else if j + 1 < |s| && s[j + 1] == QUOTE then Closing(s, j + 2)
    else j
  }

  function Undoubled(raw: string): string {
    if |raw| >= 2 && raw[0] == QUOTE && raw[1] == QUOTE then [QUOTE] + Undoubled(raw[2..])
    else if raw == "" then ""
    else [raw[0]] + Undoubled(raw[1..])
  }

  // The first end of line or delimiter from j on, or the end of the text.
  function Break(s: string, d: char, j: nat): (k: nat)
    requires j <= |s|
    ensures j <= k <= |s|
    decreases |s| - j
  {
    if j == |s| || s[j] == LF || s[j] == CR || s[j] == d then j else Break(s, d, j + 1)
  }

  predicate CrLf(s: string, k: nat) {
    k + 1 < |s| && s[k] == CR && s[k + 1] == LF
  }

  predicate LineEnd(s: string, k: nat) {
    k < |s| && (s[k] == CR || s[k] == LF)
  }

  function ReadToken(s: string, d: char, pending: bool): (r: Read)
    ensures r.token.Field? ==> |r.rest| < |s|
    ensures r.token.EndOfLine? ==> r.rest == s && pending && !r.pending
    ensures r.token.EndOfFile? <==> s == ""
    ensures s == "" ==> r.rest == s && r.pending == pending
    ensures s != "" ==> (r.token.EndOfLine? <==> pending)
  {
    if s == "" then Read(EndOfFile, s, pending)
    else if pending then Read(EndOfLine, s, false)
    else if s[0] == QUOTE then
      var k := Closing(s, 1);
      Read(Field(Undoubled(s[1..k])), From(s, if CrLf(s, k + 1) then k + 3 else k + 2), LineEnd(s, k + 1))
    else
      var k := Break(s, d, 0);
      Read(Field(s[..k]), From(s, if CrLf(s, k) then k + 2 else k + 1), LineEnd(s, k))
  }

  datatype RowRead = RowRead(row: Row, rest: string, pending: bool)

  function ReadRow(s: string, d: char, pending: bool): (r: RowRead)
    ensures |r.rest| <= |s|
    ensures s != "" ==> |r.rest| < |s| || (r.rest == s && pending && !r.pending)
    decreases |s|, pending
  {
    var t := ReadToken(s, d, pending);
    if !t.token.Field? then RowRead([], t.rest, t.pending)
    else
      var more := ReadRow(t.rest, d, t.pending);
      RowRead([t.token.text] + more.row, more.rest, more.pending)
  }

  function ReadRows(s: string, d: char, pending: bool): seq<Row>
    decreases |s|, pending
  {
    if s == "" then [] else
      var r := ReadRow(s, d, pending);
      [r.row] + ReadRows(r.rest, d, r.pending)
  }

  function ParseRows(s: string, d: char): seq<Row> {
    ReadRows(s, d, false)
  }

  // ---------- the round trip ----------

  // A carriage return only survives inside quotes, which it does not itself cause.
  predicate Printable(f: string, d: char) {
    CR in f ==> Special(f, d)
  }

  function Last(row: Row): string
    requires row != []
  {
    row[|row| - 1]
  }

  // The three line ends the tokenizer takes.
  predicate Eol(eol: string) {
    eol in ["\n", "\r\n", "\r"]
  }

  // Printed rows with a line end between any two, and behind the last as well if it is terminated.
  function Text(rows: seq<Row>, d: char, eol: string, terminated: bool): string {
    if rows == [] then ""
    else if |rows| == 1 && !terminated then FormatRow(rows[0], d)
    else FormatRow(rows[0], d) + eol + Text(rows[1..], d, eol, terminated)
  }

  // What a printed text can still tell apart.
  predicate Readable(rows: seq<Row>, d: char, terminated: bool) {
    && (forall r :: r in rows ==> r != [])
    && (forall r, f :: r in rows && f in r ==> Printable(f, d))
    && (rows != [] && !terminated ==> rows[|rows| - 1] != [] ==> Last(rows[|rows| - 1]) != "")
  }

  // The same for the text of `formatRows`.
  predicate Survives(rows: seq<Row>, d: char) {
    Readable(rows, d, false)
  }

  // Scanning from j over doubled quotes stops at the quote behind them.
  lemma {:induction false} ClosingDoubled(s: string, j: nat, f: string, tail: string)
    requires j <= |s| && s[j..] == Doubled(f) + ([QUOTE] + tail)
    requires tail == "" || tail[0] != QUOTE
    ensures Closing(s, j) == j + |Doubled(f)|
    decreases |f|
  {
    var behind := [QUOTE] + tail;
    if f == "" {
      assert s[j] == s[j..][0] && (j + 1 < |s| ==> s[j + 1] == s[j..][1] == tail[0]);
    } else if f[0] == QUOTE {
      assert s[j] == s[j..][0] && s[j + 1] == s[j..][1];
      assert s[j + 2..] == s[j..][2..] == Doubled(f[1..]) + behind;
      ClosingDoubled(s, j + 2, f[1..], tail);
    } else {
      assert s[j] == s[j..][0];
      assert s[j + 1..] == s[j..][1..] == Doubled(f[1..]) + behind;
      ClosingDoubled(s, j + 1, f[1..], tail);
    }
  }

  lemma {:induction false} UndoubledDoubled(f: string)
    ensures Undoubled(Doubled(f)) == f
  {
    if f != "" {
      UndoubledDoubled(f[1..]);
      if f[0] == QUOTE {
        assert Doubled(f)[2..] == Doubled(f[1..]);
      } else {
        assert Doubled(f)[1..] == Doubled(f[1..]);
      }
    }
  }

  lemma {:induction false} BreakAfter(f: string, tail: string, d: char, j: nat)
    requires j <= |f| && forall i :: 0 <= i < |f| ==> f[i] !in {LF, CR, d}
    requires tail == "" || tail[0] in {LF, CR, d}
    ensures Break(f + tail, d, j) == |f|
    decreases |f| - j
  {
    if j < |f| {
      assert (f + tail)[j] == f[j];
      BreakAfter(f, tail, d, j + 1);
    }
  }

  lemma {:induction false} BreakBefore(f: string, tail: string, d: char, j: nat, c: nat)
    requires j <= c < |f| && f[c] == CR
    ensures Break(f + tail, d, j) <= c
    decreases |f| - j
  {
    if j < c && Break(f + tail, d, j) > j { BreakBefore(f, tail, d, j + 1, c); }
  }

  // What follows a field: nothing, a delimiter, or an end of line.
  predicate Follows(tail: string, d: char) {
    tail == "" || tail[0] == d || tail[0] == LF || tail[0] == CR
  }

  // What is read after the character behind a field, or the two of them that are one line end.
  function Behind(tail: string): string {
    if "\r\n" <= tail then tail[2..] else if tail == "" then "" else tail[1..]
  }

  predicate EndsLine(tail: string) {
    tail != "" && (tail[0] == '\n' || tail[0] == '\r')
  }

  // A quoted text is read back whatever follows but a quote; one character behind the closing
  // quote is lost if it is neither delimiter nor line end.
  lemma QuotedReadsBack(f: string, tail: string, d: char)
    requires tail == "" || tail[0] != QUOTE
    ensures ReadToken([QUOTE] + Doubled(f) + [QUOTE] + tail, d, false)
         == Read(Field(f), Behind(tail), EndsLine(tail))
  {
    hide ReadToken, Doubled, Undoubled, Closing;
    var s := [QUOTE] + Doubled(f) + [QUOTE] + tail;
    QuoteOff(Doubled(f), tail);
    ClosingDoubled(s, 1, f, tail);
    UndoubledDoubled(f);
    BetweenQuotes(Doubled(f), tail, d);
  }

  lemma QuoteOff(m: string, tail: string)
    ensures var s := [QUOTE] + m + [QUOTE] + tail; s[1..] == m + ([QUOTE] + tail)
  {
  }

  lemma BetweenQuotes(m: string, tail: string, d: char)
    requires Closing([QUOTE] + m + [QUOTE] + tail, 1) == 1 + |m|
    ensures ReadToken([QUOTE] + m + [QUOTE] + tail, d, false)
         == Read(Field(Undoubled(m)), Behind(tail), EndsLine(tail))
  {
    hide Closing, Undoubled;
    var s, k := [QUOTE] + m + [QUOTE] + tail, 1 + |m|;
    assert s[1..k] == m;
    BehindIs([QUOTE] + m + [QUOTE], tail);
  }

  // Dropping the line end or character behind a text.
  lemma BehindIs(m: string, tail: string)
    ensures From(m + tail, if CrLf(m + tail, |m|) then |m| + 2 else |m| + 1) == Behind(tail)
    ensures LineEnd(m + tail, |m|) == EndsLine(tail)
  {
    hide From;
    BothIs(m, tail);
    FromTail(m, tail, 1);
    FromTail(m, tail, 2);
    if tail != "" { assert (m + tail)[|m|] == tail[0]; }
  }

  lemma BothIs(m: string, tail: string)
    ensures CrLf(m + tail, |m|) <==> "\r\n" <= tail
    ensures "\r\n" <= tail <==> |tail| >= 2 && tail[0] == '\r' && tail[1] == '\n'
  {
    var s, k := m + tail, |m|;
    if |tail| >= 2 { assert s[k] == tail[0] && s[k + 1] == tail[1]; }
  }

  lemma FromTail(m: string, tail: string, j: nat)
    ensures From(m + tail, |m| + j) == if j <= |tail| then tail[j..] else ""
  {
    if j <= |tail| { assert (m + tail)[|m| + j..] == tail[j..]; }
  }

  // The opening quote of a text that is never closed.
  lemma Unclosed(f: string, d: char)
    ensures ReadToken([QUOTE] + Doubled(f), d, false) == Read(Field(f), "", false)
  {
    hide Doubled, Undoubled, Closing;
    var s := [QUOTE] + Doubled(f);
    assert s[1..] == Doubled(f);
    NeverClosed(s, 1, f);
    UndoubledDoubled(f);
    assert s[1..|s|] == Doubled(f);
  }

  lemma {:induction false} NeverClosed(s: string, j: nat, f: string)
    requires j <= |s| && s[j..] == Doubled(f)
    ensures Closing(s, j) == |s|
    decreases |f|
  {
    if f != "" {
      if f[0] == QUOTE {
        assert s[j] == s[j..][0] && s[j + 1] == s[j..][1];
        assert s[j + 2..] == s[j..][2..] == Doubled(f[1..]);
        NeverClosed(s, j + 2, f[1..]);
      } else {
        assert s[j] == s[j..][0];
        assert s[j + 1..] == s[j..][1..] == Doubled(f[1..]);
        NeverClosed(s, j + 1, f[1..]);
      }
    }
  }

  // A text that does not start with a quote is read up to the delimiter or line end, quotes included.
  lemma BareReadsBack(f: string, tail: string, d: char)
    requires forall i :: 0 <= i < |f| ==> f[i] !in {LF, CR, d}
    requires d != QUOTE && Follows(tail, d) && (f == "" || f[0] != QUOTE) && (f != "" || tail != "")
    ensures ReadToken(f + tail, d, false) == Read(Field(f), Behind(tail), EndsLine(tail))
  {
    var s := f + tail;
    BreakAfter(f, tail, d, 0);
    assert s[..|f|] == f;
    if f != "" { assert s[0] == f[0]; } else { assert s == tail; }
    BehindIs(f, tail);
  }

  // A printable field is read back exactly, with what follows it.
  lemma ReadsBack(f: string, tail: string, d: char)
    requires Delimiter(d) && Printable(f, d) && Follows(tail, d) && (f != "" || tail != "")
    ensures ReadToken(FormatValue(f, d) + tail, d, false) == Read(Field(f), Behind(tail), EndsLine(tail))
  {
    hide ReadToken;
    if Special(f, d) { QuotedReadsBack(f, tail, d); } else { BareReadsBack(f, tail, d); }
  }

  // A bare carriage return cuts the field short.
  lemma CutShort(f: string, tail: string, d: char)
    requires Delimiter(d) && !Printable(f, d)
    ensures var t := ReadToken(FormatValue(f, d) + tail, d, false); t.token.Field? && t.token.text != f
  {
    var c :| 0 <= c < |f| && f[c] == CR;
    BreakBefore(f, tail, d, 0, c);
    assert (f + tail)[0] == f[0];
  }

  predicate GoodFields(row: Row, d: char) {
    forall f :: f in row ==> Printable(f, d)
  }

  // What comes behind a line end does not change it.
  predicate Apart(eol: string, more: string) {
    Eol(eol) && !("\n" <= more && eol == "\r")
  }

  // A row is read back exactly when its fields are printable and it does not end the
  // text with an empty field; then reading stops right behind its end of line.
  predicate RowReadsBack(row: Row, eol: string, more: string, last: bool, d: char)
    requires row != []
  {
    var r := ReadRow(FormatRow(row, d) + if last then "" else eol + more, d, false);
    && (r.row == row <==> GoodFields(row, d) && (last ==> Last(row) != ""))
    && (r.row == row ==> r.rest == more && (more != "" ==> !r.pending))
  }

  lemma BehindEol(eol: string, more: string)
    requires Apart(eol, more)
    ensures Behind(eol + more) == more && EndsLine(eol + more) && (eol + more)[0] in {CR, LF}
  {
    var s := eol + more;
    if eol == "\r\n" {
      assert s[2..] == more;
    } else {
      assert s[1..] == more;
      if more != "" { assert s[1] == more[0]; }
    }
  }

  lemma OneField(f: string, eol: string, more: string, last: bool, d: char)
    requires Delimiter(d) && Apart(eol, more) && (last ==> more == "")
    ensures RowReadsBack([f], eol, more, last, d)
  {
    hide ReadToken, FormatValue, Printable, Delimiter, Behind, EndsLine;
    var tail := if last then "" else eol + more;
    BehindEol(eol, more);
    BehindNothing();
    if !Printable(f, d) {
      CutShort(f, tail, d);
      assert f in [f];
    } else if f != "" || tail != "" {
      ReadsBack(f, tail, d);
      assert GoodFields([f], d);
      assert ReadRow(more, d, !last).row == [];
    } else {
      EmptyPrintsEmpty(d);
    }
  }

  lemma BehindNothing()
    ensures Behind("") == "" && !EndsLine("")
  {
  }

  lemma EmptyPrintsEmpty(d: char)
    ensures FormatValue("", d) == ""
  {
  }

  lemma MoreFields(f: string, row: Row, eol: string, more: string, last: bool, d: char)
    requires Delimiter(d) && row != [] && RowReadsBack(row, eol, more, last, d)
    ensures RowReadsBack([f] + row, eol, more, last, d)
  {
    hide ReadToken, FormatValue, Printable, Delimiter, Behind, EndsLine;
    var tail := FormatRow(row, d) + if last then "" else eol + more;
    var all := [f] + row;
    var s := FormatRow(all, d) + if last then "" else eol + more;
    assert all[1..] == row;
    assert s == FormatValue(f, d) + ([d] + tail);
    GoodSplit(f, row, d);
    var r, r' := ReadRow(s, d, false), ReadRow(tail, d, false);
    if !Printable(f, d) {
      CutShort(f, [d] + tail, d);
      assert r.row[0] != f;
    } else {
      ReadsBack(f, [d] + tail, d);
      BehindDelimiter(d, tail);
      assert r == RowRead([f] + r'.row, r'.rest, r'.pending);
      assert r.row == all <==> r'.row == row by { assert r.row[1..] == r'.row; }
    }
  }

  lemma BehindDelimiter(d: char, tail: string)
    requires Delimiter(d)
    ensures Behind([d] + tail) == tail && !EndsLine([d] + tail)
  {
    var s := [d] + tail;
    assert s[0] == d && s[1..] == tail;
    assert s[0] != '\r';
  }

  lemma GoodSplit(f: string, row: Row, d: char)
    ensures GoodFields([f] + row, d) <==> Printable(f, d) && GoodFields(row, d)
  {
    assert forall g :: g in [f] + row <==> g == f || g in row;
  }

  lemma {:induction false} RowRoundTrip(row: Row, eol: string, more: string, last: bool, d: char)
    requires Delimiter(d) && row != [] && Apart(eol, more) && (last ==> more == "")
    ensures RowReadsBack(row, eol, more, last, d)
  {
    hide RowReadsBack, Apart;
    if |row| == 1 {
      OneField(row[0], eol, more, last, d);
      assert row == [row[0]];
    } else {
      RowRoundTrip(row[1..], eol, more, last, d);
      MoreFields(row[0], row[1..], eol, more, last, d);
      assert row == [row[0]] + row[1..];
    }
  }

  // Printed text starts with a line feed only where that is its line end.
  lemma {:induction false} TextApart(rows: seq<Row>, d: char, eol: string, terminated: bool)
    requires Delimiter(d) && Eol(eol)
    ensures Apart(eol, Text(rows, d, eol, terminated))
  {
    if rows != [] {
      var t := FormatRow(rows[0], d);
      RowStarts(rows[0], d);
      if t == "" && (|rows| > 1 || terminated) {
        assert Text(rows, d, eol, terminated)[0] == eol[0];
      } else if t != "" {
        assert Text(rows, d, eol, terminated)[0] == t[0];
      }
    }
  }

  lemma RowStarts(row: Row, d: char)
    requires Delimiter(d)
    ensures FormatRow(row, d) != "" ==> FormatRow(row, d)[0] != LF
  {
    if row != [] {
      var v := FormatValue(row[0], d);
      if v != "" {
        assert v[0] != LF;
        assert FormatRow(row, d)[0] == v[0];
      } else if |row| > 1 {
        assert FormatRow(row, d)[0] == d;
      }
    }
  }

  // Rows printed with any of the three line ends, the last with or without one, parse to
  // themselves exactly when the text can tell them apart.
  lemma {:induction false} TextRoundTrip(rows: seq<Row>, d: char, eol: string, terminated: bool)
    requires Delimiter(d) && eol in ["\n", "\r\n", "\r"]
    ensures ParseRows(Text(rows, d, eol, terminated), d) == rows <==> Readable(rows, d, terminated)
  {
    hide Printable, Apart, ReadRow, ReadRows, Readable, GoodFields;
    if rows == [] {
      NoText(d, terminated);
    } else {
      var row, rest := rows[0], rows[1..];
      assert rows == [row] + rest;
      var last := rest == [] && !terminated;
      var more := if last then "" else Text(rest, d, eol, terminated);
      var s := Text(rows, d, eol, terminated);
      assert s == FormatRow(row, d) + if last then "" else eol + more;
      TextApart(rest, d, eol, terminated);
      if row == [] {
        EmptyRow(eol, more, last, d);
        assert s == if last then "" else eol + more;
        EmptyIsLost(rows, d, terminated);
      } else {
        RowRoundTrip(row, eol, more, last, d);
        TextRoundTrip(rest, d, eol, terminated);
        ReadableSplit(row, rest, d, terminated);
        NoText(d, terminated);
        RowsFollow(row, rest, s, more, d);
      }
    }
  }

  lemma NoText(d: char, terminated: bool)
    ensures ParseRows("", d) == [] && Readable([], d, terminated)
  {
  }

  lemma EmptyIsLost(rows: seq<Row>, d: char, terminated: bool)
    requires rows != [] && rows[0] == []
    ensures !Readable(rows, d, terminated)
  {
    assert rows[0] in rows;
  }

  lemma RowsFollow(row: Row, rest: seq<Row>, s: string, more: string, d: char)
    requires row != []
    requires var r := ReadRow(s, d, false); r.row == row ==> r.rest == more && (more != "" ==> !r.pending)
    ensures ReadRows(s, d, false) == [row] + rest <==>
      ReadRow(s, d, false).row == row && ReadRows(more, d, false) == rest
  {
    hide ReadRow, ReadToken;
    var r := ReadRow(s, d, false);
    if s != "" {
      assert ReadRows(s, d, false) == [r.row] + ReadRows(r.rest, d, r.pending);
      assert ([row] + rest)[0] == row && ([row] + rest)[1..] == rest;
      assert ReadRows(s, d, false)[1..] == ReadRows(r.rest, d, r.pending);
    } else {
      NoRow(d);
    }
  }

  lemma NoRow(d: char)
    ensures ReadRow("", d, false).row == []
  {
  }

  lemma ReadableSplit(row: Row, rest: seq<Row>, d: char, terminated: bool)
    requires row != []
    ensures Readable([row] + rest, d, terminated)
      <==> GoodFields(row, d)
           && (if rest == [] then terminated || Last(row) != "" else Readable(rest, d, terminated))
  {
    var rows := [row] + rest;
    assert forall r :: r in rows <==> r == row || r in rest;
    if rest != [] { assert rows[|rows| - 1] == rest[|rest| - 1]; }
  }

  // A row without fields prints as nothing, which reads back as one empty field or not at all.
  lemma EmptyRow(eol: string, more: string, last: bool, d: char)
    requires Delimiter(d) && Eol(eol) && (last ==> more == "")
    ensures var s := if last then "" else eol + more;
      var p := ReadRows(s, d, false); p == [] || p[0] != []
  {
    hide Closing, Undoubled, From, CrLf, LineEnd, Break;
    var s := if last then "" else eol + more;
    if !last { assert s != "" && s[0] == eol[0]; }
  }

  // The text of `formatRows`.
  lemma {:induction false} FormatIsText(rows: seq<Row>, d: char)
    ensures FormatRows(rows, d) == Text(rows, d, "\n", false)
  {
    if |rows| > 1 { FormatIsText(rows[1..], d); }
  }

  // So `parseRows(formatRows(rows))` is `rows` if and only if the table survives printing.
  lemma RowsRoundTrip(rows: seq<Row>, d: char)
    requires Delimiter(d)
    ensures ParseRows(FormatRows(rows, d), d) == rows <==> Survives(rows, d)
  {
    FormatIsText(rows, d);
    TextRoundTrip(rows, d, "\n", false);
  }

  // The printed text itself: a field stands as it is exactly when it holds no quote, delimiter or
  // line feed; otherwise it stands between quotes, and its own quotes are doubled.
  lemma {:induction false} PrintsAsIs(f: string, d: char)
    ensures FormatValue(f, d) == f <==> '"' !in f && d !in f && '\n' !in f
    ensures FormatValue(f, d) != f ==>
      && FormatValue(f, d) == "\"" + Doubled(f) + "\""
      && |Doubled(f)| == |f| + multiset(f)['"']
  {
    DoubledLength(f);
  }

  lemma {:induction false} DoubledLength(f: string)
    ensures |Doubled(f)| == |f| + multiset(f)['"']
  {
    if f != "" {
      DoubledLength(f[1..]);
      assert f == [f[0]] + f[1..];
    }
  }

  // ---------- the code ----------

  // The closure state of `parseRows`: the text, the cursor u and the flag l of a pending end of line.
  class Reader {
    const e: string
    const r: char
    var u: nat
    var l: bool

    constructor (text: string, delimiter: char)
      ensures e == text && r == delimiter && u == 0 && !l
    {
      e, r, u, l := text, delimiter, 0, false;
    }

    // The text still to read.
    function Rest(): string
      reads this
    {
      From(e, u)
    }

    function At(i: nat): char {
      if i < |e| then e[i] else '\0'
    }

    // `c`: the next token; the two loops of its body are the methods below.
    method Next() returns (token: Token)
      modifies this
      ensures Read(token, Rest(), l) == ReadToken(old(Rest()), r, old(l))
    {
      hide CrLf, LineEnd, Closing, Break, Undoubled, ReadToken;
      if u >= |e| { return EndOfFile; }
      if l {
        l := false;
        return EndOfLine;
      }
      ghost var t := u;
      if e[u] == QUOTE {
        token := QuotedField();
        QuotedShift(e, r, t);
      } else {
        token := BareField();
        BareShift(e, r, t);
      }
    }

    method QuotedField() returns (token: Token)
      requires u < |e| && e[u] == QUOTE && !l
      modifies this
      ensures var t := old(u);
        var k := Closing(e, t + 1);
        token == Field(Undoubled(e[t + 1..k])) && u == (if CrLf(e, k + 1) then k + 3 else k + 2)
          && l == LineEnd(e, k + 1)
    {
      hide Undoubled;
      var t, o := u, |e|;
      var s := t + 1;
      while s < o && (e[s] != QUOTE || At(s + 1) == QUOTE)
        invariant t + 1 <= s <= o
        invariant Closing(e, s) == Closing(e, t + 1)
      {
        if e[s] == QUOTE { s := s + 1; }
        s := s + 1;
      }
      assert s == Closing(e, t + 1);
      u := s + 2;
      if At(s + 1) == CR {
        l := true;
        if At(s + 2) == LF { u := u + 1; }
      } else if At(s + 1) == LF {
        l := true;
      }
      return Field(Undoubled(e[t + 1..s]));
    }

    method BareField() returns (token: Token)
      requires u < |e| && e[u] != QUOTE && !l
      modifies this
      ensures var t := old(u);
        var k := Break(e, r, t);
        token == Field(e[t..k]) && l == LineEnd(e, k)
        && u == (if k == |e| then k else if CrLf(e, k) then k + 2 else k + 1)
    {
      var t, o := u, |e|;
      while u < o
        invariant t <= u <= o && !l
        invariant Break(e, r, u) == Break(e, r, t)
      {
        var a, f := e[u], 1;
        u := u + 1;
        if a == LF {
          l := true;
        } else if a == CR {
          l := true;
          if At(u) == LF {
            u := u + 1;
            f := f + 1;
          }
        } else if a != r {
          continue;
        }
        return Field(e[t..u - f]);
      }
      return Field(e[t..]);
    }
  }

  // Scanning the text still to read is scanning the text from the cursor.
  lemma {:induction false} ClosingShift(e: string, t: nat, j: nat)
    requires t + j <= |e|
    ensures Closing(e[t..], j) == Closing(e, t + j) - t
    decreases |e| - j
  {
    var s := e[t..];
    if j < |s| {
      if s[j] != QUOTE {
        ClosingShift(e, t, j + 1);
      } else if j + 1 < |s| && s[j + 1] == QUOTE {
        ClosingShift(e, t, j + 2);
      }
    }
  }

  lemma {:induction false} BreakShift(e: string, d: char, t: nat, j: nat)
    requires t + j <= |e|
    ensures Break(e[t..], d, j) == Break(e, d, t + j) - t
    decreases |e| - j
  {
    var s := e[t..];
    if j < |s| && s[j] !in {LF, CR, d} { BreakShift(e, d, t, j + 1); }
  }

  lemma FromShift(e: string, t: nat, k: nat)
    requires t <= |e|
    ensures From(e[t..], k) == From(e, t + k)
  {
  }

  lemma EndShift(e: string, t: nat, k: nat)
    requires t <= |e|
    ensures CrLf(e[t..], k) == CrLf(e, t + k) && LineEnd(e[t..], k) == LineEnd(e, t + k)
  {
  }

  lemma QuotedShift(e: string, d: char, t: nat)
    requires t < |e| && e[t] == QUOTE
    ensures var k := Closing(e, t + 1);
      ReadToken(From(e, t), d, false)
      == Read(Field(Undoubled(e[t + 1..k])), From(e, if CrLf(e, k + 1) then k + 3 else k + 2), LineEnd(e, k + 1))
  {
    hide CrLf, LineEnd, Closing, Undoubled, From, ReadToken;
    ClosingShift(e, t, 1);
    var s, k := e[t..], Closing(e[t..], 1);
    QuotedToken(s, d);
    FromShift(e, t, k + 2);
    FromShift(e, t, k + 3);
    EndShift(e, t, k + 1);
    FromIs(e, t);
    assert s[1..k] == e[t + 1..t + k];
  }

  lemma FromIs(e: string, t: nat)
    requires t <= |e|
    ensures From(e, t) == e[t..]
  {
  }

  lemma QuotedToken(s: string, d: char)
    requires s != "" && s[0] == QUOTE
    ensures var k := Closing(s, 1);
      ReadToken(s, d, false) == Read(Field(Undoubled(s[1..k])), From(s, if CrLf(s, k + 1) then k + 3 else k + 2),
        LineEnd(s, k + 1))
  {
    hide CrLf, LineEnd, Closing, Undoubled, From;
  }

  lemma BareToken(s: string, d: char)
    requires s != "" && s[0] != QUOTE
    ensures var k := Break(s, d, 0);
      ReadToken(s, d, false) == Read(Field(s[..k]), From(s, if CrLf(s, k) then k + 2 else k + 1), LineEnd(s, k))
  {
    hide CrLf, LineEnd, Break, From;
  }

  lemma BareShift(e: string, d: char, t: nat)
    requires t < |e| && e[t] != QUOTE
    ensures var k := Break(e, d, t);
      ReadToken(From(e, t), d, false)
      == Read(Field(e[t..k]), From(e, if CrLf(e, k) then k + 2 else k + 1), LineEnd(e, k))
  {
    hide CrLf, LineEnd, Break, From, ReadToken;
    BreakShift(e, d, t, 0);
    var s, k := e[t..], Break(e[t..], d, 0);
    BareToken(s, d);
    FromIs(e, t);
    FromShift(e, t, k + 1);
    FromShift(e, t, k + 2);
    EndShift(e, t, k);
    assert s[..k] == e[t..t + k];
  }

  lemma OneMoreRow(rows: seq<Row>, s: string, d: char, pending: bool)
    requires s != ""
    ensures var r := ReadRow(s, d, pending);
      rows + ReadRows(s, d, pending) == rows + [r.row] + ReadRows(r.rest, d, r.pending)
  {
    hide ReadRow;
  }

  lemma NoMoreRows(rows: seq<Row>, d: char, pending: bool)
    ensures rows + ReadRows("", d, pending) == rows
  {
  }

  // `parseRows` without a row callback.
  method Parse(text: string, d: char) returns (rows: seq<Row>)
    ensures rows == ParseRows(text, d)
  {
    hide ReadToken, ReadRow, ReadRows;
    var reader := new Reader(text, d);
    rows := [];
    assert reader.Rest() == text;
    ghost var s, p := text, false;
    var f := reader.Next();
    while f != EndOfFile
      invariant fresh(reader) && reader.r == d
      invariant Read(f, reader.Rest(), reader.l) == ReadToken(s, d, p)
      invariant rows + ReadRows(s, d, p) == ParseRows(text, d)
      decreases |s|, p
    {
      var h := RowFrom(reader, f, s, p);
      OneMoreRow(rows, s, d, p);
      rows := rows + [h];
      s, p := reader.Rest(), reader.l;
      f := reader.Next();
    }
    NoMoreRows(rows, d, p);
  }

  // The inner loop: the fields up to the end of the line, the first of them already read.
  method RowFrom(reader: Reader, first: Token, ghost s: string, ghost p: bool) returns (h: Row)
    requires Read(first, reader.Rest(), reader.l) == ReadToken(s, reader.r, p)
    modifies reader
    ensures RowRead(h, reader.Rest(), reader.l) == ReadRow(s, reader.r, p)
  {
    hide ReadToken;
    h := [];
    var f := first;
    ghost var s1, p1 := s, p;
    while f != EndOfLine && f != EndOfFile
      invariant Read(f, reader.Rest(), reader.l) == ReadToken(s1, reader.r, p1)
      invariant var r := ReadRow(s1, reader.r, p1); ReadRow(s, reader.r, p) == RowRead(h + r.row, r.rest, r.pending)
      decreases |s1|
    {
      h := h + [f.text];
      s1, p1 := reader.Rest(), reader.l;
      f := reader.Next();
    }
    assert h + [] == h;
  }

  // Three tables that do not survive: a last empty field, a row without fields, a bare
  // carriage return.
  lemma LostTables(d: char)
    requires Delimiter(d)
    ensures var t := [["a", ""]]; ParseRows(FormatRows(t, d), d) != t
    ensures var t: seq<Row> := [[], ["a"]]; ParseRows(FormatRows(t, d), d) != t
    ensures d != 'a' && d != 'b' ==> var t := [["a\rb"]]; ParseRows(FormatRows(t, d), d) != t
  {
    hide FormatRows, ParseRows;
    var t1, t2, t3 := [["a", ""]], [[], ["a"]], [["a\rb"]];
    RowsRoundTrip(t1, d);
    RowsRoundTrip(t2, d);
    RowsRoundTrip(t3, d);
    assert t2[0] in t2;
    assert t3[0][0] in t3[0] && t3[0] in t3 && t3[0][0][1] == CR;
    assert Last(t1[|t1| - 1]) == "";
  }
}
