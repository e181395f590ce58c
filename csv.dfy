/**
  The CSV export of `toCsv`: a header record and one record per card,
  records joined by a line feed and fields by a comma, every field wrapped in
  double quotes with its inner double quotes doubled (the quoting rule of
  section 2 of RFC 4180, applied to every field whether it needs it or not).

  Beside the encoder sits a reader for exactly that dialect (every field
  quoted, line-feed record separator), so that the round trip can be stated:
  reading the export gives back the header and each card's question and
  answer, and nothing else.
 */
module Csv {
  import opened Text
  import opened Cards

  /** `s.replace(/"/g, '""')`. */
  function DoubleQuotes(s: string): (r: string)
    ensures |r| >= |s|
  {
    if s == [] then []
    else (if s[0] == '"' then "\"\"" else [s[0]]) + DoubleQuotes(s[1..])
  }

  /** The `esc` helper: one quoted field. */
  function Esc(s: string): (r: string)
    ensures |r| >= 2 && r[0] == '"' && r[|r| - 1] == '"'
  {
    "\"" + DoubleQuotes(s) + "\""
  }

  /**
    The inverse of `DoubleQuotes`: collapses each `""` to `"`; a lone `"`
    means the text is not the inside of a quoted field.
   */
  function Undouble(t: string): Option<string> {
    if t == [] then Some([])
    else if t[0] == '"' then
      if |t| >= 2 && t[1] == '"' then
        match Undouble(t[2..])
        case None => None
        case Some(v) => Some("\"" + v)
      else None
    else
      match Undouble(t[1..])
      case None => None
      case Some(v) => Some([t[0]] + v)
  }

  /** Removes the outer quotes of a field and collapses its doubled quotes. */
  function Unescape(r: string): Option<string> {
    if |r| >= 2 && r[0] == '"' && r[|r| - 1] == '"' then Undouble(r[1..|r| - 1]) else None
  }

  lemma {:induction false} UndoubleDoubleQuotes(s: string)
    ensures Undouble(DoubleQuotes(s)) == Some(s)
  {
    if s != [] {
      UndoubleDoubleQuotes(s[1..]);
      var t := DoubleQuotes(s);
      if s[0] == '"' {
        assert t[2..] == DoubleQuotes(s[1..]);
        assert s == "\"" + s[1..];
      } else {
        assert t[1..] == DoubleQuotes(s[1..]);
        assert s == [s[0]] + s[1..];
      }
    }
  }

  lemma {:induction false} DoubleQuotesUndouble(t: string, v: string)
    requires Undouble(t) == Some(v)
    ensures DoubleQuotes(v) == t
  {
    if t != [] {
      if t[0] == '"' {
        var w := Undouble(t[2..]).value;
        DoubleQuotesUndouble(t[2..], w);
        assert v == "\"" + w && v[1..] == w;
        assert t == "\"\"" + t[2..];
      } else {
        var w := Undouble(t[1..]).value;
        DoubleQuotesUndouble(t[1..], w);
        assert v == [t[0]] + w && v[1..] == w;
        assert t == [t[0]] + t[1..];
      }
    }
  }

  /** Unquoting a field gives back the text that was quoted. */
  lemma EscRoundTrip(s: string)
    ensures Unescape(Esc(s)) == Some(s)
  {
    var r := Esc(s);
    assert r[1..|r| - 1] == DoubleQuotes(s);
    UndoubleDoubleQuotes(s);
  }

  /**
    Conversely, a text that unquotes is exactly the quoting of what it
    unquotes to: every `"` between the outer quotes stands in a doubled pair.
   */
  lemma EscOfUnescape(r: string, s: string)
    requires Unescape(r) == Some(s)
    ensures Esc(s) == r
  {
    assert |r| >= 2 && r[0] == '"' && r[|r| - 1] == '"';
    var inner := r[1..|r| - 1];
    DoubleQuotesUndouble(inner, s);
    Unwrap(r);
  }

  lemma Unwrap(r: string)
    requires |r| >= 2
    ensures r == [r[0]] + r[1..|r| - 1] + [r[|r| - 1]]
  {
  }

  /** Two different texts never quote to the same field. */
  lemma EscInjective(s: string, t: string)
    requires Esc(s) == Esc(t)
    ensures s == t
  {
    EscRoundTrip(s);
    EscRoundTrip(t);
  }

  /** One record: its fields quoted and joined by commas. */
  function Record(fields: seq<string>): string {
    Join(Map(Esc, fields), ",")
  }

  const Header: seq<string> := ["Question", "Answer"]

  /** The fields a card contributes: its question and its answer, never its tags. */
  function Fields(c: Flashcard): seq<string> {
    [c.question, c.answer]
  }

  /** The rows of the export before quoting: the header, then one row per card. */
  function Table(cards: seq<Flashcard>): (t: seq<seq<string>>)
    ensures |t| == |cards| + 1
    ensures t[0] == Header
    ensures forall i :: 0 <= i < |cards| ==> t[i + 1] == [cards[i].question, cards[i].answer]
  {
    [Header] + Map(Fields, cards)
  }

  /** A record of one field is that field quoted. */
  lemma RecordOfOne(f: string)
    ensures Record([f]) == Esc(f)
  {
    assert Map(Esc, [f]) == [Esc(f)];
  }

  /** A record of several fields is its first field quoted, a comma, and the rest. */
  lemma RecordCons(fields: seq<string>)
    requires |fields| >= 2
    ensures Record(fields) == Esc(fields[0]) + "," + Record(fields[1..])
  {
    MapTail(Esc, fields);
    JoinCons(Map(Esc, fields), ",");
  }

  lemma RecordOfPair(q: string, a: string)
    ensures Record([q, a]) == Esc(q) + "," + Esc(a)
  {
    RecordCons([q, a]);
    assert [q, a][1..] == [a];
    RecordOfOne(a);
  }

  /** A text without double quotes is left as it is. */
  lemma {:induction false} DoubleQuotesPlain(s: string)
    requires forall i :: 0 <= i < |s| ==> s[i] != '"'
    ensures DoubleQuotes(s) == s
  {
    if s != [] {
      DoubleQuotesPlain(s[1..]);
      assert s == [s[0]] + s[1..];
    }
  }

  /** A text without double quotes is quoted by wrapping it alone. */
  lemma EscPlain(s: string)
    requires forall i :: 0 <= i < |s| ==> s[i] != '"'
    ensures Esc(s) == "\"" + s + "\""
  {
    DoubleQuotesPlain(s);
  }

  /** A record of two fields without double quotes wraps each in quotes and nothing more. */
  lemma RecordOfPlainPair(q: string, a: string)
    requires forall i :: 0 <= i < |q| ==> q[i] != '"'
    requires forall i :: 0 <= i < |a| ==> a[i] != '"'
    ensures Record([q, a]) == "\"" + q + "\",\"" + a + "\""
  {
    EscPlain(q);
    EscPlain(a);
    RecordOfPair(q, a);
  }

  /**
    The header record. The names are parameters so that the solver does not
    unfold the quoting functions on the literal text.
   */
  lemma HeaderRecord(q: string, a: string)
    requires q == "Question" && a == "Answer"
    ensures Record([q, a]) == "\"Question\",\"Answer\""
  {
    RecordOfPlainPair(q, a);
  }

  /** The records of the export, in order. */
  function CsvRecords(cards: seq<Flashcard>): (rs: seq<string>)
    ensures |rs| == |cards| + 1
    ensures rs[0] == "\"Question\",\"Answer\""
    ensures forall i :: 0 <= i < |cards| ==>
      rs[i + 1] == Esc(cards[i].question) + "," + Esc(cards[i].answer)
  {
    RecordsOfTable(cards);
    Map(Record, Table(cards))
  }

  lemma RecordsOfTable(cards: seq<Flashcard>)
    ensures Map(Record, Table(cards))[0] == "\"Question\",\"Answer\""
    ensures forall i :: 0 <= i < |cards| ==>
      Map(Record, Table(cards))[i + 1] == Esc(cards[i].question) + "," + Esc(cards[i].answer)
  {
    var t := Table(cards);
    HeaderRecord("Question", "Answer");
    forall i | 0 <= i < |cards|
      ensures Map(Record, t)[i + 1] == Esc(cards[i].question) + "," + Esc(cards[i].answer)
    {
      RecordOfPair(cards[i].question, cards[i].answer);
    }
  }

  /** `toCsv`. */
  function ToCsv(cards: seq<Flashcard>): (r: string)
    ensures cards == [] ==> r == "\"Question\",\"Answer\""
    ensures "\"Question\",\"Answer\"" <= r
  {
    Join(CsvRecords(cards), "\n")
  }

  /*
    The reader. `ReadQuoted` reads the inside of a quoted field, starting
    just after its opening quote, and returns the value and what follows the
    closing quote; `ReadRecord` reads comma-separated quoted fields;
    `Parse` reads line-feed-separated records up to the end of the text.
   */

  function ReadQuoted(s: string): (r: Option<(string, string)>)
    ensures r.Some? ==> |r.value.1| < |s|
  {
    if s == [] then None
    else if s[0] == '"' then
      if |s| >= 2 && s[1] == '"' then
        match ReadQuoted(s[2..])
        case None => None
        case Some((v, rest)) => Some(("\"" + v, rest))
      else Some(([], s[1..]))
    else
      match ReadQuoted(s[1..])
      case None => None
      case Some((v, rest)) => Some(([s[0]] + v, rest))
  }

  function ReadRecord(s: string): (r: Option<(seq<string>, string)>)
    ensures r.Some? ==> |r.value.1| < |s| && |r.value.0| >= 1
    decreases |s|
  {
    if s == [] || s[0] != '"' then None
    else
      match ReadQuoted(s[1..])
      case None => None
      case Some((v, rest)) =>
        if rest != [] && rest[0] == ',' then
          match ReadRecord(rest[1..])
          case None => None
          case Some((vs, rest')) => Some(([v] + vs, rest'))
        else Some(([v], rest))
  }

  function Parse(s: string): Option<seq<seq<string>>>
    decreases |s|
  {
    match ReadRecord(s)
    case None => None
    case Some((fields, rest)) =>
      if rest == [] then Some([fields])
      else if rest[0] == '\n' then
        match Parse(rest[1..])
        case None => None
        case Some(rows) => Some([fields] + rows)
      else None
  }

  lemma {:induction false} ReadQuotedOf(v: string, rest: string)
    requires rest == [] || rest[0] != '"'
    ensures ReadQuoted(DoubleQuotes(v) + "\"" + rest) == Some((v, rest))
  {
    var s := DoubleQuotes(v) + "\"" + rest;
    if v == [] {
      assert s == "\"" + rest;
      assert s[1..] == rest;
    } else {
      ReadQuotedOf(v[1..], rest);
      if v[0] == '"' {
        assert s[2..] == DoubleQuotes(v[1..]) + "\"" + rest;
        assert v == "\"" + v[1..];
      } else {
        assert s[1..] == DoubleQuotes(v[1..]) + "\"" + rest;
        assert v == [v[0]] + v[1..];
      }
    }
  }

  lemma {:induction false} ReadRecordOf(fields: seq<string>, rest: string)
    requires |fields| >= 1
    requires rest == [] || (rest[0] != '"' && rest[0] != ',')
    ensures ReadRecord(Record(fields) + rest) == Some((fields, rest))
  {
    var f := fields[0];
    if |fields| == 1 {
      RecordOfOne(f);
      assert fields == [f];
      ReadFieldOf(f, rest);
    } else {
      var tail := Record(fields[1..]) + rest;
      RecordCons(fields);
      assert Record(fields) + rest == Esc(f) + ("," + tail);
      ReadFieldOf(f, "," + tail);
      ReadRecordOf(fields[1..], rest);
      assert ("," + tail)[1..] == tail;
      assert fields == [f] + fields[1..];
    }
  }

  /** Reading a quoted field followed by `rest` gives back the field and `rest`. */
  lemma ReadFieldOf(f: string, rest: string)
    requires rest == [] || rest[0] != '"'
    ensures (Esc(f) + rest)[0] == '"'
    ensures ReadQuoted((Esc(f) + rest)[1..]) == Some((f, rest))
  {
    ReadQuotedOf(f, rest);
    assert (Esc(f) + rest)[1..] == DoubleQuotes(f) + "\"" + rest;
  }

  /** The export's text is its first record, a line feed, and the text of the rest. */
  lemma JoinRecords(rows: seq<seq<string>>)
    requires |rows| >= 2
    ensures Join(Map(Record, rows), "\n") == Record(rows[0]) + ("\n" + Join(Map(Record, rows[1..]), "\n"))
  {
    MapTail(Record, rows);
    JoinCons(Map(Record, rows), "\n");
  }

  /** A record followed by a line feed is read, then the rest of the text. */
  lemma ParseAfter(s: string, fields: seq<string>, tail: string, rows: seq<seq<string>>)
    requires ReadRecord(s) == Some((fields, "\n" + tail))
    requires Parse(tail) == Some(rows)
    ensures Parse(s) == Some([fields] + rows)
  {
    assert ("\n" + tail)[1..] == tail;
  }

  lemma {:induction false} ParseOf(rows: seq<seq<string>>)
    requires |rows| >= 1
    requires forall i :: 0 <= i < |rows| ==> |rows[i]| >= 1
    ensures Parse(Join(Map(Record, rows), "\n")) == Some(rows)
  {
    if |rows| == 1 {
      ReadRecordOf(rows[0], []);
      assert Map(Record, rows) == [Record(rows[0])];
      assert Record(rows[0]) + [] == Record(rows[0]);
      assert rows == [rows[0]];
    } else {
      var tail := Join(Map(Record, rows[1..]), "\n");
      JoinRecords(rows);
      ReadRecordOf(rows[0], "\n" + tail);
      ParseOf(rows[1..]);
      ParseAfter(Record(rows[0]) + ("\n" + tail), rows[0], tail, rows[1..]);
      assert rows == [rows[0]] + rows[1..];
    }
  }

  /**
    Reading the export gives back exactly `|cards| + 1` records: the header,
    then each card's question and answer, whatever quotes, commas or line
    feeds they contain.
   */
  lemma ToCsvRoundTrip(cards: seq<Flashcard>)
    ensures Parse(ToCsv(cards)) == Some(Table(cards))
  {
    ParseOf(Table(cards));
  }

  /** Tags never reach the export: only questions and answers matter. */
  lemma {:induction false} ToCsvIgnoresTags(a: seq<Flashcard>, b: seq<Flashcard>)
    requires |a| == |b|
    requires forall i :: 0 <= i < |a| ==> a[i].question == b[i].question && a[i].answer == b[i].answer
    ensures ToCsv(a) == ToCsv(b)
  {
    assert Table(a) == Table(b);
  }
}
