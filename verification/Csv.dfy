/**
 Contacts as CSV. The printer quotes what needs quoting and defuses what a spreadsheet would run; the reader below
 follows section 2 of RFC 4180 and also takes a bare LF as the end of a record.
 */
module Csv {
  import opened Options

  datatype Contact = Contact(
    company: string, person: string, role: string, email: string, phone: string, status: string,
    notes: string, source: string, updatedAt: string)

  // ----- the printer --------------------------------------------------------------------------------------

  predicate StartsFormula(text: string)
  {
    text != [] && (text[0] == '=' || text[0] == '+' || text[0] == '-' || text[0] == '@')
  }

  function Defused(text: string): (r: string)
  {
    if StartsFormula(text) then "'" + text else text
  }

  predicate Special(c: char)
  {
    c == ',' || c == '"' || c == '\n' || c == '\r'
  }

  predicate NeedsQuotes(text: string)
  {
    exists c | c in text :: Special(c)
  }

  function DoubledQuotes(text: string): (r: string)
  {
    if text == [] then [] else (if text[0] == '"' then "\"\"" else [text[0]]) + DoubledQuotes(text[1..])
  }

  function Field(text: string): (r: string)
  {
    var defused := Defused(text);
    if NeedsQuotes(defused) then "\"" + DoubledQuotes(defused) + "\"" else defused
  }

  function FieldsOf(c: Contact): (r: seq<string>)
    ensures |r| == 9
  {
    [c.company, c.person, c.role, c.email, c.phone, c.status, c.notes, c.source, c.updatedAt]
  }

  const HEADER: seq<string> :=
    ["company", "person", "role", "email", "phone", "status", "notes", "source", "updated_at"]

  /** Each contact field stands in the column of its name. */
  lemma ColumnsMatch(c: Contact)
    ensures FieldsOf(c)[0] == c.company && HEADER[0] == "company"
    ensures FieldsOf(c)[1] == c.person && HEADER[1] == "person"
    ensures FieldsOf(c)[2] == c.role && HEADER[2] == "role"
    ensures FieldsOf(c)[3] == c.email && HEADER[3] == "email"
    ensures FieldsOf(c)[4] == c.phone && HEADER[4] == "phone"
    ensures FieldsOf(c)[5] == c.status && HEADER[5] == "status"
    ensures FieldsOf(c)[6] == c.notes && HEADER[6] == "notes"
    ensures FieldsOf(c)[7] == c.source && HEADER[7] == "source"
    ensures FieldsOf(c)[8] == c.updatedAt && HEADER[8] == "updated_at" && |HEADER| == 9
  {
  }

  /** Printed fields separated by commas and ended by a line feed. */
  function Line(fields: seq<string>): (r: string)
    ensures r != []
  {
    if fields == [] then "\n"
    else if |fields| == 1 then Field(fields[0]) + "\n"
    else Field(fields[0]) + "," + Line(fields[1..])
  }

  function Lines(rows: seq<seq<string>>): (r: string)
  {
    if rows == [] then "" else Line(rows[0]) + Lines(rows[1..])
  }

  function ContactRows(contacts: seq<Contact>): (r: seq<seq<string>>)
    ensures |r| == |contacts|
    ensures forall i | 0 <= i < |r| :: r[i] == FieldsOf(contacts[i])
  {
    seq(|contacts|, i requires 0 <= i < |contacts| => FieldsOf(contacts[i]))
  }

  /** Printed fields joined with commas. */
  method Joined(fields: seq<string>) returns (row: string)
    requires fields != []
    ensures row + "\n" == Line(fields)
  {
    var i := |fields| - 1;
    row := Field(fields[i]);
    assert fields[i..] == [fields[i]];
    while i > 0
      invariant 0 <= i < |fields|
      invariant row + "\n" == Line(fields[i..])
    {
      i := i - 1;
      assert fields[i..][1..] == fields[i + 1..];
      var rest := row;
      row := Field(fields[i]) + "," + rest;
      assert row + "\n" == Field(fields[i]) + "," + (rest + "\n");
    }
    assert fields[0..] == fields;
  }

  lemma {:induction false} LinesSnoc(rows: seq<seq<string>>, row: seq<string>)
    ensures Lines(rows + [row]) == Lines(rows) + Line(row)
  {
    if rows == [] {
      assert rows + [row] == [row] && [row][1..] == [];
    } else {
      assert (rows + [row])[1..] == rows[1..] + [row];
      LinesSnoc(rows[1..], row);
    }
  }

  // ----- the reader ---------------------------------------------------------------------------------------

  /** A read field and the text after it. */
  datatype Token = Token(text: string, rest: string)

  /** Unquoted text up to a separator; a quote inside it is malformed. */
  function ReadPlain(s: string): (r: Option<Token>)
    ensures r.Some? ==> |r.value.rest| <= |s|
  {
    if s == [] || s[0] == ',' || s[0] == '\n' || s[0] == '\r' then Some(Token([], s))
    else if s[0] == '"' then None
    else match ReadPlain(s[1..])
         case None => None
         case Some(t) => Some(Token([s[0]] + t.text, t.rest))
  }

  /** Quoted text up to its closing quote; a doubled quote stands for one. */
  function ReadQuoted(s: string): (r: Option<Token>)
    ensures r.Some? ==> |r.value.rest| <= |s|
  {
    if s == [] then None
    else if s[0] != '"' then
      match ReadQuoted(s[1..])
      case None => None
      case Some(t) => Some(Token([s[0]] + t.text, t.rest))
    else if |s| >= 2 && s[1] == '"' then
      match ReadQuoted(s[2..])
      case None => None
      case Some(t) => Some(Token(['"'] + t.text, t.rest))
    else Some(Token([], s[1..]))
  }

  function ReadField(s: string): (r: Option<Token>)
    ensures r.Some? ==> |r.value.rest| <= |s|
  {
    if s != [] && s[0] == '"' then ReadQuoted(s[1..]) else ReadPlain(s)
  }

  /** A record and the text after its line end. */
  datatype RecordRead = RecordRead(fields: seq<string>, rest: string)

  function ReadRecord(s: string): (r: Option<RecordRead>)
    ensures r.Some? ==> |r.value.rest| <= |s| && (s != [] ==> |r.value.rest| < |s|)
    decreases |s|
  {
    match ReadField(s)
    case None => None
    case Some(t) =>
      if t.rest == [] then Some(RecordRead([t.text], []))
      else if t.rest[0] == '\n' then Some(RecordRead([t.text], t.rest[1..]))
      else if |t.rest| >= 2 && t.rest[0] == '\r' && t.rest[1] == '\n' then Some(RecordRead([t.text], t.rest[2..]))
      else if t.rest[0] == ',' then
        match ReadRecord(t.rest[1..])
        case None => None
        case Some(record) => Some(RecordRead([t.text] + record.fields, record.rest))
      else None
  }

  function Read(s: string): (r: Option<seq<seq<string>>>)
    decreases |s|
  {
    if s == [] then Some([])
    else match ReadRecord(s)
         case None => None
         case Some(record) =>
           match Read(record.rest)
           case None => None
           case Some(rows) => Some([record.fields] + rows)
  }

  // ----- the round trip -----------------------------------------------------------------------------------

  lemma {:induction false} PlainRoundTrip(text: string, rest: string)
    requires forall c | c in text :: !Special(c)
    requires rest != [] && (rest[0] == ',' || rest[0] == '\n')
    ensures ReadPlain(text + rest) == Some(Token(text, rest))
  {
    if text == [] {
      assert text + rest == rest;
    } else {
      assert text[0] in text;
      assert (text + rest)[1..] == text[1..] + rest;
      assert forall c | c in text[1..] :: c in text;
      PlainRoundTrip(text[1..], rest);
      assert text == [text[0]] + text[1..];
    }
  }

  lemma {:induction false} QuotedRoundTrip(text: string, rest: string)
    requires rest != [] && rest[0] != '"'
    ensures ReadQuoted(DoubledQuotes(text) + "\"" + rest) == Some(Token(text, rest))
  {
    var s := DoubledQuotes(text) + "\"" + rest;
    if text == [] {
      assert s == "\"" + rest;
      assert s[1..] == rest;
    } else {
      var tail := DoubledQuotes(text[1..]) + "\"" + rest;
      assert text == [text[0]] + text[1..];
      QuotedRoundTrip(text[1..], rest);
      if text[0] == '"' {
        assert s == "\"\"" + tail;
        assert s[2..] == tail;
      } else {
        assert s == [text[0]] + tail;
        assert s[1..] == tail;
      }
    }
  }

  lemma QuotedFieldRoundTrip(text: string, rest: string)
    requires rest != [] && rest[0] != '"'
    ensures ReadField("\"" + DoubledQuotes(text) + "\"" + rest) == Some(Token(text, rest))
  {
    var tail := DoubledQuotes(text) + "\"" + rest;
    var s := "\"" + DoubledQuotes(text) + "\"" + rest;
    assert s[1..] == tail;
    QuotedRoundTrip(text, rest);
  }

  lemma PlainFieldRoundTrip(text: string, rest: string)
    requires forall c | c in text :: !Special(c)
    requires rest != [] && (rest[0] == ',' || rest[0] == '\n')
    ensures ReadField(text + rest) == Some(Token(text, rest))
  {
    PlainRoundTrip(text, rest);
    assert (text + rest)[0] == if text == [] then rest[0] else text[0];
    assert text != [] ==> text[0] in text;
  }

  /** Any field text is read back whole, defused but otherwise unchanged. */
  lemma FieldRoundTrip(text: string, rest: string)
    requires rest != [] && (rest[0] == ',' || rest[0] == '\n')
    ensures ReadField(Field(text) + rest) == Some(Token(Defused(text), rest))
  {
    if NeedsQuotes(Defused(text)) {
      QuotedFieldRoundTrip(Defused(text), rest);
    } else {
      PlainFieldRoundTrip(Defused(text), rest);
    }
  }

  function DefusedRow(fields: seq<string>): (r: seq<string>)
    ensures |r| == |fields|
  {
    if fields == [] then [] else [Defused(fields[0])] + DefusedRow(fields[1..])
  }

  lemma {:induction false} LineRoundTrip(fields: seq<string>, rest: string)
    requires fields != []
    ensures ReadRecord(Line(fields) + rest) == Some(RecordRead(DefusedRow(fields), rest))
    decreases |fields|
  {
    if |fields| == 1 {
      assert fields[1..] == [];
      assert Line(fields) + rest == Field(fields[0]) + ("\n" + rest);
      FieldRoundTrip(fields[0], "\n" + rest);
      assert ("\n" + rest)[1..] == rest;
      assert DefusedRow(fields) == [Defused(fields[0])];
    } else {
      var tail := Line(fields[1..]) + rest;
      assert Line(fields) + rest == Field(fields[0]) + ("," + tail);
      FieldRoundTrip(fields[0], "," + tail);
      assert ("," + tail)[1..] == tail;
      LineRoundTrip(fields[1..], rest);
    }
  }

  function DefusedRows(rows: seq<seq<string>>): (r: seq<seq<string>>)
    ensures |r| == |rows|
    ensures forall i | 0 <= i < |rows| :: r[i] == DefusedRow(rows[i])
  {
    seq(|rows|, i requires 0 <= i < |rows| => DefusedRow(rows[i]))
  }

  lemma {:induction false} LinesRoundTrip(rows: seq<seq<string>>)
    requires forall i | 0 <= i < |rows| :: rows[i] != []
    ensures Read(Lines(rows)) == Some(DefusedRows(rows))
  {
    if rows == [] {
      assert DefusedRows(rows) == [];
    } else {
      LineRoundTrip(rows[0], Lines(rows[1..]));
      LinesRoundTrip(rows[1..]);
      assert Lines(rows) != [];
      assert DefusedRows(rows) == [DefusedRow(rows[0])] + DefusedRows(rows[1..]);
    }
  }

  lemma HeaderUnchanged()
    ensures DefusedRow(HEADER) == HEADER
  {
    PlainRow(HEADER);
  }

  lemma {:induction false} PlainRow(fields: seq<string>)
    requires forall f | f in fields :: !StartsFormula(f)
    ensures DefusedRow(fields) == fields
  {
    if fields != [] {
      assert fields[0] in fields;
      assert forall f | f in fields[1..] :: f in fields;
      PlainRow(fields[1..]);
    }
  }

  lemma TableRoundTrip(header: seq<string>, rows: seq<seq<string>>)
    requires header != [] && DefusedRow(header) == header && forall i | 0 <= i < |rows| :: rows[i] != []
    ensures Read(Lines([header] + rows)) == Some([header] + DefusedRows(rows))
  {
    LinesRoundTrip([header] + rows);
    assert DefusedRows([header] + rows) == [header] + DefusedRows(rows);
  }

  /** The reader recovers the header and one nine-field row per contact, each field equal up to defusing. */
  lemma RoundTrip(contacts: seq<Contact>)
    ensures Read(Lines([HEADER] + ContactRows(contacts))) == Some(Expected(contacts))
  {
    HeaderUnchanged();
    TableRoundTrip(HEADER, ContactRows(contacts));
  }

  /** Field by field: the original, or the original behind one quote mark when it would start a formula. */
  lemma {:induction false} DefusedRowAt(fields: seq<string>, k: nat)
    requires k < |fields|
    ensures fields[k] != [] && fields[k][0] in {'=', '+', '-', '@'} ==> DefusedRow(fields)[k] == "'" + fields[k]
    ensures !(fields[k] != [] && fields[k][0] in {'=', '+', '-', '@'}) ==> DefusedRow(fields)[k] == fields[k]
    ensures DefusedRow(fields)[k] == [] || DefusedRow(fields)[k][0] !in {'=', '+', '-', '@'}
  {
    if k > 0 {
      DefusedRowAt(fields[1..], k - 1);
    }
  }

  /** A field is quoted exactly when it holds a comma, a quote or a line end, and printed as it stands otherwise. */
  lemma QuotedExactly(text: string)
    requires !(text != [] && text[0] in {'=', '+', '-', '@'})
    ensures (exists c | c in text :: c in {',', '"', '\n', '\r'}) ==>
              |Field(text)| >= 2 && Field(text)[0] == '"' && Field(text)[|Field(text)| - 1] == '"'
    ensures (forall c | c in text :: c !in {',', '"', '\n', '\r'}) ==> Field(text) == text
  {
  }

  /** The export loses exactly this: a text and its defused form print alike. */
  lemma DefusingIsNotInjective(text: string)
    requires StartsFormula(text)
    ensures Field(text) == Field("'" + text) && text != "'" + text
  {
    assert |text| != |"'" + text|;
  }

  /** Texts that print alike are equal, or one is the other behind a quote mark that defused it. */
  lemma EqualPrintsAreNearlyEqual(a: string, b: string)
    requires Field(a) == Field(b)
    ensures a == b || (StartsFormula(a) && b == "'" + a) || (StartsFormula(b) && a == "'" + b)
  {
    FieldRoundTrip(a, ",");
    FieldRoundTrip(b, ",");
    assert Defused(a) == Defused(b);
    if StartsFormula(a) && StartsFormula(b) {
      assert a == ("'" + a)[1..] && b == ("'" + b)[1..];
    }
  }

  // ----- the export loop ---------------------------------------------------------------------------------

  /** What a reader must find in the export of these contacts. */
  function Expected(contacts: seq<Contact>): (r: seq<seq<string>>)
    ensures |r| == |contacts| + 1 && r[0] == HEADER
    ensures forall i | 0 <= i < |contacts| :: r[i + 1] == DefusedRow(FieldsOf(contacts[i]))
  {
    [HEADER] + DefusedRows(ContactRows(contacts))
  }

  lemma ExportStep(header: seq<string>, rows: seq<seq<string>>, n: nat, text: string, row: string)
    requires n < |rows| && text == Lines([header] + rows[..n]) && row + "\n" == Line(rows[n])
    ensures text + row + "\n" == Lines([header] + rows[..n + 1])
  {
    LinesSnoc([header] + rows[..n], rows[n]);
    assert ([header] + rows[..n]) + [rows[n]] == [header] + rows[..n + 1];
    assert text + row + "\n" == text + (row + "\n");
  }

  lemma ExportStart(header: seq<string>, rows: seq<seq<string>>, row: string)
    requires row + "\n" == Line(header)
    ensures row + "\n" == Lines([header] + rows[..0])
  {
    assert [header] + rows[..0] == [header] && [header][1..] == [];
  }

  /** The export: the header line, then one line per contact. A reader recovers exactly the expected rows. */
  method ToCsv(contacts: seq<Contact>) returns (text: string)
    ensures Read(text) == Some(Expected(contacts))
  {
    ghost var rows := ContactRows(contacts);
    var header := Joined(HEADER);
    text := header + "\n";
    ExportStart(HEADER, rows, header);
    var n := 0;
    while n < |contacts|
      invariant 0 <= n <= |contacts|
      invariant text == Lines([HEADER] + rows[..n])
    {
      var row := Joined(FieldsOf(contacts[n]));
      ExportStep(HEADER, rows, n, text, row);
      text := text + row;
      text := text + "\n";
      n := n + 1;
    }
    assert rows[..n] == rows;
    RoundTrip(contacts);
  }
}
