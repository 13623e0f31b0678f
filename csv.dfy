/** GET /api/export/csv of backend/server.js: a fixed header line, then one
    comma-separated line per order (newest first). Text fields are wrapped
    in double quotes without escaping, so a reader recovers every field
    only when the text holds no comma, quote or line break. */
module Csv {
  import opened Base
  import opened Text
  import opened Orders

  /** The column titles of the header line. */
  const HeaderNames: seq<string> :=
    ["Order ID", "Customer Name", "Phone", "Service", "Amount", "Status", "Address", "Notes",
     "Admin Notes", "Created At", "Paid At", "Updated At"]

  const HeaderLine: string := Join(HeaderNames, ',')

  /** A text cell: the value between two double quotes. */
  function Quote(s: string): (q: string)
    ensures |q| == |s| + 2 && q[0] == '"' && q[|q| - 1] == '"' && q[1..|q| - 1] == s
  {
    "\"" + s + "\""
  }

  /** The inverse of Quote on quoted text. */
  function Unquote(s: string): string {
    if |s| >= 2 && s[0] == '"' && s[|s| - 1] == '"' then s[1..|s| - 1] else s
  }

  lemma UnquoteQuote(s: string)
    ensures Unquote(Quote(s)) == s
  {
  }

  /** The twelve cells of one order's line; `iso` is toISOString. */
  function Fields(o: Order, iso: nat -> string): (cs: seq<string>)
    ensures |cs| == |HeaderNames|
  {
    [ o.id, Quote(o.customerName), o.customerPhone, Quote(o.service), IntToDecimal(o.price),
      o.status, Quote(o.address), Quote(o.notes), Quote(o.adminNotes), iso(o.createdAt),
      if o.paidAt.Some? then iso(o.paidAt.value) else "", iso(o.updatedAt) ]
  }

  function Row(o: Order, iso: nat -> string): string {
    Join(Fields(o, iso), ',')
  }

  function Rows(xs: seq<Order>, iso: nat -> string): (rows: seq<string>)
    ensures |rows| == |xs|
    ensures forall i :: 0 <= i < |xs| ==> rows[i] == Row(xs[i], iso)
  {
    seq(|xs|, i requires 0 <= i < |xs| => Row(xs[i], iso))
  }

  /** `csvHeader + rows.join('\n')`: the header ends with a line break and
      the last row has none. */
  function Document(xs: seq<Order>, iso: nat -> string): string {
    HeaderLine + "\n" + Join(Rows(xs, iso), '\n')
  }

  predicate PlainText(s: string) {
    ',' !in s && '"' !in s && '\n' !in s
  }

  /** An order whose cells survive the export: no text field holds a comma,
      a quote or a line break. */
  predicate Exportable(o: Order) {
    && PlainText(o.id) && PlainText(o.customerName) && PlainText(o.customerPhone)
    && PlainText(o.service) && PlainText(o.status) && PlainText(o.address)
    && PlainText(o.notes) && PlainText(o.adminNotes)
  }

  /** Timestamps render without commas or line breaks. */
  ghost predicate PlainTimestamps(iso: nat -> string) {
    forall t :: PlainText(iso(t))
  }

  lemma {:induction false} JoinAvoids(parts: seq<string>, sep: char, c: char)
    requires c != sep && forall i :: 0 <= i < |parts| ==> c !in parts[i]
    ensures c !in Join(parts, sep)
  {
    if |parts| > 1 {
      JoinAvoids(parts[1..], sep, c);
    }
  }

  lemma FieldsArePlain(o: Order, iso: nat -> string)
    requires Exportable(o) && PlainTimestamps(iso)
    ensures forall i :: 0 <= i < 12 ==> ',' !in Fields(o, iso)[i] && '\n' !in Fields(o, iso)[i]
  {
    var fs := Fields(o, iso);
    assert PlainText(iso(o.createdAt)) && PlainText(iso(o.updatedAt));
    if o.paidAt.Some? {
      assert PlainText(iso(o.paidAt.value));
    }
    assert forall c: char :: c != '-' && !IsDigit(c) ==> c !in IntToDecimal(o.price) by {
      forall c: char | c != '-' && !IsDigit(c) ensures c !in IntToDecimal(o.price) {
        if o.price >= 0 {
          assert AllDigits(IntToDecimal(o.price));
        } else {
          assert IntToDecimal(o.price) == "-" + NatToDecimal(-o.price);
        }
      }
    }
  }

  /** Reading an exportable order's line back (splitting at commas and
      removing the quotes) recovers its id, customer, phone, service, price,
      status, address and both notes. */
  lemma RowReadsBack(o: Order, iso: nat -> string)
    requires Exportable(o) && PlainTimestamps(iso)
    ensures var cells := Split(Row(o, iso), ',');
      && |cells| == 12
      && cells[0] == o.id && Unquote(cells[1]) == o.customerName && cells[2] == o.customerPhone
      && Unquote(cells[3]) == o.service && cells[4] == IntToDecimal(o.price) && cells[5] == o.status
      && Unquote(cells[6]) == o.address && Unquote(cells[7]) == o.notes
      && Unquote(cells[8]) == o.adminNotes && cells[9] == iso(o.createdAt)
      && cells[10] == (if o.paidAt.Some? then iso(o.paidAt.value) else "")
      && cells[11] == iso(o.updatedAt)
  {
    RowSplitsIntoFields(o, iso);
    UnquoteQuote(o.customerName);
    UnquoteQuote(o.service);
    UnquoteQuote(o.address);
    UnquoteQuote(o.notes);
    UnquoteQuote(o.adminNotes);
  }

  lemma RowSplitsIntoFields(o: Order, iso: nat -> string)
    requires Exportable(o) && PlainTimestamps(iso)
    ensures Split(Row(o, iso), ',') == Fields(o, iso)
  {
    FieldsArePlain(o, iso);
    SplitJoin(Fields(o, iso), ',');
  }

  /** No row of exportable orders breaks a line. */
  lemma RowsHaveNoLineBreak(xs: seq<Order>, iso: nat -> string)
    requires PlainTimestamps(iso)
    requires forall i :: 0 <= i < |xs| ==> Exportable(xs[i])
    ensures forall i :: 0 <= i < |xs| ==> '\n' !in Rows(xs, iso)[i]
  {
    forall i | 0 <= i < |xs| ensures '\n' !in Rows(xs, iso)[i] {
      FieldsArePlain(xs[i], iso);
      JoinAvoids(Fields(xs[i], iso), ',', '\n');
    }
  }

  lemma HeaderHasNoLineBreak()
    ensures '\n' !in HeaderLine
  {
    assert forall i :: 0 <= i < |HeaderNames| ==> '\n' !in HeaderNames[i];
    JoinAvoids(HeaderNames, ',', '\n');
  }

  /** The export of exportable orders has exactly one line per order after
      the header, in the order given; with no orders it is the header line
      followed by one empty line. */
  lemma DocumentLines(xs: seq<Order>, iso: nat -> string)
    requires PlainTimestamps(iso)
    requires forall i :: 0 <= i < |xs| ==> Exportable(xs[i])
    ensures xs != [] ==> Split(Document(xs, iso), '\n') == [HeaderLine] + Rows(xs, iso)
    ensures xs == [] ==> Split(Document(xs, iso), '\n') == [HeaderLine, ""]
  {
    var rows := Rows(xs, iso);
    HeaderHasNoLineBreak();
    SplitAtFirstSeparator(HeaderLine, Join(rows, '\n'), '\n');
    if xs != [] {
      RowsHaveNoLineBreak(xs, iso);
      SplitJoin(rows, '\n');
    } else {
      assert Join(rows, '\n') == "";
    }
  }
}
