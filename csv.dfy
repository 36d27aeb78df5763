/**
 * The CSV export of the sales ledger. Every field is wrapped in double quotes
 * with each inner double quote doubled; a row holds the sale's date, its
 * product's name, the quantity, and the two prices as money text; only sales
 * whose product resolves get a row; the file starts with a byte-order mark and
 * a header line. A reader for that format is given beside the writer, and the
 * two are proved to round-trip.
 */
module Csv {
  import opened Wrappers
  import opened Records

  const DoubleQuote: char := '"'

  /** `String(val).replace(/"/g, '""')`. */
  function Escape(v: string): string
  {
    if |v| == 0 then []
    else (if v[0] == DoubleQuote then [DoubleQuote, DoubleQuote] else [v[0]]) + Escape(v[1..])
  }

  /** The export's `quote` helper. */
  function QuoteField(v: string): string
  {
    [DoubleQuote] + Escape(v) + [DoubleQuote]
  }

  function CountQuotes(s: string): nat
  {
    if |s| == 0 then 0 else (if s[0] == DoubleQuote then 1 else 0) + CountQuotes(s[1..])
  }

  /** Un-doubles every `""` pair, reading left to right. */
  function Unescape(s: string): string
  {
    if |s| == 0 then []
    else if |s| >= 2 && s[0] == DoubleQuote && s[1] == DoubleQuote then [DoubleQuote] + Unescape(s[2..])
    else [s[0]] + Unescape(s[1..])
  }

  lemma {:induction false} CountQuotesAppend(a: string, b: string)
    ensures CountQuotes(a + b) == CountQuotes(a) + CountQuotes(b)
  {
    if |a| == 0 {
      assert a + b == b;
    } else {
      assert (a + b)[1..] == a[1..] + b;
      CountQuotesAppend(a[1..], b);
    }
  }

  lemma {:induction false} EscapeCounts(v: string)
    ensures CountQuotes(Escape(v)) == 2 * CountQuotes(v)
  {
    if |v| > 0 {
      EscapeCounts(v[1..]);
      CountQuotesAppend(if v[0] == DoubleQuote then [DoubleQuote, DoubleQuote] else [v[0]], Escape(v[1..]));
    }
  }

  lemma {:induction false} UnescapeEscape(v: string)
    ensures Unescape(Escape(v)) == v
  {
    if |v| > 0 {
      UnescapeEscape(v[1..]);
      var e := Escape(v);
      if v[0] == DoubleQuote {
        assert e == [DoubleQuote, DoubleQuote] + Escape(v[1..]);
        assert e[2..] == Escape(v[1..]);
      } else {
        assert e == [v[0]] + Escape(v[1..]);
        assert e[1..] == Escape(v[1..]);
      }
      assert v == [v[0]] + v[1..];
    }
  }

  /**
   * A quoted field starts and ends with a double quote, holds an even number
   * of double quotes between them, and un-doubling its interior gives back the
   * value.
   */
  lemma QuoteFieldShape(v: string)
    ensures var q := QuoteField(v);
      |q| >= 2 && q[0] == DoubleQuote && q[|q| - 1] == DoubleQuote &&
      CountQuotes(q[1..|q| - 1]) % 2 == 0 &&
      Unescape(q[1..|q| - 1]) == v
  {
    var q := QuoteField(v);
    assert q[1..|q| - 1] == Escape(v);
    EscapeCounts(v);
    UnescapeEscape(v);
  }

  /** Reads the rest of a quoted field after its opening quote: the value and what follows the closing quote. */
  function ParseQuotedRest(s: string): (r: Option<(string, string)>)
    ensures r.Some? ==> |r.value.1| < |s|
  {
    if |s| == 0 then None
    else if s[0] == DoubleQuote then
      if |s| >= 2 && s[1] == DoubleQuote then
        match ParseQuotedRest(s[2..])
        case None => None
        case Some((f, rest)) => Some(([DoubleQuote] + f, rest))
      else Some(([], s[1..]))
    else
      match ParseQuotedRest(s[1..])
      case None => None
      case Some((f, rest)) => Some(([s[0]] + f, rest))
  }

  /** Reads one quoted field. */
  function ParseField(s: string): (r: Option<(string, string)>)
    ensures r.Some? ==> |r.value.1| < |s|
  {
    if |s| > 0 && s[0] == DoubleQuote then ParseQuotedRest(s[1..]) else None
  }

  /** Reads one row: quoted fields separated by commas, ended by a newline. */
  function ParseRecord(s: string): (r: Option<(seq<string>, string)>)
    ensures r.Some? ==> |r.value.1| < |s|
    decreases |s|
  {
    match ParseField(s)
    case None => None
    case Some((f, rest)) =>
      if |rest| > 0 && rest[0] == ',' then
        match ParseRecord(rest[1..])
        case None => None
        case Some((fs, rest2)) => Some(([f] + fs, rest2))
      else if |rest| > 0 && rest[0] == '\n' then Some(([f], rest[1..]))
      else None
  }

  /** Reads rows until the text runs out. */
  function ParseRecords(s: string): Option<seq<seq<string>>>
    decreases |s|
  {
    if |s| == 0 then Some([])
    else
      match ParseRecord(s)
      case None => None
      case Some((fields, rest)) =>
        match ParseRecords(rest)
        case None => None
        case Some(rows) => Some([fields] + rows)
  }

  /** `[...].join(',')` over quoted fields. */
  function JoinFields(fields: seq<string>): string
    requires |fields| > 0
  {
    if |fields| == 1 then QuoteField(fields[0])
    else QuoteField(fields[0]) + "," + JoinFields(fields[1..])
  }

  /** One row of the file, with its line break. */
  function Line(fields: seq<string>): string
    requires |fields| > 0
  {
    JoinFields(fields) + "\n"
  }

  function Lines(rows: seq<seq<string>>): string
    requires forall k :: 0 <= k < |rows| ==> |rows[k]| > 0
  {
    if |rows| == 0 then "" else Line(rows[0]) + Lines(rows[1..])
  }

  lemma {:induction false} ParseQuotedRestEscape(v: string, t: string)
    requires |t| == 0 || t[0] != DoubleQuote
    ensures ParseQuotedRest(Escape(v) + [DoubleQuote] + t) == Some((v, t))
  {
    var s := Escape(v) + [DoubleQuote] + t;
    if |v| == 0 {
      assert s == [DoubleQuote] + t;
      assert s[1..] == t;
    } else {
      ParseQuotedRestEscape(v[1..], t);
      var tail := Escape(v[1..]) + [DoubleQuote] + t;
      if v[0] == DoubleQuote {
        assert s == [DoubleQuote, DoubleQuote] + tail;
        assert s[2..] == tail;
      } else {
        assert s == [v[0]] + tail;
        assert s[1..] == tail;
      }
      assert v == [v[0]] + v[1..];
    }
  }

  lemma ParseFieldQuote(v: string, t: string)
    requires |t| == 0 || t[0] != DoubleQuote
    ensures ParseField(QuoteField(v) + t) == Some((v, t))
  {
    var s := QuoteField(v) + t;
    assert s[1..] == Escape(v) + [DoubleQuote] + t;
    ParseQuotedRestEscape(v, t);
  }

  /** Reading a written row gives back its fields and leaves what follows. */
  lemma {:induction false} ParseRecordLine(fields: seq<string>, t: string)
    requires |fields| > 0
    ensures ParseRecord(Line(fields) + t) == Some((fields, t))
  {
    var s := Line(fields) + t;
    if |fields| == 1 {
      assert s == QuoteField(fields[0]) + ("\n" + t);
      ParseFieldQuote(fields[0], "\n" + t);
      assert ("\n" + t)[1..] == t;
      assert fields == [fields[0]];
    } else {
      var more := Line(fields[1..]) + t;
      assert s == QuoteField(fields[0]) + ("," + more);
      ParseFieldQuote(fields[0], "," + more);
      assert ("," + more)[1..] == more;
      ParseRecordLine(fields[1..], t);
      assert fields == [fields[0]] + fields[1..];
    }
  }

  /** Reading a written run of rows gives back the rows. */
  lemma {:induction false} ParseRecordsLines(rows: seq<seq<string>>)
    requires forall k :: 0 <= k < |rows| ==> |rows[k]| > 0
    ensures ParseRecords(Lines(rows)) == Some(rows)
  {
    if |rows| > 0 {
      ParseRecordLine(rows[0], Lines(rows[1..]));
      ParseRecordsLines(rows[1..]);
      assert rows == [rows[0]] + rows[1..];
    }
  }

  /** `String(n)` for a non-negative integer: its decimal digits, most significant first. */
  function NatToString(n: nat): (r: string)
    ensures |r| > 0 && forall k :: 0 <= k < |r| ==> '0' <= r[k] <= '9'
  {
    if n < 10 then [DigitChar(n)] else NatToString(n / 10) + [DigitChar(n % 10)]
  }

  function DigitChar(d: nat): char
    requires d < 10
  {
    ['0', '1', '2', '3', '4', '5', '6', '7', '8', '9'][d]
  }

  /** `String(i)` for an integer: the digits of its magnitude, with a leading minus when negative. */
  function IntToString(i: int): (r: string)
    ensures |r| > 0 && (r[0] == '-' <==> i < 0)
    ensures forall k :: (if i < 0 then 1 else 0) <= k < |r| ==> '0' <= r[k] <= '9'
  {
    if i < 0 then "-" + NatToString(-i) else NatToString(i)
  }

  function DigitValue(c: char): nat
  {
    if '0' <= c <= '9' then (c as int - '0' as int) as nat else 0
  }

  /** Reads a run of decimal digits. */
  function ParseNat(s: string): nat
  {
    if |s| == 0 then 0 else 10 * ParseNat(s[..|s| - 1]) + DigitValue(s[|s| - 1])
  }

  function ParseInt(s: string): int
  {
    if |s| > 0 && s[0] == '-' then -(ParseNat(s[1..]) as int) else ParseNat(s)
  }

  lemma {:induction false} ParseNatToString(n: nat)
    ensures ParseNat(NatToString(n)) == n
  {
    var s := NatToString(n);
    if n >= 10 {
      ParseNatToString(n / 10);
      assert s[..|s| - 1] == NatToString(n / 10);
    }
  }

  lemma ParseIntDigits(d: string)
    requires |d| > 0 && '0' <= d[0] <= '9'
    ensures ParseInt(d) == ParseNat(d)
  {
  }

  lemma ParseIntMinus(d: string)
    ensures ParseInt("-" + d) == -(ParseNat(d) as int)
  {
    assert ("-" + d)[1..] == d;
  }

  /** The quantity column reads back as the quantity. */
  lemma ParseIntToString(i: int)
    ensures ParseInt(IntToString(i)) == i
  {
    if i < 0 {
      var n: nat := -i;
      var d := NatToString(n);
      assert IntToString(i) == "-" + d;
      ParseNatToString(n);
      ParseIntMinus(d);
    } else {
      var d := NatToString(i);
      assert IntToString(i) == d;
      ParseNatToString(i);
      ParseIntDigits(d);
    }
  }

  /** Byte-order mark put in front of the file for spreadsheet tools. */
  const ByteOrderMark: string := "\U{FEFF}"

  const HeaderLine: string := "Date,Product,Quantity,Unit Price (GHS),Total Price (GHS)\n"

  /** The five fields of one sale's row. `money` renders a price with two decimals. */
  function RowFields(sale: Sale, product: Product, money: real -> string): (r: seq<string>)
    ensures |r| == 5 && r[0] == sale.date && r[1] == product.name && ParseInt(r[2]) == sale.quantity
    ensures r[3] == money(sale.unitPrice) && r[4] == money(sale.totalPrice)
  {
    ParseIntToString(sale.quantity);
    [sale.date, product.name, IntToString(sale.quantity), money(sale.unitPrice), money(sale.totalPrice)]
  }

  /** The rows of the export: one per sale whose product resolves, in ledger order. */
  function ExportRows(sales: seq<Sale>, products: seq<Product>, money: real -> string): (rows: seq<seq<string>>)
    ensures forall k :: 0 <= k < |rows| ==> |rows[k]| == 5
  {
    if |sales| == 0 then []
    else
      (if Resolves(products, sales[0]) then [RowFields(sales[0], ProductOf(products, sales[0]), money)] else [])
      + ExportRows(sales[1..], products, money)
  }

  /** The whole exported text. */
  function ExportCsv(sales: seq<Sale>, products: seq<Product>, money: real -> string): (r: string)
    ensures |ByteOrderMark + HeaderLine| <= |r| && r[..|ByteOrderMark + HeaderLine|] == ByteOrderMark + HeaderLine
    ensures r[0] == '\U{FEFF}'
  {
    ByteOrderMark + HeaderLine + Lines(ExportRows(sales, products, money))
  }

  /** Reads an exported file back into its data rows. */
  function ParseExport(text: string): Option<seq<seq<string>>>
  {
    var prefix := ByteOrderMark + HeaderLine;
    if |text| >= |prefix| && text[..|prefix|] == prefix then ParseRecords(text[|prefix|..]) else None
  }

  /** The sales that get a row. */
  function ExportedSales(sales: seq<Sale>, products: seq<Product>): seq<Sale>
  {
    Filter(sales, (s: Sale) => Resolves(products, s))
  }

  /**
   * The export has exactly one row per sale whose product resolves, in ledger
   * order, and each row carries that sale's fields.
   */
  lemma {:induction false} ExportRowsSpec(sales: seq<Sale>, products: seq<Product>, money: real -> string)
    ensures |ExportRows(sales, products, money)| == |ExportedSales(sales, products)|
    ensures forall k :: 0 <= k < |ExportRows(sales, products, money)| ==>
              Resolves(products, ExportedSales(sales, products)[k]) &&
              ExportRows(sales, products, money)[k] ==
              RowFields(ExportedSales(sales, products)[k], ProductOf(products, ExportedSales(sales, products)[k]), money)
  {
    if |sales| > 0 {
      ExportRowsSpec(sales[1..], products, money);
      var keep := (s: Sale) => Resolves(products, s);
      assert ExportedSales(sales, products) ==
             (if keep(sales[0]) then [sales[0]] else []) + ExportedSales(sales[1..], products);
    }
  }

  /**
   * Reading the exported file back gives one row per exported sale with its
   * date, product name, quantity text and the two money texts, in order.
   */
  lemma ExportRoundTrip(sales: seq<Sale>, products: seq<Product>, money: real -> string)
    ensures ParseExport(ExportCsv(sales, products, money)) == Some(ExportRows(sales, products, money))
  {
    var rows := ExportRows(sales, products, money);
    var text := ExportCsv(sales, products, money);
    var prefix := ByteOrderMark + HeaderLine;
    assert text == prefix + Lines(rows);
    assert text[..|prefix|] == prefix;
    assert text[|prefix|..] == Lines(rows);
    ParseRecordsLines(rows);
  }
}
