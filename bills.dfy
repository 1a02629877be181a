/** Bill records as the konnector shapes them: JavaScript objects, modelled
    as maps from field names to values, so that `{ ...bill, f: v }` is a map
    update and `delete result.fileurl` a key removal. */
module Bills {
  import opened Wrappers
  import opened Errors
  import opened Text
  import opened Numerals
  import opened Locator

  type Month = m: int | 1 <= m <= 12 witness 1

  /** The calendar month of a bill's end date; the day and the time of day
      play no part in what the konnector derives from it. */
  datatype Date = Date(year: nat, month: Month)

  type Bytes = seq<bv8>

  datatype Value =
    | Str(s: string)
    /** A valid `Date` object. */
    | Instant(date: Date)
    /** `new Date(endDate)` of an end date JavaScript cannot read. */
    | InvalidInstant
    /** The number `parseFloat` reads from `text`. */
    | Amount(text: string)
    /** A stream that delivers `content` and ends. */
    | Stream(content: Bytes)
    /** `{ importDate, version }`, the import date in milliseconds since the epoch. */
    | Metadata(importDate: int, version: int)

  type Record = map<string, Value>

  const Vendor := "O2"
  const Currency := "€"
  const FileSuffix := "_o2.pdf"
  const SchemaVersion := 1

  /** The response to the download of a bill's `fileurl`: the PDF bytes and
      the text items pdf.js lists on its first page. */
  datatype Document = Document(pdf: Bytes, items: seq<TextItem>)

  /** The date a record carries, when it holds a valid one. */
  function DateOf(bill: Record): Option<Date> {
    if "date" in bill && bill["date"].Instant? then Some(bill["date"].date) else None
  }

  /** `format(bill.date, 'YYYY-MM')`: a year of at least four digits and a
      two-digit month, or "Invalid Date" when there is no valid date. */
  function YearMonth(bill: Record): (r: string)
    ensures DateOf(bill).Some? ==>
      |r| >= 7 && r[|r| - 3] == '-' && AllDigits(r[..|r| - 3]) && AllDigits(r[|r| - 2..])
  {
    match DateOf(bill)
    case Some(d) => PadLeft(Digits(d.year), 4) + "-" + PadLeft(Digits(d.month), 2)
    case None => "Invalid Date"
  }

  /** The file name of a bill: its month followed by "_o2.pdf". */
  function Filename(bill: Record): (r: string)
    ensures |r| >= |FileSuffix| && r[|r| - |FileSuffix|..] == FileSuffix
  {
    YearMonth(bill) + FileSuffix
  }

  /** Reads a file name back into the month it was derived from. */
  function ParseFilename(name: string): Option<Date> {
    if |name| < |FileSuffix| || name[|name| - |FileSuffix|..] != FileSuffix then None
    else ParseYearMonth(name[..|name| - |FileSuffix|])
  }

  /** Reads "YYYY-MM" back into a month. */
  function ParseYearMonth(stem: string): Option<Date> {
    match IndexOf(stem, "-")
    case None => None
    case Some(i) =>
      var year, month := stem[..i], stem[i + 1..];
      if AllDigits(year) && AllDigits(month) && |month| == 2 && 1 <= Decimal(month) <= 12
      then Some(Date(Decimal(year), Decimal(month)))
      else None
  }

  lemma ParseFilenameOfStem(stem: string)
    ensures ParseFilename(stem + FileSuffix) == ParseYearMonth(stem)
  {

  }

  lemma ParseYearMonthOf(year: string, month: string)
    requires AllDigits(year) && AllDigits(month) && |month| == 2 && 1 <= Decimal(month) <= 12
    ensures ParseYearMonth(year + "-" + month) == Some(Date(Decimal(year), Decimal(month)))
  {
    assert '-' !in year by {
      assert !IsDigit('-');
    }
    IndexOfAfterPrefix(year, "-", month);
    var stem := year + "-" + month;
    assert stem[..|year|] == year && stem[|year| + 1..] == month;
  }

  lemma YearMonthRoundTrip(d: Date)
    ensures ParseYearMonth(PadLeft(Digits(d.year), 4) + "-" + PadLeft(Digits(d.month), 2)) == Some(d)
  {
    PaddedRoundTrip(d.year, 4);
    PaddedRoundTrip(d.month, 2);
    ParseYearMonthOf(PadLeft(Digits(d.year), 4), PadLeft(Digits(d.month), 2));
  }

  /** The file name gives back the date it came from, and no date at all
      when the record had none. */
  lemma FilenameRoundTrip(bill: Record)
    ensures ParseFilename(Filename(bill)) == DateOf(bill)
  {
    ParseFilenameOfStem(YearMonth(bill));
    match DateOf(bill)
    case Some(d) =>
      YearMonthRoundTrip(d);
    case None =>
      IndexOfAbsent("Invalid Date", "-", 0);
  }

  /** Two records get the same file name exactly when they carry the same
      month (or both lack a valid date). */
  lemma FilenameDeterminedByDate(a: Record, b: Record)
    ensures Filename(a) == Filename(b) <==> DateOf(a) == DateOf(b)
  {
    FilenameRoundTrip(a);
    FilenameRoundTrip(b);
  }

  /** The fields the `bills.map` of `handleBills` writes. */
  const DecorationKeys := {"filename", "vendor", "currency", "metadata"}

  /** One step of the `bills.map` of `handleBills`, at import date `now`. */
  function Decorate(bill: Record, now: int): (r: Record)
    ensures r.Keys == bill.Keys + DecorationKeys
    ensures forall k :: k in bill && k !in DecorationKeys ==> r[k] == bill[k]
    ensures r["filename"] == Str(Filename(bill))
    ensures r["vendor"] == Str(Vendor) && r["currency"] == Str(Currency)
    ensures r["metadata"] == Metadata(now, SchemaVersion)
  {
    bill + map[
      "filename" := Str(Filename(bill)),
      "vendor" := Str(Vendor),
      "currency" := Str(Currency),
      "metadata" := Metadata(now, SchemaVersion)
    ]
  }

  /** The `bills.map` of `handleBills`; `now(i)` is what `new Date()` gives
      while the i-th bill is decorated. */
  function DecorateAll(bills: seq<Record>, now: nat -> int): (r: seq<Record>)
    ensures |r| == |bills|
    ensures forall i :: 0 <= i < |bills| ==> r[i] == Decorate(bills[i], now(i))
  {
    seq(|bills|, i requires 0 <= i < |bills| => Decorate(bills[i], now(i)))
  }

  /** Decoration leaves the date alone, so a decorated bill's file name is
      that of the bill it came from. */
  lemma DecorateKeepsDate(bill: Record, now: int)
    ensures DateOf(Decorate(bill, now)) == DateOf(bill)
    ensures Filename(Decorate(bill, now)) == Filename(bill)
  {
    var decorated := Decorate(bill, now);
    assert "date" !in DecorationKeys;
    assert DateOf(decorated) == DateOf(bill);
    assert YearMonth(decorated) == YearMonth(bill);
  }

  /** The fields `findAndAddAmount` writes or deletes. */
  const AmendedKeys := {"fileurl", "amount", "filestream"}

  /** The record `findAndAddAmount` resolves to, for a bill whose download
      is `doc`, or the error it rejects with. */
  function Amend(bill: Record, doc: Document): (r: Result<Record, Error>)
    ensures r.Success? <==> HasLabel(doc.items)
    ensures r.Failure? ==> r.error == LabelMissing
    ensures r.Success? ==> r.value.Keys == bill.Keys - {"fileurl"} + {"amount", "filestream"}
    ensures r.Success? ==> forall k :: k in bill && k !in AmendedKeys ==> r.value[k] == bill[k]
    ensures r.Success? ==> r.value["amount"] == Amount(LocateAmount(doc.items).value)
    ensures r.Success? ==> r.value["filestream"] == Stream(doc.pdf)
  {
    var amount :- LocateAmount(doc.items);
    Success(bill["amount" := Amount(amount)]["filestream" := Stream(doc.pdf)] - {"fileurl"})
  }

  /** `saved` is what becomes of the stub `bill`, decorated at import date
      `now` and completed from its download `doc`: it keeps the stub's
      fields but `fileurl`, carries the file name of the stub's month, the
      vendor and currency constants, metadata of schema version 1, the
      amount read from the page and the PDF as a stream. */
  ghost predicate CompletedFrom(saved: Record, bill: Record, now: int, doc: Document) {
    && saved.Keys == bill.Keys - {"fileurl"} + DecorationKeys + {"amount", "filestream"}
    && (forall k :: k in bill && k !in DecorationKeys && k !in AmendedKeys ==> saved[k] == bill[k])
    && saved["filename"] == Str(Filename(bill))
    && saved["vendor"] == Str(Vendor) && saved["currency"] == Str(Currency)
    && saved["metadata"] == Metadata(now, SchemaVersion)
    && LocateAmount(doc.items).Success?
    && saved["amount"] == Amount(LocateAmount(doc.items).value)
    && saved["filestream"] == Stream(doc.pdf)
  }

  /** Decorating a stub and then completing it gives a record completed
      from that stub, whenever the page carries the label. */
  lemma AmendDecorated(bill: Record, now: int, doc: Document)
    requires HasLabel(doc.items)
    ensures Amend(Decorate(bill, now), doc).Success?
    ensures CompletedFrom(Amend(Decorate(bill, now), doc).value, bill, now, doc)
  {
    var decorated := Decorate(bill, now);
    var r := Amend(decorated, doc);
    assert r.Success?;
    var amended := r.value;
    assert "fileurl" !in DecorationKeys;
    assert amended.Keys == bill.Keys - {"fileurl"} + DecorationKeys + {"amount", "filestream"};
    forall k | k in DecorationKeys
      ensures amended[k] == decorated[k]
    {
      assert k in decorated && k !in AmendedKeys;
    }
  }

  /** `findAndAddAmount`: works on a shallow copy of `bill`, which it
      completes field by field. */
  method FindAndAddAmount(bill: Record, doc: Document) returns (r: Result<Record, Error>)
    ensures r == Amend(bill, doc)
  {
    var result := bill;
    var pdfBuffer := doc.pdf;
    var amount :- LocateAmount(doc.items);
    result := result["amount" := Amount(amount)];
    result := result["filestream" := Stream(pdfBuffer)];
    result := result - {"fileurl"};
    return Success(result);
  }
}
