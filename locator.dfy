/** Locating the amount of a bill on the first page of its PDF: the item
    whose text contains "SOLDE NET" marks a row, and the first item of the
    page on that row holds the amount. */
module Locator {
  import opened Wrappers
  import opened Errors
  import opened Text

  /** Vertical position of a text item: `transform[5]` of a pdf.js text item.
      The konnector only ever compares two of them with `===`. */
  type Coord = int

  /** One text item of the page, in the order pdf.js lists them. */
  datatype TextItem = TextItem(str: string, y: Coord)

  const Label := "SOLDE NET"

  /** `Array.prototype.find`, reporting the index of the element found. */
  function FindFirst<T>(s: seq<T>, p: T -> bool): (r: Option<nat>)
    ensures r.Some? ==> r.value < |s| && p(s[r.value])
    ensures r.Some? ==> forall j :: 0 <= j < r.value ==> !p(s[j])
    ensures r.None? ==> forall j :: 0 <= j < |s| ==> !p(s[j])
  {
    if s == [] then None
    else if p(s[0]) then Some(0)
    else match FindFirst(s[1..], p)
      case None => None
      case Some(i) => Some(i + 1)
  }

  predicate IsLabel(item: TextItem) {
    Contains(item.str, Label)
  }

  /** Some item of the page contains the label. */
  predicate HasLabel(items: seq<TextItem>) {
    exists k :: 0 <= k < |items| && IsLabel(items[k])
  }

  /** Index of the item the first `find` returns. */
  function LabelIndex(items: seq<TextItem>): Option<nat> {
    FindFirst(items, IsLabel)
  }

  /** Index of the item the second `find` returns: the first one on `row`,
      searched from the start of the page. */
  function RowIndex(items: seq<TextItem>, row: Coord): Option<nat> {
    FindFirst(items, (item: TextItem) => item.y == row)
  }

  /** `text.replace(',', '.').replace(' €', '')`: the length stays, or drops
      by the two characters of the currency suffix. */
  function Normalize(text: string): (r: string)
    ensures |r| == |text| || |r| + 2 == |text|
  {
    ReplaceFirst(ReplaceFirst(text, ",", "."), " €", "")
  }

  const LabelMissing := TypeError("Cannot read property 'transform' of undefined")
  const RowMissing := TypeError("Cannot read property 'str' of undefined")

  /** The amount text `findAndAddAmount` hands to `parseFloat`, or the
      TypeError it raises when a `find` comes back empty. Extraction fails,
      with the TypeError of reading `transform` of `undefined`, exactly when
      no item contains the label. */
  function LocateAmount(items: seq<TextItem>): (r: Result<string, Error>)
    ensures r.Success? <==> HasLabel(items)
    ensures r.Failure? ==> r.error == LabelMissing
  {
    match LabelIndex(items)
    case None => Failure(LabelMissing)
    case Some(l) =>
      match RowIndex(items, items[l].y)
      case None => Failure(RowMissing)
      case Some(k) => Success(Normalize(items[k].str))
  }

  /** The label row is that of the first label item in page order: any item
      that contains the label and follows no other is the one used. */
  lemma LabelIndexIsFirstLabel(items: seq<TextItem>, l: nat)
    requires l < |items| && IsLabel(items[l])
    requires forall j :: 0 <= j < l ==> !IsLabel(items[j])
    ensures LabelIndex(items) == Some(l)
  {

  }

  /** Once the label is found, the row search always succeeds: it returns
      the smallest index on the label's row, which is at most the label's. */
  lemma RowSearchSucceeds(items: seq<TextItem>)
    requires LabelIndex(items).Some?
    ensures var l := LabelIndex(items).value;
      && RowIndex(items, items[l].y).Some?
      && var k := RowIndex(items, items[l].y).value;
      && k <= l
      && items[k].y == items[l].y
      && (forall j :: 0 <= j < k ==> items[j].y != items[l].y)
      && LocateAmount(items) == Success(Normalize(items[k].str))
  {

  }

  /** When no item before the label shares its row, the "amount" is the
      label item's own text. */
  lemma LabelAloneOnItsRow(items: seq<TextItem>, l: nat)
    requires l < |items| && IsLabel(items[l])
    requires forall j :: 0 <= j < l ==> !IsLabel(items[j])
    requires forall j :: 0 <= j < l ==> items[j].y != items[l].y
    ensures LocateAmount(items) == Success(Normalize(items[l].str))
  {
    LabelIndexIsFirstLabel(items, l);
    RowSearchSucceeds(items);
  }

  /** The amount is the first item on the label's row when that item comes
      before the label. */
  lemma AmountBeforeLabel(items: seq<TextItem>, k: nat, l: nat)
    requires k < l < |items| && IsLabel(items[l]) && items[k].y == items[l].y
    requires forall j :: 0 <= j < l ==> !IsLabel(items[j])
    requires forall j :: 0 <= j < k ==> items[j].y != items[l].y
    ensures LocateAmount(items) == Success(Normalize(items[k].str))
  {
    LabelIndexIsFirstLabel(items, l);
    RowSearchSucceeds(items);
    var k' := RowIndex(items, items[l].y).value;
    assert !(k' < k) && !(k < k');
  }

  /** Items after the first label never matter. */
  lemma {:induction false} LocateIgnoresLaterItems(items: seq<TextItem>, more: seq<TextItem>)
    requires LabelIndex(items).Some?
    ensures LocateAmount(items + more) == LocateAmount(items)
  {
    var l := LabelIndex(items).value;
    var all := items + more;
    assert all[l] == items[l];
    forall j | 0 <= j < l ensures !IsLabel(all[j]) {
      assert all[j] == items[j];
    }
    LabelIndexIsFirstLabel(all, l);
    RowSearchSucceeds(items);
    var k := RowIndex(items, items[l].y).value;
    forall j | 0 <= j < k ensures all[j].y != all[l].y {
      assert all[j] == items[j];
    }
    AmountBeforeOrAtLabel(all, k, l);
  }

  /** The amount is the item at index `k <= l` when `k` is the first on the label's row. */
  lemma AmountBeforeOrAtLabel(items: seq<TextItem>, k: nat, l: nat)
    requires k <= l < |items| && IsLabel(items[l]) && items[k].y == items[l].y
    requires forall j :: 0 <= j < l ==> !IsLabel(items[j])
    requires forall j :: 0 <= j < k ==> items[j].y != items[l].y
    ensures LocateAmount(items) == Success(Normalize(items[k].str))
  {
    if k == l {
      LabelAloneOnItsRow(items, l);
    } else {
      AmountBeforeLabel(items, k, l);
    }
  }

  /** Normalising a French amount: the first ',' becomes '.', the first
      " €" is dropped, and any later ',' stays as it is. Spaces inside the
      amount, such as a thousands separator, stay too. */
  lemma NormalizeAmount(whole: string, rest: string)
    requires ',' !in whole && !Contains(whole + "." + rest, " €")
    ensures Normalize(whole + "," + rest + " €") == whole + "." + rest
  {
    ReplaceFirstAfterPrefix(whole, ",", ".", rest + " €");
    assert whole + "," + rest + " €" == whole + "," + (rest + " €");
    var t := whole + "." + rest;
    var s := t + " €" + "";
    assert whole + "." + (rest + " €") == s;
    forall j | 0 <= j < |t|
      ensures !OccursAt(s, " €", j)
    {
      if j + 2 <= |t| {
        assert !OccursAt(t, " €", j);
        assert s[j..j + 2] == t[j..j + 2];
      } else {
        assert s[j..j + 2][1] == s[j + 1] == ' ';
      }
    }
    IndexOfAfter(t, " €", "");
  }

  /** Text with no ',' and no '€' is left as it is. */
  lemma NormalizeKeepsPlainText(text: string)
    requires ',' !in text && '€' !in text
    ensures Normalize(text) == text
  {
    IndexOfAbsent(text, ",", 0);
    IndexOfAbsent(text, " €", 1);
  }

  // The examples below spell each amount as the pieces the lemma above
  // splits it into ("12" + "," + "34" + " €" is the text "12,34 €").

  lemma NormalizeWithCents()
    ensures Normalize("12" + "," + "34" + " €") == "12.34"
  {
    IndexOfAbsent("12" + "." + "34", " €", 1);
    NormalizeAmount("12", "34");
  }

  lemma NormalizeZero()
    ensures Normalize("0" + "," + "00" + " €") == "0.00"
  {
    IndexOfAbsent("0" + "." + "00", " €", 1);
    NormalizeAmount("0", "00");
  }

  lemma NormalizeOnlyFirstComma()
    ensures Normalize("1" + "," + "234,56" + " €") == "1" + "." + "234,56"
  {
    IndexOfAbsent("1" + "." + "234,56", " €", 1);
    NormalizeAmount("1", "234,56");
  }

  lemma NormalizeThousands()
    ensures Normalize("1 234" + "," + "56" + " €") == "1 234" + "." + "56"
  {
    IndexOfAbsent("1 234" + "." + "56", " €", 1);
    NormalizeAmount("1 234", "56");
  }

  /** The page from which the konnector reads an amount lists the amount
      before its label. */
  lemma AmountListedFirst()
    ensures LocateAmount([TextItem("45" + "," + "67" + " €", 100), TextItem("SOLDE NET", 100)])
         == Success("45" + "." + "67")
  {
    var amount := TextItem("45" + "," + "67" + " €", 100);
    var marker := TextItem("SOLDE NET", 100);
    assert OccursAt(marker.str, Label, 0);
    IndexOfAbsent(amount.str, Label, 0);
    AmountBeforeLabel([amount, marker], 0, 1);
    IndexOfAbsent("45" + "." + "67", " €", 1);
    NormalizeAmount("45", "67");
  }

  /** A page listing the label before the amount on the same row yields the
      label's own text (for "SOLDE NET", text `parseFloat` cannot read as a
      number), whatever the amount says. */
  lemma LabelListedFirst(marker: string, amount: string, row: Coord)
    requires Contains(marker, Label) && ',' !in marker && '€' !in marker
    ensures LocateAmount([TextItem(marker, row), TextItem(amount, row)]) == Success(marker)
  {
    LabelAloneOnItsRow([TextItem(marker, row), TextItem(amount, row)], 0);
    NormalizeKeepsPlainText(marker);
  }
}
