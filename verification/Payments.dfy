/** A document's payments replaced by a desired ledger, against an ERP that treats an update as a replacement
    (src/adapters/metakocka/documents.ts). */
module Payments {
  import opened Prelude
  import opened JsText
  import opened Money
  import opened MoneyLaws

  /** One entry of a recorded body's mark_paid; what is missing or no string there is nothing here. */
  datatype Sent = Sent(paymentType: Option<string>, date: Option<string>, amount: string)

  /** A recorded body: an entry of its mark_paid that is no object is nothing. */
  datatype Body = Body(mkId: Option<string>, lines: Option<seq<string>>, markPaid: Option<seq<Option<Sent>>>,
                       rest: string)

  datatype Payment = Payment(paymentType: string, paidAt: int, amountMinor: int)

  /** How a moment is written as a payment date in the shop's time zone. */
  type Dates = int -> string

  /* The ERP. */

  datatype Document = Document(lines: seq<string>, payments: seq<Sent>, rest: string)

  /** What an entry is worth; the ERP reads a text with the currency's decimals for what it says. */
  function Worth(amount: string, decimals: nat): int {
    match ToMinorUnits(amount, decimals)
    case Minor(n) => n
    case _ => 0
  }

  function Total(payments: seq<Sent>, decimals: nat): int {
    if payments == [] then 0
    else Total(payments[..|payments| - 1], decimals) + Worth(payments[|payments| - 1].amount, decimals)
  }

  function Objects(entries: seq<Option<Sent>>): seq<Sent> {
    if entries == [] then []
    else Objects(entries[..|entries| - 1]) + if entries[|entries| - 1].Some? then [entries[|entries| - 1].value] else []
  }

  /** An update replaces the lines, an absent list deleting them. Payments it replaces if it names any, a lone zero
      standing for none; an empty or absent list leaves them. */
  function Updated(doc: Document, body: Body, decimals: nat): Document {
    var lines := if body.lines.Some? then body.lines.value else [];
    var payments :=
      if body.markPaid.None? || body.markPaid.value == [] then doc.payments
      else if |body.markPaid.value| == 1 && Total(Objects(body.markPaid.value), decimals) == 0 then []
      else Objects(body.markPaid.value);
    Document(lines, payments, body.rest)
  }

  datatype Snapshot = Snapshot(lineCount: Option<nat>, paidMinor: Option<int>)

  /** The total as the ERP writes it, sometimes with a comma; nothing when there is none. */
  function SumPaid(doc: Document, decimals: nat, comma: bool): Option<string> {
    var total := Total(doc.payments, decimals);
    if total == 0 then None
    else Some(if comma then WithComma(total, decimals) else MinorToDecimalString(total, decimals))
  }

  function WithComma(n: int, d: nat): string {
    Sign(n) + Decimal(Cut(Abs(n), d)) + if d > 0 then "," + Fixed(Abs(n), d) else ""
  }

  /* What is sent. */

  predicate Blank(s: string) {
    Trim(s) == ""
  }

  /** The one entry that clears a document: a zero hung on the payment type it already carries. */
  function ClearedPayments(body: Body, dates: Dates): Option<seq<Option<Sent>>> {
    if body.markPaid.None? || body.markPaid.value == [] || body.markPaid.value[0].None? then None
    else
      var first := body.markPaid.value[0].value;
      if first.paymentType.None? || Blank(first.paymentType.value) then None
      else
        var date := if first.date.Some? && !Blank(first.date.value) then first.date.value else dates(0);
        Some([Some(Sent(first.paymentType, Some(date), "0.00"))])
  }

  function AsSent(payments: seq<Payment>, dates: Dates, decimals: nat): (r: seq<Option<Sent>>)
    ensures |r| == |payments|
  {
    seq(|payments|, i requires 0 <= i < |payments| =>
      Some(Sent(Some(payments[i].paymentType), Some(dates(payments[i].paidAt)),
          MinorToDecimalString(payments[i].amountMinor, decimals))))
  }

  function MarkPaid(body: Body, payments: seq<Payment>, dates: Dates, decimals: nat): Option<seq<Option<Sent>>> {
    if payments == [] then ClearedPayments(body, dates) else Some(AsSent(payments, dates, decimals))
  }

  /** What a new document's body names: the ledger, or nothing for an empty one and for none. */
  function PaymentField(ledger: Option<seq<Payment>>, dates: Dates, decimals: nat): Option<seq<Option<Sent>>> {
    if ledger.Some? && ledger.value != [] then Some(AsSent(ledger.value, dates, decimals)) else None
  }

  function Sum(payments: seq<Payment>): int {
    if payments == [] then 0 else Sum(payments[..|payments| - 1]) + payments[|payments| - 1].amountMinor
  }

  datatype Outcome =
    | Done(body: Body, verified: Snapshot)
    | Unclearable
    | Unreadable
    | WrongTotal(actual: int, intended: int)
    | LostLines

  /** The ERP and its one document. */
  class Erp {
    const decimals: nat
    const comma: bool
    var document: Document

    constructor (document: Document, decimals: nat, comma: bool)
      ensures this.document == document && this.decimals == decimals && this.comma == comma
    {
      this.document, this.decimals, this.comma := document, decimals, comma;
    }

    method PutDocument(body: Body)
      modifies this
      ensures document == Updated(old(document), body, decimals)
    {
      document := Updated(document, body, decimals);
    }

    /** The document read back; the reader always reads two decimals, and gives up on a total it cannot hold. */
    method GetDocument() returns (snapshot: Option<Snapshot>)
      ensures snapshot == Snapped(document, decimals, comma)
    {
      var sumPaid := SumPaid(document, decimals, comma);
      if sumPaid.None? {
        return Some(Snapshot(Some(|document.lines|), None));
      }
      var paid := ToMinorUnits(sumPaid.value, 2);
      if paid.Minor? {
        return Some(Snapshot(Some(|document.lines|), Some(paid.n)));
      }
      snapshot := None;
    }
  }

  function Snapped(doc: Document, decimals: nat, comma: bool): Option<Snapshot> {
    match SumPaid(doc, decimals, comma)
    case None => Some(Snapshot(Some(|doc.lines|), None))
    case Some(text) =>
      match ToMinorUnits(text, 2)
      case Minor(n) => Some(Snapshot(Some(|doc.lines|), Some(n)))
      case _ => None
  }

  /** The whole call. */
  method ReplaceDocumentPayments(erp: Erp, mkId: string, body: Body, payments: seq<Payment>, requireClearable: bool,
                                 dates: Dates)
    returns (outcome: Outcome)
    modifies erp
    ensures var markPaid := MarkPaid(body, payments, dates, erp.decimals);
            var sent := body.(mkId := Some(mkId), markPaid := markPaid);
            && (outcome.Unclearable? <==> markPaid.None? && requireClearable)
            && erp.document == (if markPaid.None? then old(erp.document)
                else Updated(old(erp.document), sent, erp.decimals))
            && (outcome.Done? ==> outcome.body == (if markPaid.None? then body else sent)
                                  && Some(outcome.verified) == Snapped(erp.document, erp.decimals, erp.comma))
            && (markPaid.Some? ==> (outcome.Done? <==> Passes(erp.document, erp.decimals, erp.comma, Sum(payments))))
  {
    var expectedLines := if body.lines.Some? then |body.lines.value| else 0;
    var markPaid := if payments != [] then Some(AsSent(payments, dates, erp.decimals))
        else ClearedPayments(body, dates);
    if markPaid.None? {
      if requireClearable {
        return Unclearable;
      }
      var found := erp.GetDocument();
      return if found.Some? then Done(body, found.value) else Unreadable;
    }
    var sent := body.(mkId := Some(mkId), markPaid := markPaid);
    erp.PutDocument(sent);
    var verified := erp.GetDocument();
    if verified.None? {
      return Unreadable;
    }
    var intended := Sum(payments);
    var actual := if verified.value.paidMinor.Some? then verified.value.paidMinor.value else 0;
    if actual != intended {
      return WrongTotal(actual, intended);
    }
    if expectedLines > 0 && verified.value.lineCount.Some? && verified.value.lineCount.value < expectedLines {
      return LostLines;
    }
    outcome := Done(sent, verified.value);
  }

  /** The read-back total is the intended one. */
  predicate Passes(doc: Document, decimals: nat, comma: bool, intended: int) {
    var found := Snapped(doc, decimals, comma);
    found.Some? && intended == if found.value.paidMinor.Some? then found.value.paidMinor.value else 0
  }
}
