/** Replaced payments converge on the desired ledger (src/adapters/metakocka/documents.ts). */
module PaymentLaws {
  import opened Prelude
  import opened JsText
  import opened Money
  import opened MoneyLaws
  import opened Payments

  /** A ledger whose amounts, and whose sum, are safe integers, under types that are not blank. */
  ghost predicate GoodLedger(payments: seq<Payment>) {
    && Abs(Sum(payments)) <= MAX_SAFE
    && forall i :: 0 <= i < |payments| ==> Abs(payments[i].amountMinor) <= MAX_SAFE && !Blank(payments[i].paymentType)
  }

  predicate Clearable(body: Body) {
    body.markPaid.Some? && body.markPaid.value != [] && body.markPaid.value[0].Some?
    && body.markPaid.value[0].value.paymentType.Some? && !Blank(body.markPaid.value[0].value.paymentType.value)
  }

  /** An empty ledger can be sent later, and clears the document, exactly when the document was created with a payment
      whose type is not blank. */
  lemma CreatedIsClearableIff(body: Body, ledger: Option<seq<Payment>>, dates: Dates, d: nat)
    ensures var created := body.(markPaid := PaymentField(ledger, dates, d));
            && (MarkPaid(created, [], dates, d).Some? <==> Clearable(created))
            && (Clearable(created) <==> ledger.Some? && ledger.value != [] && !Blank(ledger.value[0].paymentType))
  {
    if ledger.Some? && ledger.value != [] {
      assert AsSent(ledger.value, dates, d)[0].Some?;
    }
  }

  /* Reading back. */

  lemma CommaReadsAsPrinted(n: int, d: nat)
    ensures Normalised(WithComma(n, d)) == Printed(n, d)
  {
    PrintedIsWritten(n, d);
    if d > 0 {
      var front := Sign(n) + Decimal(Cut(Abs(n), d));
      TrimmedStays(WithComma(n, d));
      DotlessStays(front);
      CommaReads(front, Fixed(Abs(n), d));
    } else {
      PlainStays(Printed(n, d));
    }
  }

  /** A total written with d decimals and read with two is itself exactly when d is two or it is nothing. */
  lemma ReadBackIff(n: int, d: nat, text: string)
    requires Abs(n) <= MAX_SAFE && Normalised(text) == Printed(n, d)
    ensures ToMinorUnits(text, 2) == Minor(n) <==> d == 2 || n == 0
  {
    var p := Parts(n < 0, Decimal(Cut(Abs(n), d)), Fixed(Abs(n), d));
    PrintedIsWritten(n, d);
    var m := ParsesExactly(text, p, d > 0, 2);
    ValueAppend(p.whole, p.fraction);
    DecimalValue(Cut(Abs(n), d));
    FixedValue(Abs(n), d);
    CutAndLow(Abs(n), d);
    assert Value(p.whole + p.fraction) == Abs(n);
    RoundsIff(m, Abs(n), d);
  }

  /** The nearest to 100 x / 10^d is x exactly when d is two or x is nothing. */
  lemma RoundsIff(m: int, x: nat, d: nat)
    requires Rounds(m, Scale(x, 2), d) && m >= 0
    ensures m == x <==> d == 2 || x == 0
  {
    assert Scale(x, 1) == 10 * x && Scale(x, 2) == 100 * x;
    ScaleIsTimes(x, d);
    if d == 2 || x == 0 {
      ScaleZero(d);
      assert Rounds(x, Scale(x, 2), d);
      RoundsToOne(m, x, Scale(x, 2), d);
    } else if d < 2 {
      assert Pow10(0) == 1 && Pow10(1) == 10;
      assert d == 1 ==> Scale(x, 1) == 10 * x;
    } else {
      AtLeastThousand(d);
      var p := Pow10(d);
      if m == x {
        assert 2 * (x * p) <= 200 * x + p;
        assert x * p >= p by { AtLeastOne(x, p); }
        TooMany(x, p);
      }
    }
  }

  lemma TooMany(x: int, p: int)
    requires x >= 1 && p >= 1000
    ensures 2 * (x * p) > 200 * x + p
  {
    var q := p - 100;
    assert x * p == x * q + 100 * x;
    AtLeastOne(x, q);
  }

  lemma {:induction false} AtLeastThousand(d: nat)
    requires d >= 3
    ensures Pow10(d) >= 1000
  {
    if d == 3 {
      assert Pow10(1) == 10 && Pow10(2) == 100;
    } else {
      AtLeastThousand(d - 1);
    }
  }

  /** The check passes exactly when the currency has two decimals, or the document carries nothing. */
  lemma CheckPassesIff(doc: Document, decimals: nat, comma: bool)
    requires Abs(Total(doc.payments, decimals)) <= MAX_SAFE
    ensures Passes(doc, decimals, comma, Total(doc.payments, decimals)) <==>
            decimals == 2 || Total(doc.payments, decimals) == 0
  {
    var total := Total(doc.payments, decimals);
    if total != 0 {
      MinorIsPrinted(total, decimals);
      PrintedIsWritten(total, decimals);
      PlainStays(Printed(total, decimals));
      CommaReadsAsPrinted(total, decimals);
      ReadBackIff(total, decimals, SumPaid(doc, decimals, comma).value);
    }
  }

  /* What the ERP holds afterwards. */

  lemma {:induction false} TotalSent(payments: seq<Payment>, dates: Dates, d: nat)
    requires forall i :: 0 <= i < |payments| ==> Abs(payments[i].amountMinor) <= MAX_SAFE
    ensures Total(Objects(AsSent(payments, dates, d)), d) == Sum(payments)
  {
    if payments != [] {
      var n := |payments| - 1;
      TotalSent(payments[..n], dates, d);
      assert AsSent(payments, dates, d)[..n] == AsSent(payments[..n], dates, d);
      RoundTrip(payments[n].amountMinor, d);
    }
  }

  /** Zeros before and behind the dot are worth nothing in any currency. */
  lemma ZerosAreWorthless(whole: string, fraction: string, d: nat)
    requires Digits(whole + fraction) && whole != [] && forall k :: 0 <= k < |whole + fraction| ==>
            (whole + fraction)[k] == '0'
    ensures ToMinorUnits(whole + ("." + fraction), d) == Minor(0)
  {
    var p := Parts(false, whole, fraction);
    assert forall k :: 0 <= k < |whole| ==> whole[k] == (whole + fraction)[k];
    assert forall k :: 0 <= k < |fraction| ==> fraction[k] == (whole + fraction)[|whole| + k];
    assert Written(p, true) == whole + ("." + fraction);
    PlainStays(whole + ("." + fraction));
    var m := ParsesExactly(whole + ("." + fraction), p, true, d);
    ZerosValue(whole + fraction);
    RoundsToNothing(m, |fraction|, d);
  }

  lemma ZeroIsWorthless(d: nat)
    ensures ToMinorUnits("0.00", d) == Minor(0)
  {
    ZerosAreWorthless("0", "00", d);
    assert "0" + ("." + "00") == "0.00";
  }

  lemma RoundsToNothing(m: int, k: nat, d: nat)
    requires Rounds(m, Scale(0, d), k)
    ensures m == 0
  {
    ScaleZero(d);
    ScaleZero(k);
    RoundsToOne(m, 0, 0, k);
  }

  function Sent(body: Body, mkId: string, payments: seq<Payment>, dates: Dates, d: nat): Body {
    body.(mkId := Some(mkId), markPaid := MarkPaid(body, payments, dates, d))
  }

  /** Each payment is sent as itself: its type, its own day, and a text that is worth its amount, in its place. */
  lemma LedgerIsSent(body: Body, mkId: string, payments: seq<Payment>, dates: Dates, d: nat, k: nat)
    requires k < |payments| && Abs(payments[k].amountMinor) <= MAX_SAFE
    ensures var sent := Sent(body, mkId, payments, dates, d);
            && sent.markPaid.Some? && |sent.markPaid.value| == |payments| && sent.markPaid.value[k].Some?
            && var entry := sent.markPaid.value[k].value;
            && entry.paymentType == Some(payments[k].paymentType) && entry.date == Some(dates(payments[k].paidAt))
            && ToMinorUnits(entry.amount, d) == Minor(payments[k].amountMinor)
  {
    RoundTrip(payments[k].amountMinor, d);
  }

  /** An empty ledger is sent as one entry worth nothing, of the type and on the day of the document's first payment, or
      on the first of all days if that has none; and not at all when the document cannot be cleared. */
  lemma ClearIsSent(body: Body, mkId: string, dates: Dates, d: nat)
    ensures var sent := Sent(body, mkId, [], dates, d);
            && (sent.markPaid.Some? <==> Clearable(body))
            && (Clearable(body) ==>
                  var first := body.markPaid.value[0].value;
                  && |sent.markPaid.value| == 1 && sent.markPaid.value[0].Some?
                  && var entry := sent.markPaid.value[0].value;
                  && entry.paymentType == first.paymentType && ToMinorUnits(entry.amount, d) == Minor(0)
                  && entry.date
                     == if first.date.Some? && !AllSpace(first.date.value) then first.date else Some(dates(0)))
  {
    if Clearable(body) {
      var first := body.markPaid.value[0].value;
      if first.date.Some? {
        BlankIff(first.date.value);
      }
      ZeroIsWorthless(d);
    }
  }

  /** After a call the ERP's total is the ledger's, and its lines the body's. */
  lemma CallConverges(doc: Document, body: Body, mkId: string, payments: seq<Payment>, dates: Dates, d: nat)
    requires GoodLedger(payments) && (payments == [] ==> Clearable(body))
    ensures var sent := Sent(body, mkId, payments, dates, d);
            && sent.markPaid.Some? && Clearable(sent) && sent.lines == body.lines
            && Total(Updated(doc, sent, d).payments, d) == Sum(payments)
            && Updated(doc, sent, d).lines == if body.lines.Some? then body.lines.value else []
  {
    var entries := MarkPaid(body, payments, dates, d).value;
    if payments == [] {
      ZeroIsWorthless(d);
      assert Objects(entries[..0]) == [];
      assert Total(Objects(entries), d) == 0;
    } else {
      TotalSent(payments, dates, d);
    }
  }

  /** The same ledger sent again is the same body and changes nothing. */
  lemma SentAgainChangesNothing(doc: Document, body: Body, mkId: string, payments: seq<Payment>, dates: Dates, d: nat)
    requires GoodLedger(payments) && (payments == [] ==> Clearable(body))
    ensures var sent := Sent(body, mkId, payments, dates, d);
            Sent(sent, mkId, payments, dates, d) == sent
                && Updated(Updated(doc, sent, d), sent, d) == Updated(doc, sent, d)
  {}

  /** The call succeeded and read back this ledger's total. */
  predicate Succeeded(outcome: Outcome, ledger: seq<Payment>) {
    && outcome.Done?
    && (if outcome.verified.paidMinor.Some? then outcome.verified.paidMinor.value else 0) == Sum(ledger)
  }

  predicate Carries(doc: Document, ledger: seq<Payment>, lines: Option<seq<string>>) {
    Total(doc.payments, 2) == Sum(ledger) && doc.lines == if lines.Some? then lines.value else []
  }

  /** One call of a sequence. */
  method SendLedger(erp: Erp, mkId: string, body: Body, ledger: seq<Payment>, requireClearable: bool, dates: Dates)
    returns (outcome: Outcome)
    requires erp.decimals == 2 && Clearable(body) && GoodLedger(ledger)
    modifies erp
    ensures Succeeded(outcome, ledger) && Carries(erp.document, ledger, body.lines)
    ensures Clearable(outcome.body) && outcome.body.lines == body.lines
  {
    CallConverges(erp.document, body, mkId, ledger, dates, 2);
    CheckPassesIff(Updated(erp.document, Sent(body, mkId, ledger, dates, 2), 2), 2, erp.comma);
    outcome := ReplaceDocumentPayments(erp, mkId, body, ledger, requireClearable, dates);
  }

  /** Any ledgers one after the other, each call given the body the one before returned, in a currency of two
      decimals: every call succeeds, and the document always carries the ledger just sent and its first lines. */
  method SendLedgers(erp: Erp, mkId: string, first: Body, ledgers: seq<seq<Payment>>, requireClearable: bool,
                     dates: Dates) returns (body: Body, outcomes: seq<Outcome>)
    requires erp.decimals == 2 && Clearable(first)
    requires forall k :: 0 <= k < |ledgers| ==> GoodLedger(ledgers[k])
    modifies erp
    ensures |outcomes| == |ledgers| && forall k :: 0 <= k < |ledgers| ==> Succeeded(outcomes[k], ledgers[k])
    ensures ledgers != [] ==> Carries(erp.document, ledgers[|ledgers| - 1], first.lines)
    ensures Clearable(body) && body.lines == first.lines
  {
    body, outcomes := first, [];
    for k := 0 to |ledgers|
      invariant Clearable(body) && body.lines == first.lines && |outcomes| == k
      invariant forall j :: 0 <= j < k ==> Succeeded(outcomes[j], ledgers[j])
      invariant k > 0 ==> Carries(erp.document, ledgers[k - 1], first.lines)
    {
      var outcome := SendLedger(erp, mkId, body, ledgers[k], requireClearable, dates);
      body, outcomes := outcome.body, outcomes + [outcome];
    }
  }
}
