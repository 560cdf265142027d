/** Finding a partner before creating one (src/adapters/metakocka/partners.ts). */
module PartnerSearch {
  import opened Prelude
  import opened JsText

  datatype Address = Address(mkId: string, kind: string)

  datatype Partner = Partner(mkId: string, countCode: Option<string>, customer: Option<string>, addresses: seq<Address>)

  datatype Lookup = Lookup(customer: string, taxNumber: Option<string>, email: Option<string>)

  datatype Resolved = Resolved(mkId: string, mkAddressId: Option<string>, countCode: Option<string>, customer: string,
                               created: bool)

  datatype Query = ByTaxNumber(text: string) | ByEmail(text: string) | ByName(text: string)

  /** One get_partner call: "no partner with such properties", any other failure, or a list. */
  datatype Answer = NoMatch | Failed | Listed(partners: seq<Partner>)

  function Field(text: Option<string>): string {
    if text.Some? then Trim(text.value) else ""
  }

  /** The searches worth making, the strongest field first. */
  function Queries(lookup: Lookup): seq<Query> {
    (if Field(lookup.taxNumber) != "" then [ByTaxNumber(Field(lookup.taxNumber))] else [])
    + (if Field(lookup.email) != "" then [ByEmail(Field(lookup.email))] else [])
    + (if Trim(lookup.customer) != "" then [ByName(Trim(lookup.customer))] else [])
  }

  /** The billing address, or the first. */
  function BillingAddressOf(partner: Partner): Option<string> {
    FirstOfKind(partner.addresses, "Račun",
                if partner.addresses == [] then None else Some(partner.addresses[0].mkId))
  }

  function FirstOfKind(addresses: seq<Address>, kind: string, otherwise: Option<string>): Option<string> {
    if addresses == [] then otherwise
    else if addresses[0].kind == kind then Some(addresses[0].mkId)
    else FirstOfKind(addresses[1..], kind, otherwise)
  }

  function AsResolved(partner: Partner, lookup: Lookup): Resolved {
    Resolved(partner.mkId, BillingAddressOf(partner), partner.countCode,
        if partner.customer.Some? then partner.customer.value else lookup.customer, false)
  }

  /** A search that settles the lookup: it found somebody, or it failed. */
  predicate Decides(a: Answer) {
    a.Failed? || (a.Listed? && a.partners != [])
  }

  datatype Outcome = Threw | Found(partner: Option<Resolved>)

  /* The same from the lookup's own fields. */

  /** What the search for a field says, given the answers; a field without text is not searched for. */
  function TaxAnswer(lookup: Lookup, answers: Query -> Answer): Answer {
    if lookup.taxNumber.Some? && Trim(lookup.taxNumber.value) != ""
    then answers(ByTaxNumber(Trim(lookup.taxNumber.value))) else NoMatch
  }

  function EmailAnswer(lookup: Lookup, answers: Query -> Answer): Answer {
    if lookup.email.Some? && Trim(lookup.email.value) != "" then answers(ByEmail(Trim(lookup.email.value))) else NoMatch
  }

  function NameAnswer(lookup: Lookup, answers: Query -> Answer): Answer {
    if Trim(lookup.customer) != "" then answers(ByName(Trim(lookup.customer))) else NoMatch
  }

  /** What one answer settles: an error, the first partner listed, or nobody. */
  function Settled(a: Answer, lookup: Lookup): Outcome {
    match a
    case NoMatch => Found(None)
    case Failed => Threw
    case Listed(partners) => if partners == [] then Found(None) else Found(Some(AsResolved(partners[0], lookup)))
  }

  /** Somebody is found by the tax number if it decides, or else by the email, or else by the name. */
  function Resolution(lookup: Lookup, answers: Query -> Answer): Outcome {
    var tax, email, name := TaxAnswer(lookup, answers), EmailAnswer(lookup, answers), NameAnswer(lookup, answers);
    Settled(if Decides(tax) then tax else if Decides(email) then email else name, lookup)
  }

  /** A search is made for a field's text when there is some, and no stronger field has decided. */
  predicate Asks(lookup: Lookup, answers: Query -> Answer, q: Query) {
    match q
    case ByTaxNumber(text) => lookup.taxNumber.Some? && text == Trim(lookup.taxNumber.value) != ""
    case ByEmail(text) =>
      lookup.email.Some? && text == Trim(lookup.email.value) != "" && !Decides(TaxAnswer(lookup, answers))
    case ByName(text) =>
      && text == Trim(lookup.customer) != ""
      && !Decides(TaxAnswer(lookup, answers)) && !Decides(EmailAnswer(lookup, answers))
  }

  /** There is something to search by. */
  predicate Searchable(lookup: Lookup) {
    || (lookup.taxNumber.Some? && Trim(lookup.taxNumber.value) != "")
    || (lookup.email.Some? && Trim(lookup.email.value) != "")
    || Trim(lookup.customer) != ""
  }

  lemma SearchableIff(lookup: Lookup)
    ensures Queries(lookup) != [] <==> Searchable(lookup)
  {}

  /** Who is found is the first partner listed, under its own name or else the one asked for. */
  lemma SettledIsTheFirst(a: Answer, lookup: Lookup)
    ensures Settled(a, lookup).Threw? <==> a.Failed?
    ensures Settled(a, lookup) == Found(None) <==> a.NoMatch? || (a.Listed? && a.partners == [])
    ensures a.Listed? && a.partners != [] ==>
              var p, first := Settled(a, lookup).partner, a.partners[0];
              && p.Some? && p.value.mkId == first.mkId && p.value.countCode == first.countCode && !p.value.created
              && p.value.mkAddressId == BillingAddressOf(first)
              && p.value.customer == if first.customer.Some? then first.customer.value else lookup.customer
  {}

  /** The searches made, up to the one that decides, and what they come to, field by field. */
  lemma AskedByField(lookup: Lookup, answers: Query -> Answer, n: nat)
    requires n <= |Queries(lookup)| && forall i :: 0 <= i < n - 1 ==> !Decides(answers(Queries(lookup)[i]))
    requires n < |Queries(lookup)| ==> n > 0 && Decides(answers(Queries(lookup)[n - 1]))
    ensures forall q :: q in Queries(lookup)[..n] <==> Asks(lookup, answers, q)
    ensures Resolution(lookup, answers)
              == if n == 0 then Found(None) else Settled(answers(Queries(lookup)[n - 1]), lookup)
  {
    var all := Queries(lookup);
    var t := if Field(lookup.taxNumber) != "" then 1 else 0;
    var e := t + if Field(lookup.email) != "" then 1 else 0;
    var m := e + if Trim(lookup.customer) != "" then 1 else 0;
    assert |all| == m;
    assert t == 1 ==> all[0] == ByTaxNumber(Field(lookup.taxNumber));
    assert e > t ==> all[t] == ByEmail(Field(lookup.email));
    assert m > e ==> all[e] == ByName(Trim(lookup.customer));
    forall q ensures q in all[..n] <==> Asks(lookup, answers, q) {
      if Asks(lookup, answers, q) {
        var k := match q case ByTaxNumber(_) => 0 case ByEmail(_) => t case ByName(_) => e;
        assert all[k] == q;
        assert k < n;
      }
    }
  }

  /** The searches are made in order until one decides. */
  method FindPartner(lookup: Lookup, answers: Query -> Answer) returns (outcome: Outcome, asked: seq<Query>)
    ensures outcome == Resolution(lookup, answers)
    ensures forall q :: q in asked <==> Asks(lookup, answers, q)
    ensures asked <= Queries(lookup) && |asked| <= 3
    ensures forall i :: 0 <= i < |asked| - 1 ==> !Decides(answers(asked[i]))
    ensures if asked == [] then outcome == Found(None) else outcome == Settled(answers(asked[|asked| - 1]), lookup)
    ensures outcome == Found(None) ==> asked == Queries(lookup)
  {
    var queries: seq<Query> := [];
    if Field(lookup.taxNumber) != "" {
      queries := queries + [ByTaxNumber(Field(lookup.taxNumber))];
    }
    if Field(lookup.email) != "" {
      queries := queries + [ByEmail(Field(lookup.email))];
    }
    if Trim(lookup.customer) != "" {
      queries := queries + [ByName(Trim(lookup.customer))];
    }
    assert queries == Queries(lookup);
    var n;
    outcome, n := AskInOrder(queries, lookup, answers);
    AskedByField(lookup, answers, n);
    asked := queries[..n];
  }

  /** The loop over the searches. */
  method AskInOrder(queries: seq<Query>, lookup: Lookup, answers: Query -> Answer) returns (outcome: Outcome, n: nat)
    ensures n <= |queries| && forall i :: 0 <= i < n - 1 ==> !Decides(answers(queries[i]))
    ensures if n == 0 then queries == [] && outcome == Found(None)
            else outcome == Settled(answers(queries[n - 1]), lookup)
    ensures n < |queries| ==> n > 0 && Decides(answers(queries[n - 1]))
  {
    n := 0;
    while n < |queries|
      invariant n <= |queries| && forall i :: 0 <= i < n ==> !Decides(answers(queries[i]))
    {
      var response := answers(queries[n]);
      n := n + 1;
      match response {
        case NoMatch =>
        case Failed => return Threw, n;
        case Listed(partners) =>
          if partners != [] {
            return Found(Some(AsResolved(partners[0], lookup))), n;
          }
      }
    }
    outcome := Found(None);
  }

  /** The billing address is the first of its kind, or the first of all, or none when there is none at all. */
  lemma {:induction false} BillingAddressIs(partner: Partner, i: nat)
    requires i <= |partner.addresses|
    requires forall k :: 0 <= k < i ==> partner.addresses[k].kind != "Račun"
    requires i < |partner.addresses| ==> partner.addresses[i].kind == "Račun"
    ensures BillingAddressOf(partner) ==
            if i < |partner.addresses| then Some(partner.addresses[i].mkId)
            else if partner.addresses == [] then None
            else Some(partner.addresses[0].mkId)
  {
    FirstOfKindIs(partner.addresses, "Račun",
                  if partner.addresses == [] then None else Some(partner.addresses[0].mkId), i);
  }

  lemma {:induction false} FirstOfKindIs(addresses: seq<Address>, kind: string, otherwise: Option<string>, i: nat)
    requires i <= |addresses| && forall k :: 0 <= k < i ==> addresses[k].kind != kind
    requires i < |addresses| ==> addresses[i].kind == kind
    ensures FirstOfKind(addresses, kind, otherwise)
            == if i < |addresses| then Some(addresses[i].mkId) else otherwise
  {
    if i > 0 {
      FirstOfKindIs(addresses[1..], kind, otherwise, i - 1);
    }
  }
}
