// The ticket checkout form: quantity caps, the loop that fills the errors, the lines and the
// total, and the whole parse.
module Checkout {

  import opened Options
  import FormFields

  datatype TypeId = TypeId(text: string)

  const ORDER_MAX: int := 20
  const NAME_MAX: nat := 100
  const EMAIL_MAX: nat := 254

  datatype Ticket =
    Ticket(id: TypeId, priceJpy: int, maxPerOrder: int, remaining: Option<int>, soldOut: bool, couponOnly: bool)

  datatype Coupon = Coupon(ticketTypeId: TypeId, remainingUses: int)

  datatype Item = Item(ticketTypeId: TypeId, quantity: nat)

  datatype Problem =
    | NotANumber
    | IsSoldOut
    | OtherCouponOnly
    | CouponRequired
    | Unavailable
    | OverCoupon(named: int)
    | OverStock(named: int)
    | OverCap(named: int)
    | NoTickets
    | TooMany(total: nat)
    | NameMissing
    | NameTooLong
    | EmailMissing
    | EmailInvalid

  datatype Key = Qty(id: TypeId) | Items | Name | Email

  // Errors of custom fields are kept under their own ids.
  datatype Parsed =
    | Spam
    | Rejected(errors: map<Key, Problem>, fieldErrors: map<FormFields.FieldId, FormFields.FieldProblem>)
    | Accepted(items: seq<Item>, answers: map<FormFields.FieldId, string>)

  function Min(a: int, b: int): int {
    if a < b then a else b
  }

  function AtLeastZero(a: int): int {
    if a < 0 then 0 else a
  }

  predicate IsSelectable(t: Ticket, paymentReady: bool) {
    !t.soldOut && t.remaining != Some(0) && (t.priceJpy <= 0 || paymentReady)
  }

  function Stock(t: Ticket): int {
    if t.remaining.Some? then t.remaining.value else ORDER_MAX
  }

  function MaxQuantity(t: Ticket, paymentReady: bool): int {
    if !IsSelectable(t, paymentReady) then 0
    else
      var cap := if t.remaining.None? then t.maxPerOrder else Min(t.maxPerOrder, t.remaining.value);
      AtLeastZero(Min(cap, ORDER_MAX))
  }

  function QuantityCap(t: Ticket, paymentReady: bool, coupon: Option<Coupon>): int {
    match coupon
    case Some(c) =>
      if t.id != c.ticketTypeId || t.soldOut || t.remaining == Some(0) then 0
      else AtLeastZero(Min(Min(t.maxPerOrder, Stock(t)), Min(c.remainingUses, ORDER_MAX)))
    case None => if t.couponOnly then 0 else MaxQuantity(t, paymentReady)
  }

  // ---- what a submitted quantity says ----

  predicate AllDigits(raw: string) {
    forall i :: 0 <= i < |raw| ==> '0' <= raw[i] <= '9'
  }

  predicate IsDigits(raw: string) {
    1 <= |raw| <= 3 && AllDigits(raw)
  }

  function NumberOf(raw: string): nat
    requires AllDigits(raw)
  {
    if raw == "" then 0 else 10 * NumberOf(raw[..|raw| - 1]) + (raw[|raw| - 1] as int - '0' as int)
  }

  // A left-out field, zero under any spelling, a quantity, or text that is neither.
  datatype Asked = Nothing | Quantity(q: nat) | Garbled

  function AskedFor(raw: string): Asked {
    if raw == "" || raw == "0" then Nothing
    else if !IsDigits(raw) then Garbled
    else if NumberOf(raw) == 0 then Nothing
    else Quantity(NumberOf(raw))
  }

  datatype Form = Form(types: seq<Ticket>, raws: seq<string>, paymentReady: bool, coupon: Option<Coupon>)

  predicate FormOk(f: Form) {
    |f.types| == |f.raws|
  }

  function CapAt(f: Form, i: nat): int
    requires FormOk(f) && i < |f.types|
  {
    QuantityCap(f.types[i], f.paymentReady, f.coupon)
  }

  function AskedAt(f: Form, i: nat): Asked
    requires FormOk(f) && i < |f.types|
  {
    AskedFor(f.raws[i])
  }

  predicate BadAt(f: Form, i: nat)
    requires FormOk(f) && i < |f.types|
  {
    AskedAt(f, i).Garbled? || (AskedAt(f, i).Quantity? && AskedAt(f, i).q > CapAt(f, i))
  }

  // The lines and the total asked for among the first n types.
  function Lines(f: Form, n: nat): seq<Item>
    requires FormOk(f) && n <= |f.types|
  {
    if n == 0 then []
    else Lines(f, n - 1) + if AskedAt(f, n - 1).Quantity? then [Item(f.types[n - 1].id, AskedAt(f, n - 1).q)] else []
  }

  function Total(items: seq<Item>): nat {
    if items == [] then 0 else Total(items[..|items| - 1]) + items[|items| - 1].quantity
  }

  lemma TotalPush(items: seq<Item>, x: Item)
    ensures Total(items + [x]) == Total(items) + x.quantity
  {
    assert (items + [x])[..|items|] == items;
  }

  // ---- the parser ----

  predicate Distinct(types: seq<Ticket>) {
    forall i, j :: 0 <= i < j < |types| ==> types[i].id != types[j].id
  }

  ghost predicate ErrorsUpTo(f: Form, errors: map<Key, Problem>, n: nat)
    requires FormOk(f) && n <= |f.types|
  {
    && (forall k <- errors :: exists i :: 0 <= i < n && BadAt(f, i) && Qty(f.types[i].id) == k)
    && (forall i :: 0 <= i < n && BadAt(f, i) ==> Qty(f.types[i].id) in errors)
    && (Distinct(f.types) ==> forall i :: 0 <= i < n && BadAt(f, i) ==> errors[Qty(f.types[i].id)] == ProblemAt(f, i))
  }

  // Only a quantity over the cap reaches a problem, whichever branch names it.
  function LineProblem(t: Ticket, q: nat, cap: int, coupon: Option<Coupon>): Option<Problem> {
    var forCoupon := coupon.Some? && t.id == coupon.value.ticketTypeId;
    if t.soldOut || t.remaining == Some(0) then Some(IsSoldOut)
    else if cap == 0 && coupon.Some? && !forCoupon then Some(OtherCouponOnly)
    else if cap == 0 && t.couponOnly && coupon.None? then Some(CouponRequired)
    else if cap == 0 then Some(Unavailable)
    else if q <= cap then None
    else if forCoupon && coupon.value.remainingUses <= Min(Min(t.maxPerOrder, Stock(t)), ORDER_MAX) then
      Some(OverCoupon(coupon.value.remainingUses))
    else if t.remaining.Some? && t.remaining.value < Min(t.maxPerOrder, ORDER_MAX)
        then Some(OverStock(t.remaining.value))
    else Some(OverCap(cap))
  }

  function ProblemAt(f: Form, i: nat): Problem
    requires FormOk(f) && i < |f.types| && BadAt(f, i)
  {
    if AskedAt(f, i).Garbled? then NotANumber
    else
      var p := LineProblem(f.types[i], AskedAt(f, i).q, CapAt(f, i), f.coupon);
      if p.Some? then p.value else NoTickets
  }

  // Whichever of the three "too many" messages is chosen, the number it names is the cap.
  lemma MessageNamesCap(t: Ticket, q: nat, paymentReady: bool, coupon: Option<Coupon>)
    ensures var cap := QuantityCap(t, paymentReady, coupon);
            var p := LineProblem(t, q, cap, coupon);
            p.Some? && (p.value.OverCoupon? || p.value.OverStock? || p.value.OverCap?) ==>
              p.value.named == cap && 0 < cap < q
  {
  }

  lemma LineProblemIff(t: Ticket, q: nat, paymentReady: bool, coupon: Option<Coupon>)
    requires q > 0
    ensures LineProblem(t, q, QuantityCap(t, paymentReady, coupon), coupon).Some?
            <==> q > QuantityCap(t, paymentReady, coupon)
  {
  }

  lemma EmptyErrors(f: Form)
    requires FormOk(f)
    ensures ErrorsUpTo(f, map[], 0)
  {
  }

  lemma AddError(f: Form, errors: map<Key, Problem>, n: nat)
    requires FormOk(f) && n < |f.types| && ErrorsUpTo(f, errors, n) && BadAt(f, n)
    ensures ErrorsUpTo(f, errors[Qty(f.types[n].id) := ProblemAt(f, n)], n + 1)
  {
    hide BadAt, ProblemAt;
  }

  lemma NoError(f: Form, errors: map<Key, Problem>, n: nat)
    requires FormOk(f) && n < |f.types| && ErrorsUpTo(f, errors, n) && !BadAt(f, n)
    ensures ErrorsUpTo(f, errors, n + 1)
  {
    hide BadAt, ProblemAt;
  }

  // The loop over the ticket types.
  method ReadQuantities(f: Form) returns (errors: map<Key, Problem>, items: seq<Item>, total: nat)
    requires FormOk(f)
    ensures items == Lines(f, |f.types|) && total == Total(items)
    ensures ErrorsUpTo(f, errors, |f.types|)
  {
    hide ErrorsUpTo;
    EmptyErrors(f);
    errors, items, total := map[], [], 0;
    for n := 0 to |f.types|
      invariant items == Lines(f, n) && total == Total(items)
      invariant ErrorsUpTo(f, errors, n)
    {
      var t, raw := f.types[n], f.raws[n];
      if raw == "" || raw == "0" {
        NoError(f, errors, n);
        continue;
      }
      if !IsDigits(raw) {
        AddError(f, errors, n);
        errors := errors[Qty(t.id) := NotANumber];
        continue;
      }
      var q := NumberOf(raw);
      if q == 0 {
        NoError(f, errors, n);
        continue;
      }
      var problem := LineProblem(t, q, QuantityCap(t, f.paymentReady, f.coupon), f.coupon);
      LineProblemIff(t, q, f.paymentReady, f.coupon);
      if problem.None? {
        NoError(f, errors, n);
      } else {
        AddError(f, errors, n);
        errors := errors[Qty(t.id) := problem.value];
      }
      TotalPush(items, Item(t.id, q));
      items := items + [Item(t.id, q)];
      total := total + q;
    }
  }

  // The buyer's part of the form, trimmed; `values` are the answers to the custom fields.
  datatype Buyer = Buyer(name: string, email: string, fields: seq<FormFields.Field>, values: seq<string>)

  predicate BuyerOk(b: Buyer) {
    |b.fields| == |b.values|
  }

  function NameProblem(b: Buyer): Option<Problem> {
    if b.name == "" then Some(NameMissing) else if |b.name| > NAME_MAX then Some(NameTooLong) else None
  }

  function EmailProblem(b: Buyer): Option<Problem> {
    if b.email == "" then Some(EmailMissing)
    else if |b.email| > EMAIL_MAX || !FormFields.IsEmail(b.email) then Some(EmailInvalid)
    else None
  }

  predicate NoFieldBad(b: Buyer)
    requires BuyerOk(b)
  {
    forall i :: 0 <= i < |b.fields| ==> !FormFields.FieldBad(b.fields, b.values, i)
  }

  predicate NoneBad(f: Form)
    requires FormOk(f)
  {
    forall i :: 0 <= i < |f.types| ==> !BadAt(f, i)
  }

  function Cart(f: Form): seq<Item>
    requires FormOk(f)
  {
    Lines(f, |f.types|)
  }

  predicate CartAccepted(f: Form)
    requires FormOk(f)
  {
    NoneBad(f) && 1 <= Total(Cart(f)) <= ORDER_MAX
  }

  // The cart-level message, when there is one.
  function CartProblem(f: Form): Option<Problem>
    requires FormOk(f)
  {
    if Cart(f) == [] && NoneBad(f) then Some(NoTickets)
    else if Total(Cart(f)) > ORDER_MAX then Some(TooMany(Total(Cart(f))))
    else None
  }

  function At(errors: map<Key, Problem>, k: Key): Option<Problem> {
    if k in errors then Some(errors[k]) else None
  }

  // Which messages a rejected form carries.
  ghost predicate Explains(f: Form, b: Buyer, errors: map<Key, Problem>)
    requires FormOk(f)
  {
    && At(errors, Items) == CartProblem(f) && At(errors, Name) == NameProblem(b) && At(errors, Email) == EmailProblem(b)
    && (forall id :: Qty(id) in errors <==> exists i :: 0 <= i < |f.types| && f.types[i].id == id && BadAt(f, i))
    && (Distinct(f.types) ==>
          forall i :: 0 <= i < |f.types| && BadAt(f, i) ==> errors[Qty(f.types[i].id)] == ProblemAt(f, i))
  }

  method AddCartError(f: Form, errors0: map<Key, Problem>, items: seq<Item>, total: nat)
      returns (errors: map<Key, Problem>)
    requires FormOk(f) && ErrorsUpTo(f, errors0, |f.types|) && items == Cart(f) && total == Total(items)
    ensures errors == if CartProblem(f).Some? then errors0[Items := CartProblem(f).value] else errors0
  {
    errors := errors0;
    QuantityErrorsIff(f, errors0);
    if items == [] && errors0 == map[] {
      errors := errors[Items := NoTickets];
    } else if total > ORDER_MAX {
      errors := errors[Items := TooMany(total)];
    }
  }

  lemma QuantityErrorsIff(f: Form, errors: map<Key, Problem>)
    requires FormOk(f) && ErrorsUpTo(f, errors, |f.types|)
    ensures errors == map[] <==> NoneBad(f)
  {
    if errors != map[] {
      var k :| k in errors;
    }
  }

  method AddBuyerErrors(b: Buyer, errors0: map<Key, Problem>) returns (errors: map<Key, Problem>)
    ensures errors == (var e := if NameProblem(b).Some? then errors0[Name := NameProblem(b).value] else errors0;
                       if EmailProblem(b).Some? then e[Email := EmailProblem(b).value] else e)
  {
    errors := errors0;
    if b.name == "" {
      errors := errors[Name := NameMissing];
    } else if |b.name| > NAME_MAX {
      errors := errors[Name := NameTooLong];
    }
    if b.email == "" {
      errors := errors[Email := EmailMissing];
    } else if |b.email| > EMAIL_MAX || !FormFields.IsEmail(b.email) {
      errors := errors[Email := EmailInvalid];
    }
  }

  // `honeypot`: the hidden field was filled.
  method ParseCheckoutForm(f: Form, b: Buyer, honeypot: bool) returns (p: Parsed)
    requires FormOk(f) && BuyerOk(b)
    ensures p.Spam? <==> honeypot
    ensures p.Accepted? <==>
              !honeypot && CartAccepted(f) && NameProblem(b).None? && EmailProblem(b).None? && NoFieldBad(b)
    ensures p.Accepted? ==>
              p.items == Cart(f) && FormFields.CheckedUpTo(b.fields, b.values, map[], p.answers, |b.fields|)
    ensures p.Rejected? ==>
              Explains(f, b, p.errors)
                  && exists answers :: FormFields.CheckedUpTo(b.fields, b.values, p.fieldErrors, answers, |b.fields|)
  {
    if honeypot {
      return Spam;
    }
    var errors0, items, total := ReadQuantities(f);
    var errors1 := AddCartError(f, errors0, items, total);
    var errors := AddBuyerErrors(b, errors1);
    var fieldErrors, answers := FormFields.CheckFields(b.fields, b.values);
    OnlyQuantities(f, errors0);
    ErrorsExplain(f, b, errors0, errors);
    FieldErrorsIff(b, fieldErrors, answers);
    hide CartProblem, NameProblem, EmailProblem, Explains, ErrorsUpTo, CartAccepted, NoFieldBad, FormFields.CheckedUpTo;
    if errors != map[] || fieldErrors != map[] {
      return Rejected(errors, fieldErrors);
    }
    return Accepted(items, answers);
  }

  lemma FieldErrorsIff(b: Buyer, fieldErrors: map<FormFields.FieldId, FormFields.FieldProblem>,
                       answers: map<FormFields.FieldId, string>)
    requires BuyerOk(b) && FormFields.CheckedUpTo(b.fields, b.values, fieldErrors, answers, |b.fields|)
    ensures fieldErrors == map[] <==> NoFieldBad(b)
  {
    if fieldErrors != map[] {
      var id :| id in fieldErrors;
    }
    hide FormFields.FieldBad, FormFields.ProblemOf, FormFields.Normal;
  }

  function WithErrors(errors0: map<Key, Problem>, c: Option<Problem>, n: Option<Problem>,
                      e: Option<Problem>): (errors: map<Key, Problem>)
    requires Items !in errors0 && Name !in errors0 && Email !in errors0
    ensures At(errors, Items) == c && At(errors, Name) == n && At(errors, Email) == e
    ensures forall id :: At(errors, Qty(id)) == At(errors0, Qty(id))
    ensures errors == map[] <==> errors0 == map[] && c.None? && n.None? && e.None?
  {
    var e1 := if c.Some? then errors0[Items := c.value] else errors0;
    var e2 := if n.Some? then e1[Name := n.value] else e1;
    var e3 := if e.Some? then e2[Email := e.value] else e2;
    assert (c.Some? ==> Items in e3) && (n.Some? ==> Name in e3) && (e.Some? ==> Email in e3);
    assert forall k <- errors0 :: k in e3;
    e3
  }

  lemma ErrorsExplain(f: Form, b: Buyer, errors0: map<Key, Problem>, errors: map<Key, Problem>)
    requires FormOk(f) && ErrorsUpTo(f, errors0, |f.types|)
    requires Items !in errors0 && Name !in errors0 && Email !in errors0
    requires errors == WithErrors(errors0, CartProblem(f), NameProblem(b), EmailProblem(b))
    ensures Explains(f, b, errors)
    ensures errors == map[] <==> CartAccepted(f) && NameProblem(b).None? && EmailProblem(b).None?
  {
    QuantityErrorsIff(f, errors0);
    CartAcceptedIff(f);
    hide CartProblem, NameProblem, EmailProblem, CartAccepted, BadAt, ProblemAt, WithErrors, NoneBad, ErrorsUpTo;
    QuantityMessages(f, errors0, errors);
  }

  lemma QuantityMessages(f: Form, errors0: map<Key, Problem>, errors: map<Key, Problem>)
    requires FormOk(f) && ErrorsUpTo(f, errors0, |f.types|)
    requires forall id :: At(errors, Qty(id)) == At(errors0, Qty(id))
    ensures forall id :: Qty(id) in errors <==> exists i :: 0 <= i < |f.types| && f.types[i].id == id && BadAt(f, i)
    ensures Distinct(f.types) ==>
              forall i :: 0 <= i < |f.types| && BadAt(f, i) ==> errors[Qty(f.types[i].id)] == ProblemAt(f, i)
  {
    hide BadAt, ProblemAt;
    forall i | 0 <= i < |f.types| && BadAt(f, i)
      ensures Qty(f.types[i].id) in errors && errors[Qty(f.types[i].id)] == errors0[Qty(f.types[i].id)]
    {
      assert At(errors, Qty(f.types[i].id)) == At(errors0, Qty(f.types[i].id));
    }
    forall id | Qty(id) in errors ensures exists i :: 0 <= i < |f.types| && f.types[i].id == id && BadAt(f, i) {
      assert At(errors, Qty(id)) == At(errors0, Qty(id));
    }
  }

  lemma CartAcceptedIff(f: Form)
    requires FormOk(f)
    ensures CartAccepted(f) <==> NoneBad(f) && CartProblem(f).None?
  {
    LinesPositive(f, |f.types|);
    hide NoneBad;
  }

  lemma OnlyQuantities(f: Form, errors: map<Key, Problem>)
    requires FormOk(f) && ErrorsUpTo(f, errors, |f.types|)
    ensures Items !in errors && Name !in errors && Email !in errors
  {
  }

  lemma {:induction false} LinesPositive(f: Form, n: nat)
    requires FormOk(f) && n <= |f.types|
    ensures Lines(f, n) == [] <==> Total(Lines(f, n)) == 0
  {
    if n > 0 {
      LinesPositive(f, n - 1);
      if AskedAt(f, n - 1).Quantity? {
        TotalPush(Lines(f, n - 1), Item(f.types[n - 1].id, AskedAt(f, n - 1).q));
      } else {
        assert Lines(f, n) == Lines(f, n - 1);
      }
    }
  }

  // ---- what acceptance promises ----

  // A cap never exceeds the stock, the per-order limit or the order limit, and is zero for what
  // the page does not offer.
  lemma CapBounds(t: Ticket, paymentReady: bool, coupon: Option<Coupon>, q: nat)
    requires 0 < q <= QuantityCap(t, paymentReady, coupon)
    ensures q <= t.maxPerOrder && q <= ORDER_MAX && (t.remaining.Some? ==> q <= t.remaining.value) && !t.soldOut
    ensures coupon.Some? ==> t.id == coupon.value.ticketTypeId && q <= coupon.value.remainingUses
    ensures coupon.None? ==> !t.couponOnly && (t.priceJpy <= 0 || paymentReady)
  {
  }

  // The cap is the largest such quantity: nothing allowed is refused.
  lemma CapIsTight(t: Ticket, paymentReady: bool, coupon: Option<Coupon>, q: nat)
    requires 0 < q <= t.maxPerOrder && q <= ORDER_MAX && (t.remaining.Some? ==> q <= t.remaining.value) && !t.soldOut
    requires coupon.Some? ==> t.id == coupon.value.ticketTypeId && q <= coupon.value.remainingUses
    requires coupon.None? ==> !t.couponOnly && (t.priceJpy <= 0 || paymentReady)
    ensures q <= QuantityCap(t, paymentReady, coupon)
  {
  }

  lemma {:induction false} LineOrigin(f: Form, n: nat, k: nat) returns (i: nat)
    requires FormOk(f) && n <= |f.types| && k < |Lines(f, n)|
    ensures i < n && AskedAt(f, i).Quantity? && Lines(f, n)[k] == Item(f.types[i].id, AskedAt(f, i).q)
  {
    var rest := Lines(f, n - 1);
    if k < |rest| {
      i := LineOrigin(f, n - 1, k);
    } else {
      i := n - 1;
    }
  }

  lemma CouponType(f: Form, i: nat)
    requires FormOk(f) && i < |f.types| && f.coupon.Some? && AskedAt(f, i).Quantity? && !BadAt(f, i)
    ensures f.types[i].id == f.coupon.value.ticketTypeId
  {
    CapBounds(f.types[i], f.paymentReady, f.coupon, AskedAt(f, i).q);
  }

  // With a coupon at most the coupon's own line exists.
  lemma {:induction false} CouponLines(f: Form, n: nat)
    requires FormOk(f) && n <= |f.types| && Distinct(f.types) && f.coupon.Some? && NoneBad(f)
    ensures |Lines(f, n)| <= 1
    ensures Lines(f, n) != [] ==> exists i :: 0 <= i < n && f.types[i].id == f.coupon.value.ticketTypeId
  {
    hide BadAt, AskedAt;
    if n > 0 {
      CouponLines(f, n - 1);
      if AskedAt(f, n - 1).Quantity? {
        assert !BadAt(f, n - 1);
        CouponType(f, n - 1);
      }
    }
  }

  ghost predicate CartOk(f: Form, items: seq<Item>)
  {
    && items != [] && Total(items) <= ORDER_MAX
    && (forall k :: 0 <= k < |items| ==> exists i :: 0 <= i < |f.types| && LineOk(f, f.types[i], items[k]))
    && (f.coupon.Some? ==> |items| == 1)
  }

  predicate LineOk(f: Form, t: Ticket, x: Item) {
    && x.ticketTypeId == t.id && 1 <= x.quantity <= t.maxPerOrder
    && (t.remaining.Some? ==> x.quantity <= t.remaining.value) && !t.soldOut
    && (match f.coupon
        case Some(c) => t.id == c.ticketTypeId && x.quantity <= c.remainingUses
        case None => !t.couponOnly && (t.priceJpy <= 0 || f.paymentReady))
  }

  // Whatever is accepted is a sellable cart.
  lemma AcceptedCart(f: Form)
    requires FormOk(f) && Distinct(f.types) && CartAccepted(f)
    ensures CartOk(f, Cart(f))
  {
    var items := Cart(f);
    LinesPositive(f, |f.types|);
    forall k | 0 <= k < |items| ensures exists i :: 0 <= i < |f.types| && LineOk(f, f.types[i], items[k]) {
      var i := LineOrigin(f, |f.types|, k);
      assert !BadAt(f, i);
      CapBounds(f.types[i], f.paymentReady, f.coupon, AskedAt(f, i).q);
      assert LineOk(f, f.types[i], items[k]);
    }
    if f.coupon.Some? {
      CouponLines(f, |f.types|);
    }
  }

  // And a sellable quantity raises no error on its own type.
  lemma SellableRaisesNone(f: Form, i: nat)
    requires FormOk(f) && i < |f.types| && AskedAt(f, i).Quantity? && AskedAt(f, i).q <= ORDER_MAX
    ensures BadAt(f, i) <==> !LineOk(f, f.types[i], Item(f.types[i].id, AskedAt(f, i).q))
  {
    var t, q := f.types[i], AskedAt(f, i).q;
    if q <= CapAt(f, i) {
      CapBounds(t, f.paymentReady, f.coupon, q);
    } else if LineOk(f, t, Item(t.id, q)) {
      CapIsTight(t, f.paymentReady, f.coupon, q);
    }
  }
}
