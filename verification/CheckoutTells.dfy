// What the checkout form tells the buyer: which text counts as which quantity, and which message
// answers which mistake.
module CheckoutTells {

  import opened Options
  import opened Checkout
  import FormFields

  // ---- quantities ----

  function DigitOf(c: char): int {
    c as int - '0' as int
  }

  // The decimal value of up to three characters.
  function ValueOf(raw: string): int {
    match |raw|
    case 1 => DigitOf(raw[0])
    case 2 => 10 * DigitOf(raw[0]) + DigitOf(raw[1])
    case 3 => 100 * DigitOf(raw[0]) + 10 * DigitOf(raw[1]) + DigitOf(raw[2])
    case _ => 0
  }

  lemma NumberPush(raw: string, d: char)
    requires AllDigits(raw + [d])
    ensures AllDigits(raw) && NumberOf(raw + [d]) == 10 * NumberOf(raw) + DigitOf(d)
  {
    assert (raw + [d])[..|raw|] == raw && (raw + [d])[|raw|] == d;
    assert forall i :: 0 <= i < |raw| ==> (raw + [d])[i] == raw[i];
  }

  lemma OneDigit(a: char)
    requires AllDigits([a])
    ensures NumberOf([a]) == DigitOf(a)
  {
    assert "" + [a] == [a];
    NumberPush("", a);
    assert NumberOf("") == 0;
    hide NumberOf;
  }

  lemma TwoDigits(a: char, b: char)
    requires AllDigits([a] + [b])
    ensures AllDigits([a]) && NumberOf([a] + [b]) == 10 * DigitOf(a) + DigitOf(b)
  {
    hide NumberOf;
    NumberPush([a], b);
    OneDigit(a);
  }

  lemma ThreeDigits(a: char, b: char, c: char)
    requires AllDigits([a] + [b] + [c])
    ensures NumberOf([a] + [b] + [c]) == 100 * DigitOf(a) + 10 * DigitOf(b) + DigitOf(c)
  {
    hide NumberOf;
    NumberPush([a] + [b], c);
    TwoDigits(a, b);
  }

  lemma NumberIs(raw: string)
    requires IsDigits(raw)
    ensures NumberOf(raw) == ValueOf(raw)
  {
    hide NumberOf, DigitOf;
    if |raw| == 1 {
      assert raw == [raw[0]];
      OneDigit(raw[0]);
    } else if |raw| == 2 {
      assert raw == [raw[0]] + [raw[1]];
      TwoDigits(raw[0], raw[1]);
    } else {
      assert raw == [raw[0]] + [raw[1]] + [raw[2]];
      ThreeDigits(raw[0], raw[1], raw[2]);
    }
  }

  lemma ValueZero(raw: string)
    requires IsDigits(raw)
    ensures ValueOf(raw) == 0 <==> forall i :: 0 <= i < |raw| ==> raw[i] == '0'
  {
    assert forall i :: 0 <= i < |raw| ==> DigitOf(raw[i]) >= 0 && (DigitOf(raw[i]) == 0 <==> raw[i] == '0');
    assert |raw| == 1 || |raw| == 2 || |raw| == 3;
  }

  // Up to three digits are a quantity of their decimal value, nothing when that is zero or there
  // are none; every other text is refused.
  lemma AskedTells(raw: string)
    ensures AskedFor(raw).Garbled? <==> |raw| > 3 || exists i :: 0 <= i < |raw| && !('0' <= raw[i] <= '9')
    ensures AskedFor(raw).Nothing? <==> |raw| <= 3 && forall i :: 0 <= i < |raw| ==> raw[i] == '0'
    ensures AskedFor(raw).Quantity? ==> AskedFor(raw).q == ValueOf(raw)
  {
    if IsDigits(raw) {
      NumberIs(raw);
      ValueZero(raw);
    }
    hide NumberOf, ValueOf;
  }

  // ---- the message of a line ----

  // The limits on a line that is on offer.
  predicate OnOffer(t: Ticket, paymentReady: bool, coupon: Option<Coupon>) {
    match coupon
    case Some(c) => c.ticketTypeId == t.id && c.remainingUses > 0
    case None => !t.couponOnly && (t.priceJpy <= 0 || paymentReady)
  }

  // Why a quantity of one type is refused: gone, for holders of another coupon, for holders of a
  // coupon, not on offer at all, or too many, named by the limit that is the cap.
  lemma MessageTells(t: Ticket, q: nat, paymentReady: bool, coupon: Option<Coupon>)
    requires q > 0
    ensures var gone, cap := t.soldOut || t.remaining == Some(0), QuantityCap(t, paymentReady, coupon);
            var p := LineProblem(t, q, cap, coupon);
            && (p == Some(IsSoldOut) <==> gone)
            && (p == Some(OtherCouponOnly) <==> !gone && coupon.Some? && coupon.value.ticketTypeId != t.id)
            && (p == Some(CouponRequired) <==> !gone && coupon.None? && t.couponOnly)
            && (p == Some(Unavailable) ==>
                  || !OnOffer(t, paymentReady, coupon) || t.maxPerOrder <= 0
                  || (t.remaining.Some? && t.remaining.value < 0))
            && (p == Some(OverCoupon(cap)) <==> 0 < cap < q && coupon.Some? && coupon.value.remainingUses == cap)
            && (p == Some(OverStock(cap)) <==>
                  && 0 < cap < q && t.remaining == Some(cap) && cap < t.maxPerOrder && cap < 20
                  && (coupon.Some? ==> coupon.value.remainingUses != cap))
            && (p.Some? && p.value.OverCap? ==> p.value.named == cap < q && (cap == t.maxPerOrder || cap == 20))
            && (p.None? <==> q <= cap)
  {
  }

  // ---- the other messages ----

  lemma {:induction false} NothingAsked(f: Form, n: nat)
    requires FormOk(f) && n <= |f.types|
    ensures Lines(f, n) == [] <==> forall i :: 0 <= i < n ==> !AskedAt(f, i).Quantity?
  {
    if n > 0 {
      NothingAsked(f, n - 1);
      hide AskedAt;
    }
  }

  // The cart is refused as empty exactly when nothing is asked for at all, and as too large above
  // twenty tickets.
  lemma CartTells(f: Form)
    requires FormOk(f)
    ensures CartProblem(f) == Some(NoTickets) <==> forall i :: 0 <= i < |f.types| ==> AskedAt(f, i).Nothing?
    ensures CartProblem(f).Some? && CartProblem(f) != Some(NoTickets) ==>
              CartProblem(f) == Some(TooMany(Total(Cart(f))))
    ensures CartProblem(f) == Some(TooMany(Total(Cart(f)))) <==> Total(Cart(f)) > 20
  {
    NothingAsked(f, |f.types|);
    LinesPositive(f, |f.types|);
    hide AskedFor, QuantityCap;
    assert (forall i :: 0 <= i < |f.types| ==> AskedAt(f, i).Nothing?) ==> NoneBad(f);
    if NoneBad(f) && Cart(f) == [] {
      forall i | 0 <= i < |f.types| ensures AskedAt(f, i).Nothing? {
        assert !BadAt(f, i);
      }
    }
  }

  // A name of 1 to 100 characters and an address user@domain.tld of up to 254.
  lemma BuyerTells(b: Buyer)
    ensures NameProblem(b) == Some(NameMissing) <==> |b.name| == 0
    ensures NameProblem(b) == Some(NameTooLong) <==> |b.name| > 100
    ensures NameProblem(b) == None <==> 1 <= |b.name| <= 100
    ensures EmailProblem(b) == Some(EmailMissing) <==> |b.email| == 0
    ensures EmailProblem(b) == None <==>
            |b.email| <= 254 && exists user, domain, tld :: FormFields.IsParts(b.email, user, domain, tld)
    ensures EmailProblem(b).Some? && |b.email| > 0 ==> EmailProblem(b) == Some(EmailInvalid)
  {
    FormFields.EmailShape(b.email);
    hide FormFields.IsEmail;
  }
}
