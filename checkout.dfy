/** The checkout page's logic: cart pricing, coupon acceptance, validation of the customer
    form, the stock re-check before an order is sent, and what a successful order does to
    the store. */
module Checkout {
  import opened Wrappers
  import opened Seqs
  import opened Strings
  import opened Catalog
  import opened AppContext

  // ---------------------------------------------------------------------------------------
  // Pricing

  /** Orders whose subtotal reaches this amount ship free. */
  const FreeShippingThreshold: real := 75.0
  /** The flat shipping fee below the threshold. */
  const ShippingFee: real := 5.99

  function LineTotal(line: LineItem): real {
    line.price * line.quantity as real
  }

  /** `cart.reduce((total, item) => total + item.price * item.quantity, 0)`. */
  function Subtotal(cart: seq<LineItem>): real {
    if cart == [] then 0.0 else LineTotal(cart[0]) + Subtotal(cart[1..])
  }

  lemma {:induction false} SubtotalAppend(a: seq<LineItem>, b: seq<LineItem>)
    ensures Subtotal(a + b) == Subtotal(a) + Subtotal(b)
  {
    if a == [] {
      assert a + b == b;
    } else {
      assert (a + b)[1..] == a[1..] + b;
      SubtotalAppend(a[1..], b);
    }
  }

  predicate NonNegativeLines(cart: seq<LineItem>) {
    forall i :: 0 <= i < |cart| ==> cart[i].price >= 0.0 && cart[i].quantity >= 0
  }

  /** With non-negative prices and quantities the subtotal is non-negative; the empty cart's
      is 0. */
  lemma {:induction false} SubtotalNonNegative(cart: seq<LineItem>)
    requires NonNegativeLines(cart)
    ensures Subtotal(cart) >= 0.0
    ensures cart == [] ==> Subtotal(cart) == 0.0
  {
    if cart != [] {
      SubtotalNonNegative(cart[1..]);
    }
  }

  /** Shipping is free exactly from the threshold up, and otherwise the flat fee. */
  function ShippingCost(subtotal: real): (r: real)
    ensures r == 0.0 <==> subtotal >= FreeShippingThreshold
    ensures r != 0.0 ==> r == ShippingFee
  {
    if subtotal >= FreeShippingThreshold then 0.0 else ShippingFee
  }

  /** The coupon's reduction: nothing without a coupon, the stated share of the subtotal for a
      percentage coupon, and the coupon's amount unchanged, however large, otherwise. */
  function DiscountAmount(subtotal: real, discount: Option<Coupon>): (r: real)
    ensures discount.None? ==> r == 0.0
    ensures discount.Some? && discount.value.kind == Fixed ==> r == discount.value.discount
    ensures (discount.Some? && discount.value.kind == Percentage &&
             0.0 <= discount.value.discount <= 100.0 && subtotal >= 0.0) ==> 0.0 <= r <= subtotal
  {
    match discount
    case None => 0.0
    case Some(c) =>
      if c.kind == Percentage then
        assert subtotal >= 0.0 && 0.0 <= c.discount <= 100.0 ==> subtotal * c.discount <= subtotal * 100.0 by {
          if subtotal >= 0.0 && c.discount <= 100.0 {
            MultiplyMonotone(subtotal, c.discount, 100.0);
          }
        }
        subtotal * c.discount / 100.0
      else c.discount
  }

  lemma MultiplyMonotone(x: real, a: real, b: real)
    requires x >= 0.0 && a <= b
    ensures x * a <= x * b
  {
    assert x * b - x * a == x * (b - a);
  }

  /** `getTotal`: subtotal minus discount plus shipping, with no lower bound. */
  function Total(cart: seq<LineItem>, discount: Option<Coupon>): real {
    var s := Subtotal(cart);
    s - DiscountAmount(s, discount) + ShippingCost(s)
  }

  /** Without a coupon the total is the subtotal plus shipping. */
  lemma TotalWithoutCoupon(cart: seq<LineItem>)
    ensures Total(cart, None) == Subtotal(cart) + ShippingCost(Subtotal(cart))
  {
  }

  /** A percentage coupon of at most 100% never takes the total below the shipping cost. */
  lemma PercentageTotalAtLeastShipping(cart: seq<LineItem>, c: Coupon)
    requires NonNegativeLines(cart)
    requires c.kind == Percentage && 0.0 <= c.discount <= 100.0
    ensures Total(cart, Some(c)) >= ShippingCost(Subtotal(cart)) >= 0.0
  {
    SubtotalNonNegative(cart);
  }

  /** As written, any fixed coupon worth more than subtotal plus shipping makes the total
      negative. */
  lemma FixedCouponOverdraws(cart: seq<LineItem>, c: Coupon)
    requires c.kind == Fixed && c.discount > Subtotal(cart) + ShippingCost(Subtotal(cart))
    ensures Total(cart, Some(c)) < 0.0
  {
  }

  /** ... and such a coupon is accepted: a 10.00 print with a 50.00 coupon that has no minimum
      comes to -34.01. */
  lemma FixedCouponCanMakeTotalNegative(cart: seq<LineItem>, c: Coupon, code: string, now: int)
    requires cart == [LineItem(1, "Stampa", 10.0, "stampa.jpg", 1, 3)]
    requires code == "SCONTO50" && now == 50
    requires c == Coupon(code, Fixed, 50.0, 0.0, 0, 100)
    ensures CheckCoupon(code, [c], now, Subtotal(cart)) == Accepted(c)
    ensures Total(cart, Some(c)) == -34.01
  {
    assert Subtotal(cart) == 10.0 by {
      assert cart[1..] == [];
    }
    assert Upper(code) == code by {
      UpperOfUpper(code);
    }
    assert !Blank(code) by {
      assert !IsSpace(code[0]);
    }
    assert Find([c], CodeIs(code)) == Some(c) by {
      assert CodeIs(code)(c);
    }
  }

  lemma UpperOfUpper(s: string)
    requires forall i :: 0 <= i < |s| ==> !IsLower(s[i])
    ensures Upper(s) == s
  {
  }

  /** The discount capped at the subtotal, which is what the fixed-amount branch evidently
      intends. */
  function CappedDiscountAmount(subtotal: real, discount: Option<Coupon>): real {
    var d := DiscountAmount(subtotal, discount);
    if d > subtotal then subtotal else d
  }

  function CappedTotal(cart: seq<LineItem>, discount: Option<Coupon>): real {
    var s := Subtotal(cart);
    s - CappedDiscountAmount(s, discount) + ShippingCost(s)
  }

  /** With the cap the total is never below the shipping cost, so never negative, whatever
      the cart and whatever the coupon. */
  lemma CappedTotalNonNegative(cart: seq<LineItem>, discount: Option<Coupon>)
    ensures CappedTotal(cart, discount) >= ShippingCost(Subtotal(cart)) >= 0.0
  {
    var s := Subtotal(cart);
    assert CappedDiscountAmount(s, discount) <= s;
  }

  /** The capped total equals the written one whenever the discount does not exceed the
      subtotal, so the cap only changes the cases that go wrong. */
  lemma CappedTotalAgrees(cart: seq<LineItem>, discount: Option<Coupon>)
    requires DiscountAmount(Subtotal(cart), discount) <= Subtotal(cart)
    ensures CappedTotal(cart, discount) == Total(cart, discount)
  {
  }

  // ---------------------------------------------------------------------------------------
  // Coupons

  function CodeIs(code: string): Coupon -> bool { (c: Coupon) => c.code == code }

  /** Where the `applyCoupon` chain stops. */
  datatype CouponOutcome =
    | Ignored                        // blank input: nothing happens
    | UnknownCode                    // 'Codice sconto non valido'
    | Expired                        // 'Codice sconto scaduto'
    | BelowMinimum(minAmount: real)  // 'Importo minimo … per questo codice'
    | Accepted(coupon: Coupon)

  /** The checks of `applyCoupon`, in their order: blank input, lookup of the upper-cased (not
      trimmed) code, the validity window with both ends included, the minimum subtotal. */
  function CheckCoupon(code: string, coupons: seq<Coupon>, now: int, subtotal: real): CouponOutcome {
    if Blank(code) then Ignored
    else
      match Find(coupons, CodeIs(Upper(code)))
      case None => UnknownCode
      case Some(c) => Judge(c, now, subtotal)
  }

  /** The checks that follow a successful lookup: the window, then the minimum. */
  function Judge(c: Coupon, now: int, subtotal: real): CouponOutcome {
    if now < c.validFrom || now > c.validTo then Expired
    else if subtotal < c.minAmount then BelowMinimum(c.minAmount)
    else Accepted(c)
  }

  /** A blank code is ignored, and only a blank one. */
  lemma CouponIgnoredIff(code: string, coupons: seq<Coupon>, now: int, subtotal: real)
    ensures CheckCoupon(code, coupons, now, subtotal) == Ignored <==> Trim(code) == []
  {
    IgnoredOnlyWhenBlank(code, coupons, now, subtotal);
    TrimmedEmptyIffBlank(code);
  }

  lemma IgnoredOnlyWhenBlank(code: string, coupons: seq<Coupon>, now: int, subtotal: real)
    ensures CheckCoupon(code, coupons, now, subtotal) == Ignored <==> Blank(code)
  {
    if !Blank(code) {
      var f := Find(coupons, CodeIs(Upper(code)));
      assert CheckCoupon(code, coupons, now, subtotal) ==
        if f.None? then UnknownCode else Judge(f.value, now, subtotal);
    }
  }

  /** A non-blank code is reported unknown exactly when no coupon has the upper-cased code. */
  lemma CouponUnknownIff(code: string, coupons: seq<Coupon>, now: int, subtotal: real)
    requires !Blank(code)
    ensures CheckCoupon(code, coupons, now, subtotal) == UnknownCode <==>
              forall i :: 0 <= i < |coupons| ==> coupons[i].code != Upper(code)
  {
    var f := Find(coupons, CodeIs(Upper(code)));
    if f.None? {
      forall i | 0 <= i < |coupons| ensures coupons[i].code != Upper(code) {
        assert !CodeIs(Upper(code))(coupons[i]);
      }
    }
  }

  /** The first coupon carrying the code decides the rest of the chain: outside its window the
      code is expired whatever the amount; inside it, a subtotal below its minimum is refused;
      otherwise that coupon is accepted. Both ends of the window are inside. */
  lemma CouponDecidedByFirstMatch(code: string, coupons: seq<Coupon>, now: int, subtotal: real, i: int)
    requires !Blank(code)
    requires 0 <= i < |coupons| && coupons[i].code == Upper(code)
    requires forall j :: 0 <= j < i ==> coupons[j].code != Upper(code)
    ensures var r := CheckCoupon(code, coupons, now, subtotal);
      var c := coupons[i];
      && (r == Expired <==> now < c.validFrom || now > c.validTo)
      && (r == BelowMinimum(c.minAmount) <==> c.validFrom <= now <= c.validTo && subtotal < c.minAmount)
      && (r == Accepted(c) <==> c.validFrom <= now <= c.validTo && c.minAmount <= subtotal)
  {
    FirstMatchIsFound(code, coupons, i);
    assert CheckCoupon(code, coupons, now, subtotal) == Judge(coupons[i], now, subtotal);
  }

  lemma FirstMatchIsFound(code: string, coupons: seq<Coupon>, i: int)
    requires 0 <= i < |coupons| && coupons[i].code == Upper(code)
    requires forall j :: 0 <= j < i ==> coupons[j].code != Upper(code)
    ensures Find(coupons, CodeIs(Upper(code))) == Some(coupons[i])
  {
    var p := CodeIs(Upper(code));
    var f := Find(coupons, p);
    assert p(coupons[i]);
    var k :| 0 <= k < |coupons| && coupons[k] == f.value && p(coupons[k]) &&
             forall j :: 0 <= j < k ==> !p(coupons[j]);
    assert coupons[k].code == Upper(code);
    assert k == i;
  }

  /** An accepted coupon comes from the list, carries the upper-cased code, is valid at
      `now` and has its minimum met. */
  lemma CouponAcceptedSound(code: string, coupons: seq<Coupon>, now: int, subtotal: real)
    requires CheckCoupon(code, coupons, now, subtotal).Accepted?
    ensures var c := CheckCoupon(code, coupons, now, subtotal).coupon;
      c in coupons && c.code == Upper(code) && c.validFrom <= now <= c.validTo && c.minAmount <= subtotal
  {
  }

  /** The code is matched as typed, only upper-cased: surrounding blanks are not trimmed, so
      " SCONTO10" is unknown even when "SCONTO10" exists. */
  lemma CodeNotTrimmed(code: string, c: Coupon, now: int, subtotal: real)
    requires code == " SCONTO10" && c.code == "SCONTO10"
    ensures CheckCoupon(code, [c], now, subtotal) == UnknownCode
  {
    assert !Blank(code) by {
      assert !IsSpace(code[1]);
    }
    assert Upper(code)[0] == ' ';
    assert !CodeIs(Upper(code))(c);
  }

  /** The coupon box: the text typed and the message shown under it. */
  datatype CouponBox = CouponBox(code: string, error: Option<CouponOutcome>)

  datatype Applied = Applied(state: State, box: CouponBox)

  /** `applyCoupon`: a blank code changes nothing; otherwise the message is cleared and the
      chain runs; only acceptance dispatches SET_DISCOUNT and empties the box. */
  function ApplyCoupon(st: State, box: CouponBox, coupons: seq<Coupon>, now: int): Applied {
    match CheckCoupon(box.code, coupons, now, Subtotal(st.cart))
    case Ignored => Applied(st, box)
    case Accepted(c) => Applied(Reduce(st, SetDiscount(Some(c))), CouponBox("", None))
    case failure => Applied(st, box.(error := Some(failure)))
  }

  /** Applying a coupon touches nothing in the store but the discount, sets it only on
      acceptance, and then to a coupon whose code is the upper-cased input, whose window
      contains `now` and whose minimum the cart meets. A blank code changes nothing; an
      accepted coupon is stored as the discount and the box is emptied; any refusal leaves the
      store alone, keeps the typed code and shows the refusal. */
  lemma ApplyCouponEffect(st: State, box: CouponBox, coupons: seq<Coupon>, now: int)
    ensures var a := ApplyCoupon(st, box, coupons, now);
      var r := CheckCoupon(box.code, coupons, now, Subtotal(st.cart));
      && (r.Ignored? ==> a.state == st && a.box == box)
      && (r.Accepted? ==> a.state == Reduce(st, SetDiscount(Some(r.coupon))) && a.box == CouponBox("", None))
      && (!r.Accepted? && !r.Ignored? ==> a.state == st && a.box == box.(error := Some(r)))
    ensures var a := ApplyCoupon(st, box, coupons, now);
      && AgreeExcept(st, a.state, Some(DiscountField))
      && (a.state.discount != st.discount ==> a.box == CouponBox("", None))
      && (a.box.error.Some? ==> a.state == st)
      && (a.state.discount != st.discount ==>
            && a.state.discount.Some?
            && a.state.discount.value in coupons
            && a.state.discount.value.code == Upper(box.code)
            && a.state.discount.value.validFrom <= now <= a.state.discount.value.validTo
            && a.state.discount.value.minAmount <= Subtotal(st.cart))
  {
    var r := CheckCoupon(box.code, coupons, now, Subtotal(st.cart));
    if r.Accepted? {
      CouponAcceptedSound(box.code, coupons, now, Subtotal(st.cart));
    }
  }

  /** `removeCoupon`: the discount is cleared and the total falls back to subtotal plus
      shipping. */
  lemma RemoveCouponRestoresTotal(st: State)
    ensures var next := Reduce(st, SetDiscount(None));
      next.discount == None && next.cart == st.cart &&
      Total(next.cart, next.discount) == Subtotal(st.cart) + ShippingCost(Subtotal(st.cart))
  {
  }

  // ---------------------------------------------------------------------------------------
  // The customer form

  datatype Form = Form(
    firstName: string, lastName: string, email: string, phone: string,
    address: string, city: string, postalCode: string, country: string,
    shippingAddress: string, shippingCity: string, shippingPostalCode: string,
    useShippingAddress: bool, paymentMethod: string,
    cardNumber: string, expiryDate: string, cvv: string, terms: bool)

  const InitialForm: Form :=
    Form("", "", "", "", "", "", "", "Italia", "", "", "", false, "card", "", "", "", false)

  /** What `validateForm` accepts, stated directly: the seven contact and billing fields are
      not blank, the terms are accepted, and paying by card needs the three card fields. */
  predicate Complete(f: Form) {
    && !Blank(f.firstName) && !Blank(f.lastName) && !Blank(f.email) && !Blank(f.phone)
    && !Blank(f.address) && !Blank(f.city) && !Blank(f.postalCode)
    && f.terms
    && (f.paymentMethod == "card" ==> !Blank(f.cardNumber) && !Blank(f.expiryDate) && !Blank(f.cvv))
  }

  /** The form's text inputs (the payment radio buttons among them) and its two checkboxes. */
  datatype TextField =
    | FirstName | LastName | Email | Phone | Address | City | PostalCode | Country
    | ShippingAddress | ShippingCity | ShippingPostalCode | PaymentMethod
    | CardNumber | ExpiryDate | Cvv
  datatype FlagField = UseShippingAddress | Terms

  /** A property name of the form object, which is also the key its error is stored under. */
  datatype Key = TextKey(text: TextField) | FlagKey(flag: FlagField)

  /** The message each failed check stores under its field's key. */
  function Message(k: Key): string {
    match k
    case TextKey(FirstName) => "Nome richiesto"
    case TextKey(LastName) => "Cognome richiesto"
    case TextKey(Email) => "Email richiesta"
    case TextKey(Phone) => "Telefono richiesto"
    case TextKey(Address) => "Indirizzo richiesto"
    case TextKey(City) => "Città richiesta"
    case TextKey(PostalCode) => "CAP richiesto"
    case FlagKey(Terms) => "Accettare i termini e condizioni"
    case TextKey(CardNumber) => "Numero carta richiesto"
    case TextKey(ExpiryDate) => "Data scadenza richiesta"
    case TextKey(Cvv) => "CVV richiesto"
    case _ => ""
  }

  /** The keys of the fields that fail their check. */
  function Missing(f: Form): set<Key> {
    MissingContact(f) + MissingBilling(f) + (if f.paymentMethod == "card" then MissingCard(f) else {})
  }

  function MissingContact(f: Form): set<Key> {
    If(Blank(f.firstName), TextKey(FirstName)) + If(Blank(f.lastName), TextKey(LastName)) +
    (If(Blank(f.email), TextKey(Email)) + If(Blank(f.phone), TextKey(Phone)))
  }

  function MissingBilling(f: Form): set<Key> {
    If(Blank(f.address), TextKey(Address)) + If(Blank(f.city), TextKey(City)) +
    (If(Blank(f.postalCode), TextKey(PostalCode)) + If(!f.terms, FlagKey(Terms)))
  }

  function MissingCard(f: Form): set<Key> {
    If(Blank(f.cardNumber), TextKey(CardNumber)) + If(Blank(f.expiryDate), TextKey(ExpiryDate)) +
    If(Blank(f.cvv), TextKey(Cvv))
  }

  /** The key of a failed check, as a set: empty when the check passes. */
  function If(failed: bool, k: Key): set<Key> {
    if failed then {k} else {}
  }

  /** One line of `validateForm`: when the check fails, record the field's message. */
  method Require(errors: map<Key, string>, failed: bool, k: Key) returns (r: map<Key, string>)
    requires Messages(errors)
    ensures r.Keys == errors.Keys + If(failed, k)
    ensures Messages(r)
  {
    r := errors;
    if failed {
      r := r[k := Message(k)];
    }
  }

  /** Two consecutive lines of `validateForm`. */
  method Require2(errors: map<Key, string>, failed1: bool, k1: Key, failed2: bool, k2: Key)
    returns (r: map<Key, string>)
    requires Messages(errors)
    ensures r.Keys == errors.Keys + (If(failed1, k1) + If(failed2, k2))
    ensures Messages(r)
  {
    r := Require(errors, failed1, k1);
    r := Require(r, failed2, k2);
  }

  predicate Messages(errors: map<Key, string>) {
    forall k :: k in errors ==> errors[k] == Message(k)
  }

  /** The checks of the four contact fields. */
  method RequireContact(f: Form, errors: map<Key, string>) returns (r: map<Key, string>)
    requires Messages(errors)
    ensures r.Keys == errors.Keys + MissingContact(f) && Messages(r)
  {
    r := Require2(errors, Blank(f.firstName), TextKey(FirstName), Blank(f.lastName), TextKey(LastName));
    r := Require2(r, Blank(f.email), TextKey(Email), Blank(f.phone), TextKey(Phone));
  }

  /** The checks of the billing address and of the terms box. */
  method RequireBilling(f: Form, errors: map<Key, string>) returns (r: map<Key, string>)
    requires Messages(errors)
    ensures r.Keys == errors.Keys + MissingBilling(f) && Messages(r)
  {
    r := Require2(errors, Blank(f.address), TextKey(Address), Blank(f.city), TextKey(City));
    r := Require2(r, Blank(f.postalCode), TextKey(PostalCode), !f.terms, FlagKey(Terms));
  }

  /** The checks of the three card fields. */
  method RequireCard(f: Form, errors: map<Key, string>) returns (r: map<Key, string>)
    requires Messages(errors)
    ensures r.Keys == errors.Keys + MissingCard(f) && Messages(r)
  {
    r := Require2(errors, Blank(f.cardNumber), TextKey(CardNumber), Blank(f.expiryDate), TextKey(ExpiryDate));
    r := Require(r, Blank(f.cvv), TextKey(Cvv));
  }

  /** A form is complete exactly when no check fails. */
  lemma CompleteIffNothingMissing(f: Form)
    ensures Complete(f) <==> Missing(f) == {}
  {
    if !Complete(f) {
      if !f.terms {
        assert FlagKey(Terms) in Missing(f);
      } else if Blank(f.firstName) {
        assert TextKey(FirstName) in Missing(f);
      } else if Blank(f.lastName) {
        assert TextKey(LastName) in Missing(f);
      } else if Blank(f.email) {
        assert TextKey(Email) in Missing(f);
      } else if Blank(f.phone) {
        assert TextKey(Phone) in Missing(f);
      } else if Blank(f.address) {
        assert TextKey(Address) in Missing(f);
      } else if Blank(f.city) {
        assert TextKey(City) in Missing(f);
      } else if Blank(f.postalCode) {
        assert TextKey(PostalCode) in Missing(f);
      } else if Blank(f.cardNumber) {
        assert TextKey(CardNumber) in Missing(f);
      } else if Blank(f.expiryDate) {
        assert TextKey(ExpiryDate) in Missing(f);
      } else {
        assert TextKey(Cvv) in Missing(f);
      }
    }
  }

  /** The eleven checks of `validateForm`, in its order; the card checks run only when
      paying by card. */
  method CollectErrors(f: Form) returns (errors: map<Key, string>)
    ensures errors.Keys == Missing(f) && Messages(errors)
  {
    errors := map[];
    errors := RequireContact(f, errors);
    errors := RequireBilling(f, errors);
    if f.paymentMethod == "card" {
      errors := RequireCard(f, errors);
    }
  }

  /** `validateForm`: builds the error object one check at a time; the form passes exactly
      when it is complete, which is exactly when no error was recorded. */
  method ValidateForm(f: Form) returns (errors: map<Key, string>, ok: bool)
    ensures ok <==> Complete(f)
    ensures ok <==> errors == map[]
    ensures errors.Keys == Missing(f)
    ensures forall k :: k in errors ==> errors[k] == Message(k)
  {
    errors := CollectErrors(f);
    CompleteIffNothingMissing(f);
    ok := |errors| == 0;
    assert ok <==> errors.Keys == {};
  }

  /** The separate shipping address, its toggle and the country are never checked:
      changing them cannot change the verdict. */
  lemma ShippingFieldsNotChecked(f: Form, address: string, city: string, code: string,
                                 use: bool, country: string)
    ensures Complete(f) == Complete(f.(shippingAddress := address, shippingCity := city,
                                       shippingPostalCode := code, useShippingAddress := use,
                                       country := country))
  {
  }

  function TextOf(f: Form, t: TextField): string {
    match t
    case FirstName => f.firstName
    case LastName => f.lastName
    case Email => f.email
    case Phone => f.phone
    case Address => f.address
    case City => f.city
    case PostalCode => f.postalCode
    case Country => f.country
    case ShippingAddress => f.shippingAddress
    case ShippingCity => f.shippingCity
    case ShippingPostalCode => f.shippingPostalCode
    case PaymentMethod => f.paymentMethod
    case CardNumber => f.cardNumber
    case ExpiryDate => f.expiryDate
    case Cvv => f.cvv
  }

  function FlagOf(f: Form, g: FlagField): bool {
    match g
    case UseShippingAddress => f.useShippingAddress
    case Terms => f.terms
  }

  function WithText(f: Form, t: TextField, v: string): Form {
    match t
    case FirstName => f.(firstName := v)
    case LastName => f.(lastName := v)
    case Email => f.(email := v)
    case Phone => f.(phone := v)
    case Address => f.(address := v)
    case City => f.(city := v)
    case PostalCode => f.(postalCode := v)
    case Country => f.(country := v)
    case ShippingAddress => f.(shippingAddress := v)
    case ShippingCity => f.(shippingCity := v)
    case ShippingPostalCode => f.(shippingPostalCode := v)
    case PaymentMethod => f.(paymentMethod := v)
    case CardNumber => f.(cardNumber := v)
    case ExpiryDate => f.(expiryDate := v)
    case Cvv => f.(cvv := v)
  }

  function WithFlag(f: Form, g: FlagField, b: bool): Form {
    match g
    case UseShippingAddress => f.(useShippingAddress := b)
    case Terms => f.(terms := b)
  }

  /** An input's change event: a typed value or a checkbox's checked state. */
  datatype InputEvent = Typed(field: TextField, value: string) | Ticked(flag: FlagField, checked: bool)

  function EventKey(e: InputEvent): Key {
    match e
    case Typed(t, _) => TextKey(t)
    case Ticked(g, _) => FlagKey(g)
  }

  datatype Edited = Edited(form: Form, errors: map<Key, string>)

  /** `handleInputChange`: store the new value; if the field shows an error, blank it. */
  function HandleInputChange(f: Form, errors: map<Key, string>, e: InputEvent): Edited {
    var form := match e
      case Typed(t, v) => WithText(f, t, v)
      case Ticked(g, b) => WithFlag(f, g, b);
    var k := EventKey(e);
    Edited(form, if k in errors && errors[k] != "" then errors[k := ""] else errors)
  }

  /** After an edit the field holds the new value and every other field is as it was; the
      edited field no longer shows an error, no other message changes, and no key is added or
      dropped. */
  lemma InputChangeEffect(f: Form, errors: map<Key, string>, e: InputEvent)
    ensures var r := HandleInputChange(f, errors, e);
      && (e.Typed? ==> TextOf(r.form, e.field) == e.value)
      && (e.Ticked? ==> FlagOf(r.form, e.flag) == e.checked)
      && (forall t :: !(e.Typed? && e.field == t) ==> TextOf(r.form, t) == TextOf(f, t))
      && (forall g :: !(e.Ticked? && e.flag == g) ==> FlagOf(r.form, g) == FlagOf(f, g))
      && r.errors.Keys == errors.Keys
      && (EventKey(e) in r.errors ==> r.errors[EventKey(e)] == "")
      && (forall k :: k in errors && k != EventKey(e) ==> r.errors[k] == errors[k])
  {
    match e
    case Typed(t, v) => WithTextOnly(f, t, v);
    case Ticked(g, b) => WithFlagOnly(f, g, b);
  }

  /** Storing a typed value changes that text field alone. */
  lemma WithTextOnly(f: Form, t: TextField, v: string)
    ensures TextOf(WithText(f, t, v), t) == v
    ensures forall u :: u != t ==> TextOf(WithText(f, t, v), u) == TextOf(f, u)
    ensures forall g :: FlagOf(WithText(f, t, v), g) == FlagOf(f, g)
  {
    forall u | u != t ensures TextOf(WithText(f, t, v), u) == TextOf(f, u) {
      TextUnchanged(f, t, v, u);
    }
  }

  lemma TextUnchanged(f: Form, t: TextField, v: string, u: TextField)
    requires u != t
    ensures TextOf(WithText(f, t, v), u) == TextOf(f, u)
  {
    match t
    case FirstName =>
    case LastName =>
    case Email =>
    case Phone =>
    case Address =>
    case City =>
    case PostalCode =>
    case Country =>
    case ShippingAddress =>
    case ShippingCity =>
    case ShippingPostalCode =>
    case PaymentMethod =>
    case CardNumber =>
    case ExpiryDate =>
    case Cvv =>
  }

  /** Storing a checkbox's state changes that flag alone. */
  lemma WithFlagOnly(f: Form, g: FlagField, b: bool)
    ensures FlagOf(WithFlag(f, g, b), g) == b
    ensures forall h :: h != g ==> FlagOf(WithFlag(f, g, b), h) == FlagOf(f, h)
    ensures forall t :: TextOf(WithFlag(f, g, b), t) == TextOf(f, t)
  {
    forall t ensures TextOf(WithFlag(f, g, b), t) == TextOf(f, t) {
      match t
      case FirstName =>
      case LastName =>
      case Email =>
      case Phone =>
      case Address =>
      case City =>
      case PostalCode =>
      case Country =>
      case ShippingAddress =>
      case ShippingCity =>
      case ShippingPostalCode =>
      case PaymentMethod =>
      case CardNumber =>
      case ExpiryDate =>
      case Cvv =>
    }
  }

  // ---------------------------------------------------------------------------------------
  // Stock re-check and submission

  function ProductIdIs(id: int): Product -> bool { (p: Product) => p.id == id }

  /** A line can still be served: its product is in the catalogue (the first entry with its
      id) and that entry's current stock covers the line's quantity. */
  predicate Available(line: LineItem, catalog: seq<Product>) {
    match Find(catalog, ProductIdIs(line.id))
    case None => false
    case Some(p) => p.inStock >= line.quantity
  }

  /** The names of the lines that can no longer be served, in cart order. */
  function StockConflicts(cart: seq<LineItem>, catalog: seq<Product>): seq<string> {
    if cart == [] then []
    else
      var last := cart[|cart| - 1];
      StockConflicts(cart[..|cart| - 1], catalog) + (if Available(last, catalog) then [] else [last.name])
  }

  /** The stock loop of `handleSubmit`: visits every line and pushes the name of each that
      fails, without stopping at the first. */
  method CheckStock(cart: seq<LineItem>, catalog: seq<Product>) returns (names: seq<string>)
    ensures names == StockConflicts(cart, catalog)
  {
    names := [];
    for i := 0 to |cart|
      invariant names == StockConflicts(cart[..i], catalog)
    {
      assert cart[..i + 1][..i] == cart[..i];
      if !Available(cart[i], catalog) {
        names := names + [cart[i].name];
      }
    }
    assert cart[..|cart|] == cart;
  }

  /** Conflicts are collected piecewise, so the report follows cart order. */
  lemma {:induction false} StockConflictsAppend(a: seq<LineItem>, b: seq<LineItem>, catalog: seq<Product>)
    ensures StockConflicts(a + b, catalog) == StockConflicts(a, catalog) + StockConflicts(b, catalog)
    decreases |b|
  {
    if b == [] {
      assert a + b == a;
    } else {
      assert (a + b)[..|a + b| - 1] == a + b[..|b| - 1];
      StockConflictsAppend(a, b[..|b| - 1], catalog);
    }
  }

  /** The test of a line that can no longer be served. */
  function Unserved(catalog: seq<Product>): LineItem -> bool {
    (l: LineItem) => !Available(l, catalog)
  }

  /** The names of some lines, in their order. */
  function LineNames(lines: seq<LineItem>): (r: seq<string>)
    ensures |r| == |lines| && forall i :: 0 <= i < |lines| ==> r[i] == lines[i].name
  {
    seq(|lines|, i requires 0 <= i < |lines| => lines[i].name)
  }

  /** The report is exactly the names of the lines that cannot be served, in cart order:
      a line that can be served contributes nothing and each one that cannot contributes its
      name once. */
  lemma {:induction false} StockConflictsAreFailingNames(cart: seq<LineItem>, catalog: seq<Product>)
    ensures StockConflicts(cart, catalog) == LineNames(Keep(cart, Unserved(catalog)))
  {
    if cart != [] {
      var head := [cart[0]];
      var rest := cart[1..];
      assert cart == head + rest;
      StockConflictsAppend(head, rest, catalog);
      assert head[..0] == [];
      StockConflictsAreFailingNames(rest, catalog);
      var kept := if Unserved(catalog)(cart[0]) then head else [];
      assert Keep(cart, Unserved(catalog)) == kept + Keep(rest, Unserved(catalog));
      assert LineNames(kept + Keep(rest, Unserved(catalog))) ==
             LineNames(kept) + LineNames(Keep(rest, Unserved(catalog)));
    }
  }

  /** The report has one name per failing line: it is the failing lines' names in cart order,
      empty exactly when every line can be served, lists the name of each line that cannot,
      and is never longer than the cart. */
  lemma StockConflictsComplete(cart: seq<LineItem>, catalog: seq<Product>)
    ensures StockConflicts(cart, catalog) == LineNames(Keep(cart, Unserved(catalog)))
    ensures |StockConflicts(cart, catalog)| <= |cart|
    ensures StockConflicts(cart, catalog) == [] <==> forall i :: 0 <= i < |cart| ==> Available(cart[i], catalog)
    ensures forall i :: 0 <= i < |cart| && !Available(cart[i], catalog) ==> cart[i].name in StockConflicts(cart, catalog)
  {
    StockConflictsAreFailingNames(cart, catalog);
    StockConflictsCover(cart, catalog);
  }

  /** Every failing line is reported, and only a cart with a failing line has a report. */
  lemma {:induction false} StockConflictsCover(cart: seq<LineItem>, catalog: seq<Product>)
    ensures |StockConflicts(cart, catalog)| <= |cart|
    ensures StockConflicts(cart, catalog) == [] <==> forall i :: 0 <= i < |cart| ==> Available(cart[i], catalog)
    ensures forall i :: 0 <= i < |cart| && !Available(cart[i], catalog) ==> cart[i].name in StockConflicts(cart, catalog)
  {
    if cart != [] {
      var init := cart[..|cart| - 1];
      var last := cart[|cart| - 1];
      var tail := if Available(last, catalog) then [] else [last.name];
      assert StockConflicts(cart, catalog) == StockConflicts(init, catalog) + tail;
      StockConflictsCover(init, catalog);
      forall i | 0 <= i < |init| ensures init[i] == cart[i] { }
    }
  }

  /** Availability, spelled out: the first catalogue entry with the line's id exists and has
      at least the line's quantity in stock. */
  lemma AvailableIff(line: LineItem, catalog: seq<Product>)
    ensures Available(line, catalog) <==>
      exists i :: 0 <= i < |catalog| && catalog[i].id == line.id &&
        (forall j :: 0 <= j < i ==> catalog[j].id != line.id) && catalog[i].inStock >= line.quantity
  {
    var f := Find(catalog, ProductIdIs(line.id));
    if f.Some? {
      forall i | 0 <= i < |catalog| && catalog[i].id == line.id &&
                 (forall j :: 0 <= j < i ==> catalog[j].id != line.id)
        ensures catalog[i] == f.value
      {
        var k :| 0 <= k < |catalog| && catalog[k] == f.value && ProductIdIs(line.id)(catalog[k]) &&
                 forall j :: 0 <= j < k ==> !ProductIdIs(line.id)(catalog[j]);
        assert catalog[k].id == line.id;
        assert ProductIdIs(line.id)(catalog[i]);
        assert k == i;
      }
    } else {
      forall i | 0 <= i < |catalog| ensures catalog[i].id != line.id {
        assert !ProductIdIs(line.id)(catalog[i]);
      }
    }
  }

  /** How `handleSubmit` ends. */
  datatype SubmitOutcome =
    | InvalidForm
    | StockConflict(names: seq<string>)
    | OrderFailed
    | Placed

  /** The actions a successful order dispatches. */
  const ResetAfterOrder: seq<Action> := [ClearCart, SetDiscount(None)]

  /** `handleSubmit`: validate the form, re-check stock, send the order (whose success is the
      `orderAccepted` input) and, only when it was accepted, empty the cart and drop the
      coupon. */
  method HandleSubmit(st: State, f: Form, catalog: seq<Product>, orderAccepted: bool)
    returns (outcome: SubmitOutcome, errors: map<Key, string>, next: State)
    ensures outcome == InvalidForm <==> !Complete(f)
    ensures errors.Keys == Missing(f)
    ensures Complete(f) && StockConflicts(st.cart, catalog) != [] ==>
              outcome == StockConflict(StockConflicts(st.cart, catalog))
    ensures outcome.StockConflict? <==> Complete(f) && StockConflicts(st.cart, catalog) != []
    ensures outcome == OrderFailed <==> Complete(f) && StockConflicts(st.cart, catalog) == [] && !orderAccepted
    ensures outcome == Placed <==> Complete(f) && StockConflicts(st.cart, catalog) == [] && orderAccepted
    ensures next == if outcome == Placed then ReduceAll(st, ResetAfterOrder) else st
  {
    next := st;
    var ok;
    errors, ok := ValidateForm(f);
    if !ok {
      return InvalidForm, errors, next;
    }
    var names := CheckStock(st.cart, catalog);
    if |names| > 0 {
      return StockConflict(names), errors, next;
    }
    if !orderAccepted {
      return OrderFailed, errors, next;
    }
    next := Reduce(Reduce(st, ClearCart), SetDiscount(None));
    assert next == ReduceAll(st, ResetAfterOrder);
    outcome := Placed;
  }

  /** After a placed order the cart is empty and no coupon is active; nothing else changes. */
  lemma PlacedOrderResets(st: State)
    ensures var next := ReduceAll(st, ResetAfterOrder);
      next == st.(cart := [], discount := None)
  {
  }
}
