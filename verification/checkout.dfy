/** The checkout modal: choosing a saved or a custom address, quoting its
    shipping at an estimated 1 kg, and turning the cart into an order
    payload. Each handler is a function from the modal's state to the next;
    the asynchronous quote is taken to complete before the next event. */
module Checkout {
  import opened Prelude
  import opened Shipping
  import opened UserProfile
  import Cart
  import Orders

  /** `selectedAddress`: `'saved'` or `'custom'`. */
  datatype Choice = Saved | Custom

  /** The modal's two pages. */
  datatype Step = AddressStep | ConfirmStep

  /** The signed-in user as the auth client reports it; a missing name or
      e-mail is the empty string. */
  datatype User = User(uid: string, displayName: string, email: string)

  datatype State = State(
    step: Step,
    profile: Option<Profile>,     // `userProfile`
    selected: Option<Choice>,     // `selectedAddress`
    custom: Address,              // `customAddress`
    quote: Option<Quote>)         // `shippingCost`

  const EmptyAddress: Address := Address("", "", "", "", "", "")

  /** The state when the modal opens. */
  const Initial: State := State(AddressStep, None, None, EmptyAddress, None)

  /** The weight every checkout quote is computed for. */
  const EstimatedWeightKg: real := 1.0

  const SelectPrompt: string := "Por favor selecciona una dirección de envío y calcula el costo de envío."
  const InvalidAddressMessage: string := "Dirección de envío inválida."
  const GuestName: string := "Invitado"
  const GuestEmail: string := "invitado@rpm-importados.com"
  const TransferPayment: string := "transfer"
  const OrderErrorMessage: string := "Error al crear el pedido. Inténtalo de nuevo."

  // ---------------------------------------------------------------------------
  // Totals

  /** `subtotal`: `item.price * item.quantity` summed with no fallback, so a
      single missing price makes the whole sum `NaN` (`None`). */
  function Subtotal(cart: seq<Cart.Line>): (r: Option<real>)
    ensures r.Some? <==> forall i :: 0 <= i < |cart| ==> cart[i].item.product.price.Some?
  {
    if |cart| == 0 then Some(0.0)
    else if cart[0].item.product.price.Some? && Subtotal(cart[1..]).Some? then
      Some(cart[0].item.product.price.value * cart[0].quantity as real + Subtotal(cart[1..]).value)
    else None
  }

  /** When every line has a price the checkout subtotal is the cart drawer's
      total. */
  lemma {:induction false} SubtotalIsCartTotal(cart: seq<Cart.Line>)
    requires forall i :: 0 <= i < |cart| ==> cart[i].item.product.price.Some?
    ensures Subtotal(cart) == Some(Cart.CartTotal(cart))
  {
    if |cart| > 0 {
      assert forall i :: 0 <= i < |cart[1..]| ==> cart[1..][i] == cart[i + 1];
      SubtotalIsCartTotal(cart[1..]);
      assert Cart.CartTotal(cart) == Cart.LineAmount(cart[0]) + Cart.CartTotal(cart[1..]);
      assert Subtotal(cart) == Some(cart[0].item.product.price.value * cart[0].quantity as real + Subtotal(cart[1..]).value);
      assert Cart.LineAmount(cart[0]) == cart[0].item.product.price.value * cart[0].quantity as real;
    }
  }

  /** `shippingCost?.total_cost || 0` */
  function ShippingPart(q: Option<Quote>): (r: real)
    ensures q.None? ==> r == 0.0
    ensures q.Some? ==> r == q.value.totalCost
  {
    if q.Some? then q.value.totalCost else 0.0
  }

  /** `orderTotal`: the subtotal plus the quoted shipping, if any. */
  function OrderTotal(cart: seq<Cart.Line>, q: Option<Quote>): (r: Option<real>)
    ensures r.Some? <==> Subtotal(cart).Some?
    ensures r.Some? ==> r.value == Subtotal(cart).value + ShippingPart(q)
  {
    match Subtotal(cart)
    case None => None
    case Some(st) => Some(st + ShippingPart(q))
  }

  /** With every price present the order total is the cart total plus the
      quote's total; a missing price leaves no total at all. */
  lemma OrderTotalAddsShipping(cart: seq<Cart.Line>, q: Quote)
    ensures (forall i :: 0 <= i < |cart| ==> cart[i].item.product.price.Some?) ==>
              OrderTotal(cart, Some(q)) == Some(Cart.CartTotal(cart) + q.totalCost)
    ensures (exists i :: 0 <= i < |cart| && cart[i].item.product.price.None?) ==>
              OrderTotal(cart, Some(q)).None?
  {
    if forall i :: 0 <= i < |cart| ==> cart[i].item.product.price.Some? {
      SubtotalIsCartTotal(cart);
    }
  }

  // ---------------------------------------------------------------------------
  // Quoting

  /** `calculateShipping(address)`: the quote for the address's postal code
      at the estimated weight. */
  function QuoteFor(read: TableRead, a: Address): Quote {
    CalculateShippingCost(read, a.postalCode, EstimatedWeightKg)
  }

  /** What a quote taken at 1 kg looks like: no per-kilogram charge, except
      in the fixed quote for an unknown zone. */
  ghost predicate OneKiloQuote(q: Quote) {
    q.additionalCost == 0.0 || q == UnknownZoneQuote(EstimatedWeightKg)
  }

  /** Every checkout quote is a 1 kg quote; a resolved zone charges exactly
      its base cost. */
  lemma QuoteForIsOneKilo(read: TableRead, a: Address)
    ensures OneKiloQuote(QuoteFor(read, a))
    ensures QuoteFor(read, a).zoneId.Some? ==> QuoteFor(read, a).totalCost == QuoteFor(read, a).baseCost
  {
    if read.Loaded? && ResolveZone(read.zones, a.postalCode).Some? {
      ZoneCostFormula(ResolveZone(read.zones, a.postalCode).value, EstimatedWeightKg);
    }
  }

  /** The modal never holds a quote other than a 1 kg one. */
  ghost predicate QuoteInvariant(s: State) {
    s.quote.Some? ==> OneKiloQuote(s.quote.value)
  }

  // ---------------------------------------------------------------------------
  // Handlers

  /** The condition under which a loaded profile pre-selects itself. */
  predicate HasSavedAddress(p: Profile) {
    p.street != "" && p.city != "" && p.province != "" && p.postalCode != ""
  }

  /** `loadUserProfile()`: with a signed-in user, stores the profile read and
      pre-selects it when it holds an address; it does not quote. */
  function LoadUserProfile(s: State, user: Option<User>, read: ProfileRead): (r: State)
    ensures user.None? ==> r == s
    ensures user.Some? ==> r.profile == GetUserProfile(read)
    ensures user.Some? && r.profile.Some? && HasSavedAddress(r.profile.value) ==> r.selected == Some(Saved)
    ensures !(user.Some? && r.profile.Some? && HasSavedAddress(r.profile.value)) ==> r.selected == s.selected
    ensures r.quote == s.quote && r.custom == s.custom && r.step == s.step
  {
    if user.None? then s
    else
      var p := GetUserProfile(read);
      var s1 := s.(profile := p);
      if p.Some? && HasSavedAddress(p.value) then s1.(selected := Some(Saved)) else s1
  }

  /** `handleAddressSelect(type)`: the saved address is quoted whenever a
      profile is loaded; the custom one only when it is already valid with a
      postal code of at least four characters. Otherwise the previous quote
      stays. */
  function HandleAddressSelect(s: State, choice: Choice, read: TableRead): (r: State)
    ensures r.selected == Some(choice)
    ensures r.profile == s.profile && r.custom == s.custom && r.step == s.step
    ensures choice == Saved && s.profile.Some? ==>
              r.quote == Some(QuoteFor(read, ProfileAddress(s.profile.value)))
    ensures choice == Custom && |s.custom.postalCode| >= 4 && ValidateShippingAddress(s.custom) == Valid ==>
              r.quote == Some(QuoteFor(read, s.custom))
    ensures choice == Saved && s.profile.None? ==> r.quote == s.quote
    ensures choice == Custom && !(|s.custom.postalCode| >= 4 && ValidateShippingAddress(s.custom) == Valid) ==>
              r.quote == s.quote
  {
    var s1 := s.(selected := Some(choice));
    match choice
    case Saved =>
      if s.profile.Some? then s1.(quote := Some(QuoteFor(read, ProfileAddress(s.profile.value)))) else s1
    case Custom =>
      if |s.custom.postalCode| >= 4 && ValidateShippingAddress(s.custom) == Valid
      then s1.(quote := Some(QuoteFor(read, s.custom)))
      else s1
  }

  /** `handleCustomAddressChange(field, value)`: the edit is applied, and
      only a postal code of at least four characters touches the quote,
      which is recomputed for a valid address and cleared otherwise. */
  function HandleCustomAddressChange(s: State, f: Field, value: string, read: TableRead): (r: State)
    ensures r.custom == SetField(s.custom, f, value)
    ensures r.profile == s.profile && r.selected == s.selected && r.step == s.step
    ensures f == PostalCode && |value| >= 4 ==>
              (r.quote.Some? <==> ValidateShippingAddress(r.custom) == Valid)
    ensures f == PostalCode && |value| >= 4 && r.quote.Some? ==> r.quote == Some(QuoteFor(read, r.custom))
    ensures !(f == PostalCode && |value| >= 4) ==> r.quote == s.quote
  {
    var updated := SetField(s.custom, f, value);
    var s1 := s.(custom := updated);
    if f == PostalCode && |value| >= 4 then
      if ValidateShippingAddress(updated) == Valid then s1.(quote := Some(QuoteFor(read, updated)))
      else s1.(quote := None)
    else s1
  }

  /** `getSelectedAddress()` */
  function GetSelectedAddress(s: State): (r: Option<Address>)
    ensures r.Some? <==> (s.selected == Some(Saved) && s.profile.Some?) || s.selected == Some(Custom)
    ensures s.selected == Some(Saved) && s.profile.Some? ==> r == Some(ProfileAddress(s.profile.value))
    ensures s.selected == Some(Custom) ==> r == Some(s.custom)
  {
    match s.selected
    case Some(Saved) => if s.profile.Some? then Some(ProfileAddress(s.profile.value)) else None
    case Some(Custom) => Some(s.custom)
    case None => None
  }

  /** The "Continuar" button: enabled once an address is selected and quoted. */
  function Continue(s: State): (r: State)
    ensures r.step == ConfirmStep <==> s.step == ConfirmStep || (s.selected.Some? && s.quote.Some?)
    ensures r.(step := s.step) == s
  {
    if s.selected.Some? && s.quote.Some? then s.(step := ConfirmStep) else s
  }

  /** The "Volver" button. */
  function Back(s: State): (r: State)
    ensures r.step == AddressStep
    ensures r.(step := s.step) == s
  {
    s.(step := AddressStep)
  }

  /** "Volver" after "Continuar" returns to the address page with the
      selection and the quote kept. */
  lemma BackUndoesContinue(s: State)
    requires s.step == AddressStep
    ensures Back(Continue(s)) == s
  {
  }

  /** Reaching the confirmation page means the first guard of placing the
      order is passed. */
  lemma ConfirmPassesSelectionGuard(s: State, cart: seq<Cart.Line>, user: Option<User>)
    requires s.step == AddressStep && Continue(s).step == ConfirmStep
    ensures HandlePlaceOrder(Continue(s), cart, user) != Refused(SelectPrompt)
  {
  }

  /** Loading the profile never touches the quote. */
  lemma LoadKeepsQuoteInvariant(s: State, user: Option<User>, pr: ProfileRead)
    requires QuoteInvariant(s)
    ensures QuoteInvariant(LoadUserProfile(s, user, pr))
  {
  }

  /** Selecting an address keeps every held quote a 1 kg quote. */
  lemma SelectKeepsQuoteInvariant(s: State, choice: Choice, read: TableRead)
    requires QuoteInvariant(s)
    ensures QuoteInvariant(HandleAddressSelect(s, choice, read))
  {
    if s.profile.Some? {
      QuoteForIsOneKilo(read, ProfileAddress(s.profile.value));
    }
    QuoteForIsOneKilo(read, s.custom);
  }

  /** Editing the custom address keeps every held quote a 1 kg quote. */
  lemma EditKeepsQuoteInvariant(s: State, f: Field, value: string, read: TableRead)
    requires QuoteInvariant(s)
    ensures QuoteInvariant(HandleCustomAddressChange(s, f, value, read))
  {
    QuoteForIsOneKilo(read, SetField(s.custom, f, value));
  }

  // ---------------------------------------------------------------------------
  // Placing the order

  /** `cartItems.map(...)`: id, name, quantity and base price of each line;
      the chosen variants and their price are not carried over. */
  function OrderItems(cart: seq<Cart.Line>): (r: seq<Orders.OrderItem>)
    ensures |r| == |cart|
    ensures forall i :: 0 <= i < |cart| ==>
              r[i] == Orders.OrderItem(cart[i].item.product.id, cart[i].item.product.name,
                                       cart[i].quantity, cart[i].item.product.price)
  {
    seq(|cart|, i requires 0 <= i < |cart| =>
      Orders.OrderItem(cart[i].item.product.id, cart[i].item.product.name,
                       cart[i].quantity, cart[i].item.product.price))
  }

  /** The payload `handlePlaceOrder` sends; a guest gets placeholder
      contact details and no user id. */
  function BuildPayload(cart: seq<Cart.Line>, user: Option<User>, q: Quote, a: Address): (p: Orders.Payload)
    ensures user.Some? && user.value.displayName != "" ==> p.customerName == user.value.displayName
    ensures !(user.Some? && user.value.displayName != "") ==> p.customerName == GuestName
    ensures user.Some? && user.value.email != "" ==> p.customerEmail == user.value.email
    ensures !(user.Some? && user.value.email != "") ==> p.customerEmail == GuestEmail
    ensures p.userId.Some? <==> user.Some? && user.value.uid != ""
    ensures p.userId.Some? ==> p.userId.value == user.value.uid
    ensures p.items == OrderItems(cart)
    ensures p.totalAmount == OrderTotal(cart, Some(q))
    ensures p.shippingCost == q.totalCost && p.shippingZone == q.zone && p.shippingAddress == a
    ensures p.paymentMethod == TransferPayment && p.status.None?
  {
    var name := if user.Some? then OrElse(user.value.displayName, GuestName) else GuestName;
    var email := if user.Some? then OrElse(user.value.email, GuestEmail) else GuestEmail;
    var uid := if user.Some? && user.value.uid != "" then Some(user.value.uid) else None;
    Orders.Payload(name, email, uid, OrderItems(cart), OrderTotal(cart, Some(q)),
                   q.totalCost, a, q.zone, TransferPayment, None)
  }

  /** The outcome of pressing "Confirmar Pedido". */
  datatype Placement = Refused(message: string) | Placed(payload: Orders.Payload)

  /** `handlePlaceOrder()` up to the `createOrder` call: it needs a selection
      and a quote, then a selected address; nothing else is checked. */
  function HandlePlaceOrder(s: State, cart: seq<Cart.Line>, user: Option<User>): (r: Placement)
    ensures r.Placed? <==> s.selected.Some? && s.quote.Some? && GetSelectedAddress(s).Some?
    ensures (s.selected.None? || s.quote.None?) ==> r == Refused(SelectPrompt)
    ensures s.selected.Some? && s.quote.Some? && GetSelectedAddress(s).None? ==>
              r == Refused(InvalidAddressMessage)
    ensures r.Placed? ==> r.payload == BuildPayload(cart, user, s.quote.value, GetSelectedAddress(s).value)
  {
    if s.selected.None? || s.quote.None? then Refused(SelectPrompt)
    else
      match GetSelectedAddress(s)
      case None => Refused(InvalidAddressMessage)
      case Some(a) => Placed(BuildPayload(cart, user, s.quote.value, a))
  }

  /** Nothing can be ordered from a freshly opened modal. */
  lemma InitialRefuses(cart: seq<Cart.Line>, user: Option<User>)
    ensures HandlePlaceOrder(Initial, cart, user) == Refused(SelectPrompt)
  {
  }

  /** What the shopper sees once `handlePlaceOrder()` has run: a refusal
      alert, the error alert of a failed `createOrder`, or the stored order. */
  datatype Submission = Declined(message: string) | Created(order: Orders.Order)

  /** `handlePlaceOrder()` through the `createOrder` call and its `catch`. */
  function SubmitOrder(s: State, cart: seq<Cart.Line>, user: Option<User>, now: Orders.Timestamp,
                       answer: Orders.StoreAnswer): (r: Submission)
    ensures HandlePlaceOrder(s, cart, user).Refused? ==> r == Declined(HandlePlaceOrder(s, cart, user).message)
    ensures r.Created? <==> HandlePlaceOrder(s, cart, user).Placed? && answer == Orders.Accepts &&
                            forall i :: 0 <= i < |cart| ==> cart[i].item.product.price.Some?
    ensures HandlePlaceOrder(s, cart, user).Placed? && r.Declined? ==> r.message == OrderErrorMessage
    ensures r.Created? ==> r.order == Orders.CreateOrder(HandlePlaceOrder(s, cart, user).payload, now)
  {
    match HandlePlaceOrder(s, cart, user)
    case Refused(m) => Declined(m)
    case Placed(p) =>
      assert forall i :: 0 <= i < |cart| ==> p.items[i].price == cart[i].item.product.price;
      match Orders.AddOrder(p, now, answer)
      case Rejected => Declined(OrderErrorMessage)
      case Stored(o) => Created(o)
  }

  /** The layout after a submission: only a created order runs `onSuccess`,
      which empties the cart and closes the modal. */
  function AfterSubmission(l: Cart.Layout, r: Submission): (r2: Cart.Layout)
    ensures r.Created? ==> r2.cart == [] && !r2.showCheckout
    ensures r.Declined? ==> r2 == l
  {
    if r.Created? then Cart.HandleCheckoutSuccess(l) else l
  }

  /** A payload that passes the checks is stored exactly when the store
      accepts the write and every line has a price, and the stored order is pending, paid by transfer, charged the
      quote's total as shipping, totals the cart plus that shipping, and goes
      to the selected address. */
  lemma PlacedOrderShape(s: State, cart: seq<Cart.Line>, user: Option<User>, now: Orders.Timestamp,
                          answer: Orders.StoreAnswer)
    requires HandlePlaceOrder(s, cart, user).Placed?
    ensures SubmitOrder(s, cart, user, now, answer).Created? <==>
              answer == Orders.Accepts && forall i :: 0 <= i < |cart| ==> cart[i].item.product.price.Some?
    ensures var r := SubmitOrder(s, cart, user, now, answer);
      r.Created? ==>
        r.order.status == Orders.Pending && r.order.paymentMethod == TransferPayment &&
        r.order.shippingCost == s.quote.value.totalCost &&
        r.order.totalAmount == Some(Cart.CartTotal(cart) + s.quote.value.totalCost) &&
        r.order.shippingAddress == GetSelectedAddress(s).value &&
        (r.order.userId.Some? <==> user.Some? && user.value.uid != "")
  {
    OrderTotalAddsShipping(cart, s.quote.value);
  }

  /** A line without a price makes the store refuse the order, whatever it
      would answer otherwise: the error alert shows and the cart is kept. */
  lemma MissingPriceKeepsCart(s: State, cart: seq<Cart.Line>, user: Option<User>, now: Orders.Timestamp,
                              answer: Orders.StoreAnswer, l: Cart.Layout, k: nat)
    requires HandlePlaceOrder(s, cart, user).Placed?
    requires k < |cart| && cart[k].item.product.price.None?
    ensures SubmitOrder(s, cart, user, now, answer) == Declined(OrderErrorMessage)
    ensures AfterSubmission(l, SubmitOrder(s, cart, user, now, answer)) == l
  {
  }

  /** A write the store refuses for any other reason ends the same way: the
      error alert shows and the cart is kept. */
  lemma FailedWriteKeepsCart(s: State, cart: seq<Cart.Line>, user: Option<User>, now: Orders.Timestamp, l: Cart.Layout)
    requires HandlePlaceOrder(s, cart, user).Placed?
    ensures SubmitOrder(s, cart, user, now, Orders.Fails) == Declined(OrderErrorMessage)
    ensures AfterSubmission(l, SubmitOrder(s, cart, user, now, Orders.Fails)) == l
  {
  }

  /** A quote taken for the saved address survives a switch to an invalid
      custom address, and the order then goes out to that address. */
  lemma StaleQuoteAfterSwitch(s: State, read: TableRead, cart: seq<Cart.Line>, user: Option<User>)
    requires s.profile.Some?
    requires ValidateShippingAddress(s.custom) != Valid
    ensures var s2 := HandleAddressSelect(HandleAddressSelect(s, Saved, read), Custom, read);
      HandlePlaceOrder(s2, cart, user).Placed? &&
      HandlePlaceOrder(s2, cart, user).payload.shippingAddress == s.custom &&
      HandlePlaceOrder(s2, cart, user).payload.shippingCost ==
        QuoteFor(read, ProfileAddress(s.profile.value)).totalCost
  {
  }

  /** Blanking a required field other than the postal code keeps the quote,
      so a custom address missing that field is accepted. */
  lemma StaleQuoteAfterEdit(s: State, f: Field, read: TableRead, cart: seq<Cart.Line>, user: Option<User>)
    requires s.selected == Some(Custom) && s.quote.Some?
    requires f != PostalCode && f != BetweenStreets
    ensures var s2 := HandleCustomAddressChange(s, f, "", read);
      ValidateShippingAddress(s2.custom) != Valid &&
      HandlePlaceOrder(s2, cart, user).Placed? &&
      HandlePlaceOrder(s2, cart, user).payload.shippingAddress == s2.custom
  {
    var s2 := HandleCustomAddressChange(s, f, "", read);
    var k := if f == Street then 0 else if f == StreetNumber then 1 else if f == City then 2 else if f == Province then 3 else 4;
    assert RequiredFields[k] == f;
    assert Blank(FieldValue(s2.custom, f));
  }

  /** When the zone table cannot be read, the zero-cost error quote is
      accepted and the order is placed with free shipping. */
  lemma ErrorQuoteIsAccepted(s: State, cart: seq<Cart.Line>, user: Option<User>)
    requires s.profile.Some?
    ensures var s1 := HandleAddressSelect(s, Saved, Unavailable);
      HandlePlaceOrder(s1, cart, user).Placed? &&
      HandlePlaceOrder(s1, cart, user).payload.shippingCost == 0.0 &&
      HandlePlaceOrder(s1, cart, user).payload.shippingZone == ErrorQuote.zone
  {
  }
}
