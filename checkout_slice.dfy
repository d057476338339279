/** The checkout wizard's state container: a step number and three field
    groups, each replaced wholesale by its own reducer. */
module CheckoutSlice {

  datatype ShippingAddress = ShippingAddress(
    firstName: string, lastName: string, address: string,
    city: string, postalCode: string, country: string)

  datatype PaymentDetails = PaymentDetails(
    cardName: string, cardNumber: string, expiryDate: string, cvv: string)

  /** The whole checkout state; the entries of `review` are of type `Item`. */
  datatype CheckoutState<Item> = CheckoutState(
    step: int,
    shippingAddress: ShippingAddress,
    paymentDetails: PaymentDetails,
    review: seq<Item>)

  /** The four actions the slice exports, each with its payload. */
  datatype Action<Item> =
    | SetStep(n: int)
    | UpdateShippingAddress(address: ShippingAddress)
    | UpdatePaymentDetails(details: PaymentDetails)
    | UpdateReview(entries: seq<Item>)

  /** The part of the state an action writes. */
  datatype FieldGroup = StepGroup | ShippingGroup | PaymentGroup | ReviewGroup

  function GroupOf<Item>(a: Action<Item>): (g: FieldGroup)
  {
    match a
    case SetStep(_) => StepGroup
    case UpdateShippingAddress(_) => ShippingGroup
    case UpdatePaymentDetails(_) => PaymentGroup
    case UpdateReview(_) => ReviewGroup
  }

  predicate BlankAddress(a: ShippingAddress)
  {
    a.firstName == "" && a.lastName == "" && a.address == "" &&
    a.city == "" && a.postalCode == "" && a.country == ""
  }

  predicate BlankPayment(d: PaymentDetails)
  {
    d.cardName == "" && d.cardNumber == "" && d.expiryDate == "" && d.cvv == ""
  }

  /** `initialState`: step 0, every text field empty, nothing to review. */
  function InitialState<Item>(): (s: CheckoutState<Item>)
    ensures s.step == 0
    ensures BlankAddress(s.shippingAddress) && BlankPayment(s.paymentDetails)
    ensures s.review == []
  {
    CheckoutState(0, ShippingAddress("", "", "", "", "", ""), PaymentDetails("", "", "", ""), [])
  }

  /** `s` and `t` agree on every field group other than `g`. */
  predicate AgreeOutside<Item(==)>(s: CheckoutState<Item>, t: CheckoutState<Item>, g: FieldGroup)
  {
    && (g != StepGroup ==> s.step == t.step)
    && (g != ShippingGroup ==> s.shippingAddress == t.shippingAddress)
    && (g != PaymentGroup ==> s.paymentDetails == t.paymentDetails)
    && (g != ReviewGroup ==> s.review == t.review)
  }

  /** The group that `a` writes holds exactly `a`'s payload in `s`. */
  predicate Holds<Item(==)>(s: CheckoutState<Item>, a: Action<Item>)
  {
    match a
    case SetStep(n) => s.step == n
    case UpdateShippingAddress(addr) => s.shippingAddress == addr
    case UpdatePaymentDetails(d) => s.paymentDetails == d
    case UpdateReview(entries) => s.review == entries
  }

  /** The slice's reducer: the action's payload replaces its field group, with
      no range check on the step and no merging of the old group. */
  function Reduce<Item(==)>(s: CheckoutState<Item>, a: Action<Item>): (r: CheckoutState<Item>)
    ensures Holds(r, a)
    ensures AgreeOutside(s, r, GroupOf(a))
  {
    match a
    case SetStep(n) => s.(step := n)
    case UpdateShippingAddress(addr) => s.(shippingAddress := addr)
    case UpdatePaymentDetails(d) => s.(paymentDetails := d)
    case UpdateReview(entries) => s.(review := entries)
  }

  /** Dispatching the same action twice is dispatching it once. */
  lemma ReduceIdempotent<Item>(s: CheckoutState<Item>, a: Action<Item>)
    ensures Reduce(Reduce(s, a), a) == Reduce(s, a)
  {
  }

  /** A later action on the same group overwrites an earlier one completely. */
  lemma ReduceSameGroupOverwrites<Item>(s: CheckoutState<Item>, a: Action<Item>, b: Action<Item>)
    requires GroupOf(a) == GroupOf(b)
    ensures Reduce(Reduce(s, a), b) == Reduce(s, b)
  {
  }

  /** Actions on different groups commute. */
  lemma ReduceCommutes<Item>(s: CheckoutState<Item>, a: Action<Item>, b: Action<Item>)
    requires GroupOf(a) != GroupOf(b)
    ensures Reduce(Reduce(s, a), b) == Reduce(Reduce(s, b), a)
  {
  }

  /** The state after dispatching `acts` one after another, starting from `s`. */
  function DispatchAll<Item(==)>(s: CheckoutState<Item>, acts: seq<Action<Item>>): (r: CheckoutState<Item>)
    decreases |acts|
  {
    if acts == [] then s else Reduce(DispatchAll(s, acts[..|acts| - 1]), acts[|acts| - 1])
  }

  datatype Option<T> = None | Some(value: T)

  /** The last action in `acts` that writes group `g`: no later action writes
      `g`; None when no action in `acts` writes it. */
  function LastWrite<Item>(acts: seq<Action<Item>>, g: FieldGroup): (a: Option<Action<Item>>)
    ensures a.Some? ==> GroupOf(a.value) == g && a.value in acts
    ensures a.Some? ==> exists i :: 0 <= i < |acts| && acts[i] == a.value &&
                                    (forall j :: i < j < |acts| ==> GroupOf(acts[j]) != g)
    ensures a.None? ==> forall i :: 0 <= i < |acts| ==> GroupOf(acts[i]) != g
    decreases |acts|
  {
    if acts == [] then None
    else if GroupOf(acts[|acts| - 1]) == g then Some(acts[|acts| - 1])
    else
      var earlier := LastWrite(acts[..|acts| - 1], g);
      assert forall j :: 0 <= j < |acts| - 1 ==> acts[..|acts| - 1][j] == acts[j];
      earlier
  }

  /** `s` and `t` agree on field group `g`. */
  predicate AgreeOn<Item(==)>(s: CheckoutState<Item>, t: CheckoutState<Item>, g: FieldGroup)
  {
    match g
    case StepGroup => s.step == t.step
    case ShippingGroup => s.shippingAddress == t.shippingAddress
    case PaymentGroup => s.paymentDetails == t.paymentDetails
    case ReviewGroup => s.review == t.review
  }

  /** Actions take effect in dispatch order: after a run of actions, each
      field group holds the payload of the last action that wrote it, or its
      starting value when none did. */
  lemma {:induction false} DispatchLastWriteWins<Item>(s: CheckoutState<Item>, acts: seq<Action<Item>>, g: FieldGroup)
    ensures LastWrite(acts, g).Some? ==> Holds(DispatchAll(s, acts), LastWrite(acts, g).value)
    ensures LastWrite(acts, g).None? ==> AgreeOn(s, DispatchAll(s, acts), g)
    decreases |acts|
  {
    if acts != [] {
      var init, last := acts[..|acts| - 1], acts[|acts| - 1];
      if GroupOf(last) != g {
        DispatchLastWriteWins(s, init, g);
      }
    }
  }

  /** The slice's state, updated in place by one method per reducer. */
  class CheckoutStore<Item(==)> {
    var step: int
    var shippingAddress: ShippingAddress
    var paymentDetails: PaymentDetails
    var review: seq<Item>

    function State(): (s: CheckoutState<Item>)
      reads this
    {
      CheckoutState(step, shippingAddress, paymentDetails, review)
    }

    /** The store starts out in `initialState`. */
    constructor ()
      ensures State() == InitialState()
    {
      step := 0;
      shippingAddress := ShippingAddress("", "", "", "", "", "");
      paymentDetails := PaymentDetails("", "", "", "");
      review := [];
    }

    /** `setStep`: any step number, no range check. */
    method SetStep(n: int)
      modifies this
      ensures step == n
      ensures shippingAddress == old(shippingAddress) && paymentDetails == old(paymentDetails) && review == old(review)
      ensures State() == Reduce(old(State()), Action.SetStep(n))
    {
      step := n;
    }

    /** `updateShippingAddress`: the whole address is replaced, not merged. */
    method UpdateShippingAddress(address: ShippingAddress)
      modifies this
      ensures shippingAddress == address
      ensures step == old(step) && paymentDetails == old(paymentDetails) && review == old(review)
      ensures State() == Reduce(old(State()), Action.UpdateShippingAddress(address))
    {
      shippingAddress := address;
    }

    /** `updatePaymentDetails`: the whole card record is replaced. */
    method UpdatePaymentDetails(details: PaymentDetails)
      modifies this
      ensures paymentDetails == details
      ensures step == old(step) && shippingAddress == old(shippingAddress) && review == old(review)
      ensures State() == Reduce(old(State()), Action.UpdatePaymentDetails(details))
    {
      paymentDetails := details;
    }

    /** `updateReview`: the review list is replaced. */
    method UpdateReview(entries: seq<Item>)
      modifies this
      ensures review == entries
      ensures step == old(step) && shippingAddress == old(shippingAddress) && paymentDetails == old(paymentDetails)
      ensures State() == Reduce(old(State()), Action.UpdateReview(entries))
    {
      review := entries;
    }

    /** Dispatches one action to the reducer it names. */
    method Dispatch(a: Action<Item>)
      modifies this
      ensures State() == Reduce(old(State()), a)
    {
      match a
      case SetStep(n) => SetStep(n);
      case UpdateShippingAddress(address) => UpdateShippingAddress(address);
      case UpdatePaymentDetails(details) => UpdatePaymentDetails(details);
      case UpdateReview(entries) => UpdateReview(entries);
    }
  }
}
