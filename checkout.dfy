/**
  The checkout page (src/pages/CheckoutPage.tsx): a three-step machine,
  shipping, then payment, then confirmation, with a loading flag while the
  simulated payment runs and the form the visitor fills in.

  The payment is simulated by a timer; its callback is the separate action
  `CompletePayment`, which the model lets happen whenever the timer is
  pending, that is while `isLoading` holds (the submit button is disabled
  meanwhile, so at most one timer is ever pending). The cart store is not
  modelled: the page's one call into it, `clearCart`, is recorded as a
  `CartRequest`, and whether the cart is empty is an input of the render
  guard.
 */
module Checkout {
  import opened Cart

  datatype Step = Shipping | Payment | Confirmation

  /** A form field holds text (inputs, the country select, the payment radios) or a checkbox state. */
  datatype FieldValue = Text(text: string) | Checked(on: bool)

  /** What `handleInputChange` reads off the event target. */
  datatype InputEvent = InputEvent(name: string, value: string, isCheckbox: bool, checked: bool)

  /** Everything a visitor (or the payment timer) can do on the page. */
  datatype Action =
    | ChangeInput(event: InputEvent)
    | SubmitShipping
    | SubmitPayment
    | CompletePayment
    | BackToShipping
    | BackToHome

  datatype CheckoutState = CheckoutState(step: Step, isLoading: bool, formData: map<string, FieldValue>)

  /** The text fields of the shipping form, which start empty, except `country`. */
  const TextFields: set<string> := {"firstName", "lastName", "email", "phone", "address", "city", "postcode"}

  /** The fields of the shipping form. */
  const ShippingFields: set<string> := TextFields + {"country"}

  /** Every field of the form record. */
  const FormFields: set<string> := ShippingFields + {"paymentMethod", "saveInfo"}

  /** The payment methods the radio buttons offer. */
  const PaymentMethods: set<string> := {"credit-card", "cash"}

  /** The form as the page first shows it. */
  const InitialForm: map<string, FieldValue> := map[
    "firstName" := Text(""),
    "lastName" := Text(""),
    "email" := Text(""),
    "phone" := Text(""),
    "address" := Text(""),
    "city" := Text(""),
    "country" := Text("السعودية"),
    "postcode" := Text(""),
    "paymentMethod" := Text("credit-card"),
    "saveInfo" := Checked(true)]

  /** The page when it mounts: the shipping step, not loading, the initial form. */
  function Initial(): (s: CheckoutState)
    ensures s.step == Shipping && !s.isLoading
    ensures s.formData.Keys == FormFields
    ensures forall f :: f in TextFields ==> s.formData[f] == Text("")
    ensures s.formData["country"] == Text("السعودية")
    ensures s.formData["paymentMethod"] == Text("credit-card")
    ensures s.formData["saveInfo"] == Checked(true)
    ensures Valid(s)
  {
    CheckoutState(Shipping, false, InitialForm)
  }

  /** `handleInputChange`: the named field takes the checkbox state or the value; every other field keeps its value. */
  function ChangeField(form: map<string, FieldValue>, e: InputEvent): (r: map<string, FieldValue>)
    ensures r.Keys == form.Keys + {e.name}
    ensures r[e.name] == if e.isCheckbox then Checked(e.checked) else Text(e.value)
    ensures forall f :: f in form && f != e.name ==> r[f] == form[f]
  {
    form[e.name := if e.isCheckbox then Checked(e.checked) else Text(e.value)]
  }

  /**
    The render guard: with an empty cart the page redirects to the cart on
    the two form steps, and never on the confirmation step, whose cart has
    just been cleared; with items in the cart it never redirects.
   */
  function Redirects(s: CheckoutState, cartEmpty: bool): (redirect: bool)
    ensures redirect <==> cartEmpty && (s.step == Shipping || s.step == Payment)
    ensures s.step == Confirmation || !cartEmpty ==> !redirect
  {
    cartEmpty && s.step != Confirmation
  }

  /**
    The actions the rendered page offers in state `s`, and the timer's
    callback while it is pending. Inputs change only fields of the form, on
    the two form steps, and the one checkbox is `saveInfo`; the payment
    submit is offered only on the payment step and not while loading; the
    timer fires exactly while loading; once confirmed and settled, the only
    control left is the way home.
   */
  function Enabled(s: CheckoutState, a: Action): (enabled: bool)
    ensures enabled && a.ChangeInput? ==> a.event.name in FormFields && s.step != Confirmation
    ensures enabled && a.ChangeInput? && a.event.isCheckbox ==> a.event.name == "saveInfo" && s.step == Payment
    ensures a.SubmitPayment? ==> (enabled <==> s.step == Payment && !s.isLoading)
    ensures a.CompletePayment? ==> (enabled <==> s.isLoading)
    ensures s.step == Confirmation && !s.isLoading ==> (enabled <==> a.BackToHome?)
    ensures a.BackToHome? ==> (enabled <==> s.step == Confirmation)
  {
    match a
    case ChangeInput(e) =>
      || (s.step == Shipping && e.name in ShippingFields && !e.isCheckbox)
      || (s.step == Payment && e.name == "paymentMethod" && !e.isCheckbox && e.value in PaymentMethods)
      || (s.step == Payment && e.name == "saveInfo" && e.isCheckbox)
    case SubmitShipping => s.step == Shipping
    case SubmitPayment => s.step == Payment && !s.isLoading
    case CompletePayment => s.isLoading
    case BackToShipping => s.step == Payment
    case BackToHome => s.step == Confirmation
  }

  /**
    The state after action `a`. The shipping submit and the back button
    move between the two forms and change nothing else; the payment submit
    only starts loading, on the step it was on; the payment's completion
    stops loading and confirms; an input changes only the form. Leaving for
    the home page is navigation and changes no state.
   */
  function Apply(s: CheckoutState, a: Action): (r: CheckoutState)
    ensures a.SubmitShipping? ==> r == s.(step := Payment)
    ensures a.BackToShipping? ==> r == s.(step := Shipping)
    ensures a.SubmitPayment? ==> r.step == s.step && r.isLoading && r.formData == s.formData
    ensures a.CompletePayment? ==> r.step == Confirmation && !r.isLoading && r.formData == s.formData
    ensures a.ChangeInput? ==> r.step == s.step && r.isLoading == s.isLoading
    ensures a.ChangeInput? ==> r.formData == ChangeField(s.formData, a.event)
    ensures a.BackToHome? ==> r == s
  {
    match a
    case ChangeInput(e) => s.(formData := ChangeField(s.formData, e))
    case SubmitShipping => s.(step := Payment)
    case SubmitPayment => s.(isLoading := true)
    case CompletePayment => s.(isLoading := false, step := Confirmation)
    case BackToShipping => s.(step := Shipping)
    case BackToHome => s
  }

  /** The calls into the cart store that action `a` makes: only the completed payment clears the cart. */
  function Requests(a: Action): (r: seq<CartRequest>)
    ensures r == [] || r == [ClearCart]
    ensures r == [ClearCart] <==> a.CompletePayment?
  {
    if a.CompletePayment? then [ClearCart] else []
  }

  /**
    The shape of a reachable state: the form has exactly its ten fields,
    text where text belongs and a checkbox state for `saveInfo`, a payment
    method the radios offer, and no payment pending once confirmed.
   */
  ghost predicate Valid(s: CheckoutState)
  {
    && s.formData.Keys == FormFields
    && (forall f :: f in ShippingFields ==> s.formData[f].Text?)
    && s.formData["paymentMethod"].Text? && s.formData["paymentMethod"].text in PaymentMethods
    && s.formData["saveInfo"].Checked?
    && (s.step == Confirmation ==> !s.isLoading)
  }

  /** Every action the page offers keeps the state's shape. */
  lemma ApplyPreservesValid(s: CheckoutState, a: Action)
    requires Valid(s) && Enabled(s, a)
    ensures Valid(Apply(s, a))
  {
    if a.ChangeInput? {
      var r := Apply(s, a).formData;
      assert forall f :: f in FormFields && f != a.event.name ==> r[f] == s.formData[f];
    }
  }

  /** Whether every action of `trace` is offered in the state it meets, starting from `s`. */
  ghost predicate EnabledRun(s: CheckoutState, trace: seq<Action>)
    decreases trace
  {
    trace == [] || (Enabled(s, trace[0]) && EnabledRun(Apply(s, trace[0]), trace[1..]))
  }

  /** The state after the actions of `trace`, in order. */
  function Run(s: CheckoutState, trace: seq<Action>): CheckoutState
    decreases trace
  {
    if trace == [] then s else Run(Apply(s, trace[0]), trace[1..])
  }

  /** The calls into the cart store the actions of `trace` make, in order. */
  function RunRequests(trace: seq<Action>): seq<CartRequest>
  {
    if trace == [] then [] else Requests(trace[0]) + RunRequests(trace[1..])
  }

  /** Every run of offered actions keeps the state's shape. */
  lemma {:induction false} RunPreservesValid(s: CheckoutState, trace: seq<Action>)
    requires Valid(s) && EnabledRun(s, trace)
    ensures Valid(Run(s, trace))
    decreases trace
  {
    if trace != [] {
      ApplyPreservesValid(s, trace[0]);
      RunPreservesValid(Apply(s, trace[0]), trace[1..]);
    }
  }

  /** Once confirmed, nothing the page offers leaves the confirmation step, and the cart is not touched again. */
  lemma {:induction false} ConfirmationIsFinal(s: CheckoutState, trace: seq<Action>)
    requires Valid(s) && s.step == Confirmation && EnabledRun(s, trace)
    ensures Run(s, trace) == s
    ensures RunRequests(trace) == []
    decreases trace
  {
    if trace != [] {
      assert trace[0] == BackToHome;
      ConfirmationIsFinal(Apply(s, trace[0]), trace[1..]);
    }
  }

  /** A run that starts before confirmation ends there only if the payment completed, which cleared the cart. */
  lemma {:induction false} ConfirmationClearsCart(s: CheckoutState, trace: seq<Action>)
    requires s.step != Confirmation
    requires Run(s, trace).step == Confirmation
    ensures ClearCart in RunRequests(trace)
    decreases trace
  {
    if trace == [] {
      assert false;
    } else if trace[0].CompletePayment? {
      assert RunRequests(trace) == [ClearCart] + RunRequests(trace[1..]);
    } else {
      ConfirmationClearsCart(Apply(s, trace[0]), trace[1..]);
      assert RunRequests(trace) == Requests(trace[0]) + RunRequests(trace[1..]);
    }
  }

  /**
    The payment cannot complete before it was submitted: from a state with
    no payment pending, a run reaches confirmation only through a payment
    submit followed later by its completion.
   */
  lemma {:induction false} CompletionFollowsSubmit(s: CheckoutState, trace: seq<Action>)
    requires !s.isLoading && s.step != Confirmation && EnabledRun(s, trace)
    requires Run(s, trace).step == Confirmation
    ensures exists i, j :: 0 <= i < j < |trace| && trace[i] == SubmitPayment && trace[j] == CompletePayment
    decreases trace
  {
    assert trace != [];
    var a := trace[0];
    assert a != CompletePayment;
    var next := Apply(s, a);
    if a == SubmitPayment {
      var j := FirstCompletion(next, trace[1..]);
      assert trace[j + 1] == CompletePayment;
      assert trace[0] == SubmitPayment;
    } else {
      assert !next.isLoading && next.step != Confirmation;
      CompletionFollowsSubmit(next, trace[1..]);
      var i, j :| 0 <= i < j < |trace[1..]| && trace[1..][i] == SubmitPayment && trace[1..][j] == CompletePayment;
      assert trace[i + 1] == SubmitPayment && trace[j + 1] == CompletePayment;
    }
  }

  /** The index of a payment completion in a run that reaches confirmation from elsewhere. */
  lemma {:induction false} FirstCompletion(s: CheckoutState, trace: seq<Action>) returns (j: nat)
    requires s.step != Confirmation
    requires Run(s, trace).step == Confirmation
    ensures j < |trace| && trace[j] == CompletePayment
    decreases trace
  {
    assert trace != [];
    if trace[0] == CompletePayment {
      j := 0;
    } else {
      var k := FirstCompletion(Apply(s, trace[0]), trace[1..]);
      j := k + 1;
    }
  }

  /** A confirmed page is never redirected, whatever the visitor does next, even though its cart was cleared. */
  lemma ConfirmedNeverRedirects(s: CheckoutState, trace: seq<Action>, cartEmpty: bool)
    requires Valid(s) && s.step == Confirmation && EnabledRun(s, trace)
    ensures !Redirects(Run(s, trace), cartEmpty)
  {
    ConfirmationIsFinal(s, trace);
  }

  /**
    The back button stays enabled while the payment runs, so a visitor can
    return to the shipping form with the payment pending; its completion
    still confirms the order and clears the cart.
   */
  lemma CompletionAfterBack(s: CheckoutState)
    requires s.step == Payment && !s.isLoading
    ensures var trace := [SubmitPayment, BackToShipping, CompletePayment];
      && EnabledRun(s, trace)
      && Run(s, trace).step == Confirmation
      && RunRequests(trace) == [ClearCart]
  {
    var trace := [SubmitPayment, BackToShipping, CompletePayment];
    var s1 := Apply(s, SubmitPayment);
    var s2 := Apply(s1, BackToShipping);
    assert s2.step == Shipping && s2.isLoading;
    assert trace[1..] == [BackToShipping, CompletePayment] && trace[1..][1..] == [CompletePayment];
    assert Run(s2, [CompletePayment]) == Apply(s2, CompletePayment);
  }

  /**
    The page as a component: the state lives in fields that the handlers
    update, and `requests` records the calls into the cart store in order.
   */
  class CheckoutPage {
    var step: Step
    var isLoading: bool
    var formData: map<string, FieldValue>
    var requests: seq<CartRequest>

    function State(): CheckoutState
      reads this
    {
      CheckoutState(step, isLoading, formData)
    }

    constructor ()
      ensures State() == Initial()
      ensures requests == []
    {
      step := Shipping;
      isLoading := false;
      formData := InitialForm;
      requests := [];
    }

    method HandleInputChange(e: InputEvent)
      modifies this
      ensures State() == Apply(old(State()), ChangeInput(e))
      ensures requests == old(requests)
    {
      formData := formData[e.name := if e.isCheckbox then Checked(e.checked) else Text(e.value)];
    }

    method HandleShippingSubmit()
      modifies this
      ensures State() == Apply(old(State()), SubmitShipping)
      ensures requests == old(requests)
    {
      step := Payment;
    }

    /** Starts the payment; the timer's callback is `CompletePayment`. */
    method HandlePaymentSubmit()
      modifies this
      ensures State() == Apply(old(State()), SubmitPayment)
      ensures requests == old(requests)
    {
      isLoading := true;
    }

    /** The timer's callback: stop loading, confirm, and clear the cart. */
    method CompletePayment()
      modifies this
      ensures State() == Apply(old(State()), Action.CompletePayment)
      ensures requests == old(requests) + [ClearCart]
    {
      isLoading := false;
      step := Confirmation;
      requests := requests + [ClearCart];
    }

    /** The back button of the payment form. */
    method BackToShipping()
      modifies this
      ensures State() == Apply(old(State()), Action.BackToShipping)
      ensures requests == old(requests)
    {
      step := Shipping;
    }

    /** Whether the submit button of the payment form is disabled: on the payment step, exactly when submitting is not offered. */
    function PaymentSubmitDisabled(): (disabled: bool)
      reads this
      ensures step == Payment ==> (disabled <==> !Enabled(State(), SubmitPayment))
    {
      isLoading
    }
  }
}
