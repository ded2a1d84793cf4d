/** The checkout page: a two-step form, a simulated payment that completes on a timer and
    clears the cart, and a redirect back to the cart when there is nothing to check out. */
module CheckoutPage {
  import opened Wrappers
  import opened Store
  import opened Forms
  import opened Pricing
  import opened CartLines

  /** The text fields of the form; `saveInfo` is its one checkbox. */
  const TextFields: seq<string> := ["email", "firstName", "lastName", "address", "city", "state",
    "zipCode", "cardName", "cardNumber", "expDate", "cvv"]

  /** The `required` inputs of the shipping step (the e-mail input is rendered, and required,
      only for a visitor who is not signed in). */
  const ShippingFields: seq<string> := ["firstName", "lastName", "address", "city", "state", "zipCode"]

  /** The `required` inputs of the payment step. */
  const PaymentFields: seq<string> := ["cardName", "cardNumber", "expDate", "cvv"]

  /** The form's first state: the signed-in user's e-mail (or ""), every other text field
      empty, and "save info" unticked. */
  function InitialForm(userEmail: Option<string>): (form: map<string, FieldValue>)
    ensures form.Keys == (set f | f in TextFields) + {"saveInfo"}
    ensures form["email"] == Text(userEmail.GetOr(""))
    ensures form["saveInfo"] == Flag(false)
    ensures forall f :: f in TextFields && f != "email" ==> form[f] == Text("")
  {
    (map f | f in TextFields :: if f == "email" then Text(userEmail.GetOr("")) else Text(""))
      ["saveInfo" := Flag(false)]
  }

  /** The browser lets the form's `submit` event through only when every required input the
      current step renders is filled. */
  predicate StepComplete(form: map<string, FieldValue>, step: int, isAuthenticated: bool) {
    if step == 1 then
      (isAuthenticated || Filled(form, "email")) && forall f :: f in ShippingFields ==> Filled(form, f)
    else
      forall f :: f in PaymentFields ==> Filled(form, f)
  }

  /** A fresh form blocks the shipping step; for a signed-out visitor even the e-mail is
      missing. */
  lemma InitialFormIncomplete(userEmail: Option<string>, isAuthenticated: bool)
    ensures !StepComplete(InitialForm(userEmail), 1, isAuthenticated)
    ensures !StepComplete(InitialForm(userEmail), 2, isAuthenticated)
  {
    assert "firstName" in ShippingFields && !Filled(InitialForm(userEmail), "firstName");
    assert "cardName" in PaymentFields && !Filled(InitialForm(userEmail), "cardName");
  }

  /** One entry of the order summary's list: the item and its line total, with no buttons. */
  datatype SummaryLine = SummaryLine(item: LineItem, lineTotal: real)

  /** `items.map(...)` in the order summary. */
  function SummaryLines(items: seq<LineItem>): (lines: seq<SummaryLine>)
    ensures |lines| == |items|
    ensures forall i :: 0 <= i < |items| ==>
      lines[i].item == items[i] && lines[i].lineTotal == items[i].price * items[i].quantity as real
  {
    seq(|items|, i requires 0 <= i < |items| => SummaryLine(items[i], items[i].price * items[i].quantity as real))
  }

  /** The checkout lists the same line totals as the cart page. */
  lemma SummaryLinesMatchCart(items: seq<LineItem>, i: int)
    requires 0 <= i < |items|
    ensures SummaryLines(items)[i].lineTotal == Lines(items)[i].lineTotal
    ensures SummaryLines(items)[i].item == Lines(items)[i].item
  {
  }

  datatype CheckoutView =
    | OrderCompleted(email: FieldValue)
    | CheckoutForm(step: int, processing: bool, lines: seq<SummaryLine>, summary: OrderSummary)

  class Checkout {
    /** Whether the auth context reports a signed-in user while the page is shown. */
    const isAuthenticated: bool
    var activeStep: int
    var formData: map<string, FieldValue>
    var isProcessing: bool
    var isOrderComplete: bool
    /** Payment timers started by a submit at step 2 that have not fired yet. */
    var pendingPayments: nat
    /** The calls this page has made to the cart store, oldest first. */
    var effects: seq<Effect>

    ghost predicate Valid()
      reads this
    {
      && (activeStep == 1 || activeStep == 2)
      && (isProcessing ==> pendingPayments > 0)
      && (isOrderComplete ==> !isProcessing)
    }

    constructor (isAuthenticated: bool, userEmail: Option<string>)
      ensures Valid()
      ensures this.isAuthenticated == isAuthenticated
      ensures activeStep == 1 && !isProcessing && !isOrderComplete
      ensures formData == InitialForm(userEmail)
      ensures pendingPayments == 0 && effects == []
    {
      this.isAuthenticated := isAuthenticated;
      activeStep := 1;
      formData := InitialForm(userEmail);
      isProcessing, isOrderComplete := false, false;
      pendingPayments := 0;
      effects := [];
    }

    /** The guard effect sends the visitor to `/cart` exactly when the cart is empty and no order
        has just been completed. */
    predicate RedirectsToCart(items: seq<LineItem>)
      reads this
    {
      |items| == 0 && !isOrderComplete
    }

    /** Pressing the submit button. With a required input of the current step empty the browser
        blocks the event and nothing changes. Otherwise `handleSubmit` runs: at step 1 it moves
        to step 2; at step 2 it starts processing and a payment timer (the button stays enabled
        while processing, so a second submit starts a second timer). */
    method Submit()
      requires Valid() && !isOrderComplete
      modifies this
      ensures Valid()
      ensures !StepComplete(old(formData), old(activeStep), isAuthenticated) ==>
        activeStep == old(activeStep) && isProcessing == old(isProcessing) && pendingPayments == old(pendingPayments)
      ensures StepComplete(old(formData), old(activeStep), isAuthenticated) && old(activeStep) == 1 ==>
        activeStep == 2 && isProcessing == old(isProcessing) && pendingPayments == old(pendingPayments)
      ensures StepComplete(old(formData), old(activeStep), isAuthenticated) && old(activeStep) == 2 ==>
        activeStep == 2 && isProcessing && pendingPayments == old(pendingPayments) + 1
      ensures !isOrderComplete && formData == old(formData) && effects == old(effects)
    {
      if !StepComplete(formData, activeStep, isAuthenticated) {
        return;
      }
      if activeStep == 1 {
        activeStep := 2;
      } else {
        isProcessing := true;
        pendingPayments := pendingPayments + 1;
      }
    }

    /** The payment timer's callback: processing ends, the order is complete and the cart is
        cleared. */
    method PaymentCompletes()
      requires Valid() && pendingPayments > 0
      modifies this
      ensures Valid()
      ensures !isProcessing && isOrderComplete
      ensures effects == old(effects) + [ClearCart]
      ensures pendingPayments == old(pendingPayments) - 1
      ensures activeStep == old(activeStep) && formData == old(formData)
      ensures forall items :: !RedirectsToCart(items)
    {
      isProcessing := false;
      isOrderComplete := true;
      effects := effects + [ClearCart];
      pendingPayments := pendingPayments - 1;
    }

    /** The "Back" button of step 2. */
    method Back()
      requires Valid() && !isOrderComplete
      modifies this`activeStep
      ensures Valid() && activeStep == 1
    {
      activeStep := 1;
    }

    /** `handleInputChange`: only the named field changes. */
    method InputChange(name: string, value: string, inputType: string, checked: bool)
      requires Valid()
      modifies this`formData
      ensures Valid()
      ensures formData == ChangeField(old(formData), name, value, inputType, checked)
    {
      formData := ChangeField(formData, name, value, inputType, checked);
    }

    /** What the page renders: the confirmation once complete, otherwise the current step with
        the order summary's lines and the same price summary as the cart page. */
    function View(items: seq<LineItem>, totalPrice: real): (v: CheckoutView)
      reads this
      ensures v.OrderCompleted? <==> isOrderComplete
      ensures v.OrderCompleted? ==> v.email == (if "email" in formData then formData["email"] else Text(""))
      ensures v.CheckoutForm? ==>
        v.step == activeStep && v.processing == isProcessing && v.summary == Summary(totalPrice)
        && v.lines == SummaryLines(items)
    {
      if isOrderComplete then OrderCompleted(if "email" in formData then formData["email"] else Text(""))
      else CheckoutForm(activeStep, isProcessing, SummaryLines(items), Summary(totalPrice))
    }

    /** Types a value into each named text input, in order. */
    method FillIn(names: seq<string>, value: string)
      requires Valid()
      modifies this`formData
      ensures Valid()
      ensures value != "" ==> forall f :: f in names ==> Filled(formData, f)
      ensures forall f :: f in old(formData) && f !in names ==> f in formData && formData[f] == old(formData)[f]
    {
      var k := 0;
      while k < |names|
        invariant 0 <= k <= |names|
        invariant Valid()
        invariant value != "" ==> forall f :: f in names[..k] ==> Filled(formData, f)
        invariant forall f :: f in old(formData) && f !in names ==> f in formData && formData[f] == old(formData)[f]
      {
        InputChange(names[k], value, "text", false);
        assert names[..k + 1] == names[..k] + [names[k]];
        k := k + 1;
      }
      assert names[..k] == names;
    }
  }

  /** On a fresh page the submit button does nothing until the shipping step is filled in. */
  method EmptyFormBlocked(isAuthenticated: bool, userEmail: Option<string>) returns (step: int, processing: bool)
    ensures step == 1 && !processing
  {
    var c := new Checkout(isAuthenticated, userEmail);
    InitialFormIncomplete(userEmail, isAuthenticated);
    c.Submit();
    step, processing := c.activeStep, c.isProcessing;
  }

  /** The whole happy path for a signed-out visitor: fill in and submit the shipping step, fill
      in and submit the payment step, let the timer fire. The order is complete, the store was
      asked once to clear the cart, and the emptied cart does not trigger the redirect. */
  method HappyPath() returns (complete: bool, effects: seq<Effect>, redirects: bool)
    ensures complete && effects == [ClearCart] && !redirects
  {
    var c := new Checkout(false, None);
    var step1 := ["email"] + ShippingFields;
    c.FillIn(step1, "x");
    ShippingStepFilled(c.formData, step1);
    c.Submit();
    c.FillIn(PaymentFields, "1");
    c.Submit();
    c.PaymentCompletes();
    complete, effects, redirects := c.isOrderComplete, c.effects, c.RedirectsToCart([]);
  }

  lemma ShippingStepFilled(form: map<string, FieldValue>, names: seq<string>)
    requires names == ["email"] + ShippingFields
    requires forall f :: f in names ==> Filled(form, f)
    ensures StepComplete(form, 1, false)
  {
    assert names[0] == "email";
    forall f | f in ShippingFields ensures Filled(form, f) {
      assert f in names;
    }
  }

  /** Going back from step 2 and submitting the filled-in shipping step again lands on step 2
      without starting a payment. */
  method BackAndResubmit() returns (step: int, processing: bool)
    ensures step == 2 && !processing
  {
    var c := new Checkout(true, Some("a@b.c"));
    c.FillIn(ShippingFields, "x");
    c.Submit();
    c.Back();
    c.Submit();
    step, processing := c.activeStep, c.isProcessing;
  }
}
