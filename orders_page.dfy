/** The order history: one expandable order at a time and a colour per order status. */
module OrdersPage {
  import opened Wrappers
  import opened Strings

  /** `toggleOrderDetails`: collapse the expanded order, or expand another one instead. */
  function Toggle(expanded: Option<string>, orderId: string): (r: Option<string>)
    ensures r == None <==> expanded == Some(orderId)
    ensures r != None ==> r == Some(orderId)
  {
    if expanded == Some(orderId) then None else Some(orderId)
  }

  /** Toggling the same order twice restores the state exactly when no order, or that order,
      was expanded; from another expanded order it ends with everything collapsed. */
  lemma ToggleTwiceIff(expanded: Option<string>, orderId: string)
    ensures Toggle(Toggle(expanded, orderId), orderId) == expanded <==>
      (expanded == None || expanded == Some(orderId))
    ensures expanded.Some? && expanded != Some(orderId) ==> Toggle(Toggle(expanded, orderId), orderId) == None
  {
  }

  /** The expanded order after a run of clicks, starting from none expanded. */
  function AfterClicks(clicks: seq<string>): Option<string>
    decreases |clicks|
  {
    if clicks == [] then None else Toggle(AfterClicks(clicks[..|clicks| - 1]), clicks[|clicks| - 1])
  }

  /** After any clicks, either nothing is expanded or the order last clicked is; the order is
      collapsed exactly when the last click hits it for an even-numbered time in a row. */
  lemma {:induction false} AfterClicksSpec(clicks: seq<string>)
    ensures AfterClicks(clicks) == None || (clicks != [] && AfterClicks(clicks) == Some(clicks[|clicks| - 1]))
    ensures AfterClicks(clicks) == None <==> Even(RunOfLast(clicks))
    decreases |clicks|
  {
    if clicks != [] {
      var init := clicks[..|clicks| - 1];
      AfterClicksSpec(init);
      if init != [] && init[|init| - 1] == clicks[|clicks| - 1] {
        assert RunOfLast(clicks) == RunOfLast(init) + 1;
      } else {
        assert RunOfLast(clicks) == 1;
        assert AfterClicks(init) != Some(clicks[|clicks| - 1]);
      }
    }
  }

  predicate Even(n: nat) { n % 2 == 0 }

  /** How many of the final clicks hit the same order as the last one. */
  function RunOfLast(clicks: seq<string>): nat
    decreases |clicks|
  {
    if clicks == [] then 0
    else if |clicks| >= 2 && clicks[|clicks| - 2] == clicks[|clicks| - 1] then RunOfLast(clicks[..|clicks| - 1]) + 1
    else 1
  }

  const Delivered := "bg-success text-white"
  const Shipped := "bg-accent-light text-white"
  const Processing := "bg-warning text-white"
  const Cancelled := "bg-error text-white"
  const Unknown := "bg-gray-600 text-white"

  /** `getStatusColor`: a `switch` over the lower-cased status. */
  function StatusColor(status: string): (color: string)
    ensures color in {Delivered, Shipped, Processing, Cancelled, Unknown}
  {
    var s := Lower(status);
    if s == "delivered" then Delivered
    else if s == "shipped" then Shipped
    else if s == "processing" then Processing
    else if s == "cancelled" then Cancelled
    else Unknown
  }

  /** The colour depends only on the lower-cased status. */
  lemma StatusCaseInsensitive(status: string)
    ensures StatusColor(status) == StatusColor(Lower(status))
  {
    LowerIdempotent(status);
  }

  /** Whatever its case, a status is grey exactly when it is none of the four known ones. */
  lemma StatusColorSpec(status: string)
    ensures StatusColor(status) == Unknown <==>
      Lower(status) !in {"delivered", "shipped", "processing", "cancelled"}
    ensures Lower(status) == "delivered" ==> StatusColor(status) == Delivered
    ensures Lower(status) == "shipped" ==> StatusColor(status) == Shipped
    ensures Lower(status) == "processing" ==> StatusColor(status) == Processing
    ensures Lower(status) == "cancelled" ==> StatusColor(status) == Cancelled
  {
  }

  lemma DeliveredExample()
    ensures StatusColor("Delivered") == Delivered
  {
    assert Lower("Delivered") == "delivered";
  }
}
