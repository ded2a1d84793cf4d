/** The order-summary rule shared by the cart page and the checkout page: free shipping from a
    subtotal of 50, a flat 5.99 below it, and 8% tax on the subtotal. Amounts are exact reals. */
module Pricing {

  datatype OrderSummary = OrderSummary(subtotal: real, shipping: real, tax: real, total: real)

  /** Free from 50 on, a flat 5.99 below. */
  function ShippingPrice(subtotal: real): (r: real)
    ensures r == 0.0 <==> subtotal >= 50.0
    ensures r == 0.0 || r == 5.99
  {
    if subtotal >= 50.0 then 0.0 else 5.99
  }

  /** 8% of the subtotal. */
  function TaxPrice(subtotal: real): (r: real)
    ensures subtotal >= 0.0 ==> 0.0 <= r <= subtotal
    ensures r * 12.5 == subtotal
  {
    subtotal * 0.08
  }

  /** The summary block for a cart whose `totalPrice` is `subtotal`. */
  function Summary(subtotal: real): OrderSummary {
    var shipping := ShippingPrice(subtotal);
    var tax := TaxPrice(subtotal);
    OrderSummary(subtotal, shipping, tax, subtotal + shipping + tax)
  }

  /** Shipping is free exactly from 50 on, tax is 8%, and the grand total is the sum of the three
      lines: so it is 108% of the subtotal, plus 5.99 below the threshold. */
  lemma SummaryRule(subtotal: real)
    ensures Summary(subtotal).subtotal == subtotal
    ensures Summary(subtotal).shipping == 0.0 <==> subtotal >= 50.0
    ensures subtotal < 50.0 ==> Summary(subtotal).shipping == 5.99
    ensures Summary(subtotal).tax == subtotal * 0.08
    ensures Summary(subtotal).total
      == Summary(subtotal).subtotal + Summary(subtotal).shipping + Summary(subtotal).tax
    ensures Summary(subtotal).total == subtotal * 1.08 + (if subtotal >= 50.0 then 0.0 else 5.99)
  {
  }

  /** For a non-negative subtotal the grand total is at least the subtotal, and positive. */
  lemma TotalCoversSubtotal(subtotal: real)
    requires subtotal >= 0.0
    ensures Summary(subtotal).total >= subtotal
    ensures Summary(subtotal).total > 0.0
  {
  }

  /** The grand total is not monotone in the subtotal: just below the free-shipping threshold
      (from 45 on) an order costs more than one of exactly 50. */
  lemma ThresholdLowersTotal(subtotal: real)
    requires 45.0 <= subtotal < 50.0
    ensures Summary(subtotal).total > Summary(50.0).total
  {
  }

  /** Above the threshold, and separately below it, a larger subtotal costs more. */
  lemma TotalMonotoneWithinBands(a: real, b: real)
    requires a <= b
    requires (a >= 50.0) == (b >= 50.0)
    ensures Summary(a).total <= Summary(b).total
  {
  }
}

/** One rendered cart line with its quantity stepper and remove button, as both the cart page
    and the cart sidebar build it for each entry of `items`. */
module CartLines {
  import opened Store

  function Max(a: int, b: int): int { if a >= b then a else b }

  /** The "-" button: `updateQuantity(item.id, Math.max(1, item.quantity - 1))`. */
  function DecreaseRequest(item: LineItem): (e: Effect)
    ensures e.UpdateQuantity? && e.id == item.id
    ensures e.quantity >= 1
    ensures item.quantity >= 2 ==> e.quantity == item.quantity - 1
    ensures item.quantity <= 1 ==> e.quantity == 1
  {
    UpdateQuantity(item.id, Max(1, item.quantity - 1))
  }

  /** The "+" button: `updateQuantity(item.id, item.quantity + 1)`. */
  function IncreaseRequest(item: LineItem): (e: Effect)
    ensures e.UpdateQuantity? && e.id == item.id
    ensures e.quantity == item.quantity + 1
    ensures DecreaseRequest(item.(quantity := e.quantity)).quantity == Max(1, item.quantity)
  {
    UpdateQuantity(item.id, item.quantity + 1)
  }

  /** The remove button: `removeItem(item.id)`, by id alone. */
  function RemoveRequest(item: LineItem): (e: Effect)
    ensures e.RemoveItem? && e.id == item.id
  {
    RemoveItem(item.id)
  }

  /** On a quantity of at least 1, "+" and then "-" request the quantity the line started with;
      on 1, "-" requests 1 again rather than 0. */
  lemma StepperRoundTrip(item: LineItem)
    requires item.quantity >= 1
    ensures DecreaseRequest(item.(quantity := IncreaseRequest(item).quantity)).quantity == item.quantity
    ensures item.quantity == 1 ==> DecreaseRequest(item).quantity == item.quantity
  {
  }

  /** Lines that differ only in their variant ask for the same removal, so removing one entry of a
      product asks the store to remove them all. */
  lemma RemoveIgnoresVariant(a: LineItem, b: LineItem)
    requires a.id == b.id
    ensures RemoveRequest(a) == RemoveRequest(b)
  {
  }

  datatype CartLine = CartLine(
    item: LineItem,
    lineTotal: real,
    onDecrease: Effect,
    onIncrease: Effect,
    onRemove: Effect)

  function Line(item: LineItem): CartLine {
    CartLine(item, item.price * item.quantity as real,
      DecreaseRequest(item), IncreaseRequest(item), RemoveRequest(item))
  }

  /** `items.map(...)`: one line per entry, in the cart's order. */
  function Lines(items: seq<LineItem>): (lines: seq<CartLine>)
    ensures |lines| == |items|
    ensures forall i :: 0 <= i < |items| ==> lines[i] == Line(items[i])
  {
    seq(|items|, i requires 0 <= i < |items| => Line(items[i]))
  }

  /** What every rendered line shows and asks for. */
  lemma LinesSpec(items: seq<LineItem>, i: int)
    requires 0 <= i < |items|
    ensures Lines(items)[i].item == items[i]
    ensures Lines(items)[i].lineTotal == items[i].price * items[i].quantity as real
    ensures Lines(items)[i].onDecrease == UpdateQuantity(items[i].id, if items[i].quantity >= 2 then items[i].quantity - 1 else 1)
    ensures Lines(items)[i].onIncrease == UpdateQuantity(items[i].id, items[i].quantity + 1)
    ensures Lines(items)[i].onRemove == RemoveItem(items[i].id)
  {
  }
}

/** The cart page: the empty view, or the lines and the order summary. */
module CartPage {
  import opened Store
  import opened Pricing
  import opened CartLines

  datatype CartView =
    | EmptyCart
    | ItemList(lines: seq<CartLine>, summary: OrderSummary)

  function View(items: seq<LineItem>, totalPrice: real): (v: CartView)
    ensures v.EmptyCart? <==> |items| == 0
    ensures v.ItemList? ==> v.lines == Lines(items) && v.summary == Summary(totalPrice)
  {
    if |items| == 0 then EmptyCart else ItemList(Lines(items), Summary(totalPrice))
  }

  /** No button of the cart page asks for a quantity below 1, and each asks about its own line. */
  lemma ViewRequestsPositive(items: seq<LineItem>, totalPrice: real, i: int)
    requires View(items, totalPrice).ItemList?
    requires 0 <= i < |View(items, totalPrice).lines|
    ensures View(items, totalPrice).lines[i].onDecrease.quantity >= 1
    ensures View(items, totalPrice).lines[i].onIncrease.quantity == items[i].quantity + 1
    ensures View(items, totalPrice).lines[i].onRemove == RemoveItem(items[i].id)
  {
  }
}

/** The slide-over cart: the same lines as the cart page, a subtotal footer only when there is
    something in the cart, and buttons that close the panel before navigating. */
module CartSidebar {
  import opened Store
  import opened CartLines
  import CartPage

  datatype SidebarView =
    | SidebarClosed
    | SidebarEmpty
    | SidebarItems(lines: seq<CartLine>, subtotal: real)

  /** Nothing while the panel is closed; once open, the empty view exactly when the cart is
      empty, otherwise the lines and the subtotal footer. */
  function View(isCartOpen: bool, items: seq<LineItem>, totalPrice: real): (v: SidebarView)
    ensures v.SidebarClosed? <==> !isCartOpen
    ensures v.SidebarEmpty? <==> isCartOpen && |items| == 0
    ensures v.SidebarItems? ==> v.lines == Lines(items) && v.subtotal == totalPrice
  {
    if !isCartOpen then SidebarClosed
    else if |items| == 0 then SidebarEmpty
    else SidebarItems(Lines(items), totalPrice)
  }

  /** `handleCheckout`: close the panel, then go to the checkout page. */
  function HandleCheckout(): (effects: seq<Effect>)
    ensures |effects| == 2
    ensures effects[0] == SetCartOpen(false) && effects[1] == Navigate("/checkout")
  {
    [SetCartOpen(false), Navigate("/checkout")]
  }

  /** The empty view's "Browse Products" button: close the panel, then go to the listing. */
  function BrowseProducts(): (effects: seq<Effect>)
    ensures |effects| == 2
    ensures effects[0] == SetCartOpen(false) && effects[1] == Navigate("/products")
  {
    [SetCartOpen(false), Navigate("/products")]
  }

  /** The sidebar's lines are the cart page's lines: both ask the store for the same things. */
  lemma SameLinesAsCartPage(items: seq<LineItem>, totalPrice: real)
    requires |items| > 0
    ensures View(true, items, totalPrice).lines == CartPage.View(items, totalPrice).lines
  {
  }
}
