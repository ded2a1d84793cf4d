/** The calls the pages make into the cart store, the auth store and the router. Their
    implementations are not part of this model: a page's behaviour is the sequence of calls it
    makes and the arguments it passes. */
module Store {
  import opened Wrappers

  /** A cart line as the pages pass it to `addItem` and read it back from `items`. */
  datatype LineItem = LineItem(
    id: string,
    name: string,
    price: real,
    image: string,
    quantity: int,
    variant: Option<string>)

  datatype Effect =
    | AddItem(item: LineItem)
    | RemoveItem(id: string)
    | UpdateQuantity(id: string, quantity: int)
    | ClearCart
    | SetCartOpen(open: bool)
    | Navigate(path: string)
    | Logout
    | Register(email: string, password: string, name: string)
}
