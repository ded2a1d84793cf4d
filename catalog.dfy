/** The product records the pages display, and the static catalog they are rendered from. */
module Catalog {
  import opened Wrappers

  datatype VariantOption = VariantOption(caption: string, value: string)

  /** A product's `variants` field. The detail page reads it both as an array (to preselect its
      first entry) and as an object with `name` and `options` (to render the picker); the
      catalog's products use the object shape. */
  datatype Variants =
    | NoVariants
    | VariantList(entries: seq<VariantOption>)
    | VariantGroup(name: string, options: seq<VariantOption>)

  /** A catalog product. Absent optional flags read as `false`. */
  datatype Product = Product(
    id: string,
    name: string,
    price: real,
    image: string,
    rating: real,
    category: string,
    isNew: bool,
    isBestSeller: bool,
    gallery: Option<seq<string>>,
    variants: Variants)

  /** The sample catalog every page reads. */
  const MockProducts: seq<Product> := [
      Product("1", "Chocolate Chip Cookies", 9.99, "https://images.pexels.com/photos/230325/pexels-photo-230325.jpeg?auto=compress&cs=tinysrgb&dpr=2&h=750&w=1260",
              4.5, "snacks-sweet", true, false, Some(["https://images.pexels.com/photos/230325/pexels-photo-230325.jpeg?auto=compress&cs=tinysrgb&dpr=2&h=750&w=1260", "https://images.pexels.com/photos/6823409/pexels-photo-6823409.jpeg?auto=compress&cs=tinysrgb&dpr=2&h=750&w=1260", "https://images.pexels.com/photos/1028714/pexels-photo-1028714.jpeg?auto=compress&cs=tinysrgb&dpr=2&h=750&w=1260"]), VariantGroup("Size", [VariantOption("Small", "small"), VariantOption("Medium", "medium"), VariantOption("Large", "large")])),
      Product("2", "Mixed Nuts Premium", 12.99, "https://images.pexels.com/photos/1295572/pexels-photo-1295572.jpeg?auto=compress&cs=tinysrgb&dpr=2&h=750&w=1260",
              4.7, "snacks-savory", false, true, None, NoVariants),
      Product("3", "Potato Chips Sea Salt", 4.99, "https://images.pexels.com/photos/568805/pexels-photo-568805.jpeg?auto=compress&cs=tinysrgb&dpr=2&h=750&w=1260",
              4.2, "snacks-savory", false, false, None, NoVariants),
      Product("4", "Iced Coffee", 4.99, "https://images.pexels.com/photos/2638019/pexels-photo-2638019.jpeg?auto=compress&cs=tinysrgb&dpr=2&h=750&w=1260",
              4.3, "beverages-cold", false, true, None, NoVariants),
      Product("5", "Energy Drink", 3.50, "https://images.pexels.com/photos/2668308/pexels-photo-2668308.jpeg?auto=compress&cs=tinysrgb&dpr=2&h=750&w=1260",
              4.0, "beverages-cold", false, false, None, NoVariants),
      Product("6", "Hot Chocolate", 3.99, "https://images.pexels.com/photos/312418/pexels-photo-312418.jpeg?auto=compress&cs=tinysrgb&dpr=2&h=750&w=1260",
              4.6, "beverages-hot", true, false, None, NoVariants),
      Product("7", "Berry Smoothie", 6.99, "https://images.pexels.com/photos/1291712/pexels-photo-1291712.jpeg?auto=compress&cs=tinysrgb&dpr=2&h=750&w=1260",
              4.8, "beverages-cold", false, true, None, NoVariants),
      Product("8", "Caramel Popcorn", 5.49, "https://images.pexels.com/photos/33129/popcorn-movie-party-entertainment.jpg?auto=compress&cs=tinysrgb&dpr=2&h=750&w=1260",
              4.4, "snacks-sweet", false, false, None, NoVariants),
      Product("9", "Green Tea", 2.99, "https://images.pexels.com/photos/1417945/pexels-photo-1417945.jpeg?auto=compress&cs=tinysrgb&dpr=2&h=750&w=1260",
              4.1, "beverages-hot", false, false, None, NoVariants),
      Product("10", "Salted Pretzels", 3.99, "https://images.pexels.com/photos/959922/pexels-photo-959922.jpeg?auto=compress&cs=tinysrgb&dpr=2&h=750&w=1260",
              4.3, "snacks-savory", false, false, None, NoVariants),
      Product("11", "Chocolate Milkshake", 5.99, "https://images.pexels.com/photos/3625372/pexels-photo-3625372.jpeg?auto=compress&cs=tinysrgb&dpr=2&h=750&w=1260",
              4.7, "beverages-cold", false, false, None, NoVariants),
      Product("12", "Dark Chocolate Bar", 6.99, "https://images.pexels.com/photos/65882/chocolate-dark-coffee-confiserie-65882.jpeg?auto=compress&cs=tinysrgb&dpr=2&h=750&w=1260",
              4.5, "snacks-sweet", false, true, None, NoVariants)
    ]
}
