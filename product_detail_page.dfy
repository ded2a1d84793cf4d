/** The product detail page: the lookup by route id, the default variant, the quantity picker,
    the add-to-cart payload and the image gallery. Its rating stars follow `ProductCard`. */
module ProductDetailPage {
  import opened Wrappers
  import opened Catalog
  import opened Store
  import opened Seqs
  import ProductCard

  /** `mockProducts.find(p => p.id === id)`. */
  function FindById(catalog: seq<Product>, id: string): (r: Option<Product>)
    ensures r.None? <==> forall i :: 0 <= i < |catalog| ==> catalog[i].id != id
    ensures r.Some? ==> r.value.id == id && exists i :: (0 <= i < |catalog| && catalog[i] == r.value
      && forall j :: 0 <= j < i ==> catalog[j].id != id)
  {
    Find(catalog, (p: Product) => p.id == id)
  }

  /** The variant the fetch preselects: the first entry's value when `variants` is a non-empty
      array. An object-shaped `variants` has no `length`, so nothing is preselected for it. */
  function DefaultVariant(p: Product): (v: Option<string>)
    ensures v.Some? <==> p.variants.VariantList? && |p.variants.entries| > 0
    ensures v.Some? ==> v.value == p.variants.entries[0].value
  {
    match p.variants
    case VariantList(entries) => if |entries| > 0 then Some(entries[0].value) else None
    case _ => None
  }

  /** No catalog product uses the array shape, so none gets a preselected variant. */
  lemma CatalogPreselectsNothing(p: Product)
    requires p in MockProducts
    ensures DefaultVariant(p) == None
  {
  }

  /** `handleQuantityChange`: `Math.max(1, n)`. */
  function ClampQuantity(n: int): (q: int)
    ensures q >= 1
    ensures n >= 1 ==> q == n
    ensures n < 1 ==> q == 1
  {
    if n >= 1 then n else 1
  }

  /** The detail page's `addItem` payload: the chosen quantity, and the selected variant when
      one is selected (the empty selection is sent as no variant). */
  function DetailPayload(p: Product, quantity: int, selectedVariant: string): (item: LineItem)
    ensures item.id == p.id && item.name == p.name && item.price == p.price && item.image == p.image
    ensures item.quantity == quantity
    ensures item.variant.None? <==> selectedVariant == ""
    ensures item.variant.Some? ==> item.variant.value == selectedVariant
  {
    LineItem(p.id, p.name, p.price, p.image, quantity, if selectedVariant == "" then None else Some(selectedVariant))
  }

  /** Adding one with no variant chosen sends what the product tile's quick-add sends. */
  lemma DetailAgreesWithQuickAdd(p: Product)
    ensures DetailPayload(p, 1, "") == ProductCard.QuickAddPayload(p)
  {
  }

  /** `[product.image, ...product.gallery || []]`. */
  function GalleryImages(p: Product): (images: seq<string>)
    ensures |images| >= 1 && images[0] == p.image
    ensures images[1..] == p.gallery.GetOr([])
  {
    [p.image] + p.gallery.GetOr([])
  }

  /** The thumbnail strip appears exactly when the product has a non-empty gallery. */
  lemma ThumbnailsIff(p: Product)
    ensures |GalleryImages(p)| > 1 <==> p.gallery.Some? && |p.gallery.value| > 0
  {
    assert GalleryImages(p)[1..] == p.gallery.GetOr([]);
  }

  /** `galleryImages[selectedImage]`: the main image, or none when the index is past the end
      of this product's gallery (the index is kept when the route moves to another product). */
  function MainImage(p: Product, selectedImage: int): (src: Option<string>)
    ensures src.Some? <==> 0 <= selectedImage < |GalleryImages(p)|
    ensures src.Some? ==> src.value == GalleryImages(p)[selectedImage]
  {
    if 0 <= selectedImage < |GalleryImages(p)| then Some(GalleryImages(p)[selectedImage]) else None
  }

  /** The first image, the product's own, is always there to show. */
  lemma FirstImageShown(p: Product)
    ensures MainImage(p, 0) == Some(p.image)
  {
  }

  class ProductDetail {
    var loading: bool
    var product: Option<Product>
    var selectedVariant: string
    var quantity: int
    var selectedImage: int
    /** The calls this page has made to the cart store, oldest first. */
    var effects: seq<Effect>

    /** The quantity never drops below one, and every call the page has made is an `addItem`
        for at least one item. */
    ghost predicate Valid()
      reads this
    {
      && quantity >= 1
      && forall e :: e in effects ==> e.AddItem? && e.item.quantity >= 1
    }

    constructor ()
      ensures Valid()
      ensures loading && product == None && selectedVariant == ""
      ensures quantity == 1 && selectedImage == 0 && effects == []
    {
      loading, product, selectedVariant := true, None, "";
      quantity, selectedImage := 1, 0;
      effects := [];
    }

    /** The fetch effect starts (again, when the route id changes): the page shows its
        placeholder. */
    method StartFetch()
      modifies this`loading
      ensures loading
    {
      loading := true;
    }

    /** The fetch timer's callback. A product with the route id replaces the current one and
        may preselect a variant; without one, `product` and the selection are left as they were.
        Loading ends either way. */
    method FetchCompletes(catalog: seq<Product>, id: string)
      requires Valid()
      modifies this`product, this`selectedVariant, this`loading
      ensures Valid() && !loading
      ensures product == (if FindById(catalog, id).Some? then FindById(catalog, id) else old(product))
      ensures selectedVariant ==
        if FindById(catalog, id).Some? && DefaultVariant(FindById(catalog, id).value).Some?
        then DefaultVariant(FindById(catalog, id).value).value
        else old(selectedVariant)
    {
      var found := FindById(catalog, id);
      if found.Some? {
        product := found;
        var v := DefaultVariant(found.value);
        if v.Some? {
          selectedVariant := v.value;
        }
      }
      loading := false;
    }

    /** `handleQuantityChange(n)`. */
    method QuantityChange(n: int)
      requires Valid()
      modifies this`quantity
      ensures Valid() && quantity == ClampQuantity(n)
    {
      quantity := ClampQuantity(n);
    }

    /** The "-" button asks for one less and is disabled at 1; the "+" button asks for one more. */
    method Decrement()
      requires Valid() && quantity > 1
      modifies this`quantity
      ensures Valid() && quantity == old(quantity) - 1
    {
      QuantityChange(quantity - 1);
    }

    method Increment()
      requires Valid()
      modifies this`quantity
      ensures Valid() && quantity == old(quantity) + 1
    {
      QuantityChange(quantity + 1);
    }

    method SelectVariant(value: string)
      modifies this`selectedVariant
      ensures selectedVariant == value
    {
      selectedVariant := value;
    }

    /** A gallery thumbnail (or, on mobile, a dot) selects its image by index. */
    method SelectImage(index: int)
      requires product.Some? && 0 <= index < |GalleryImages(product.value)|
      modifies this`selectedImage
      ensures selectedImage == index
      ensures MainImage(product.value, selectedImage) == Some(GalleryImages(product.value)[index])
    {
      selectedImage := index;
    }

    /** `handleAddToCart`: one `addItem` call when a product is shown, nothing otherwise. */
    method AddToCart()
      requires Valid()
      modifies this`effects
      ensures Valid()
      ensures product.Some? ==> effects == old(effects) + [AddItem(DetailPayload(product.value, quantity, selectedVariant))]
      ensures product.None? ==> effects == old(effects)
    {
      if product.Some? {
        effects := effects + [AddItem(DetailPayload(product.value, quantity, selectedVariant))];
      }
    }
  }

  /** On a fresh page, a route id the catalog lacks leaves no product, and adding to the cart
      then asks the store for nothing. */
  method MissingProduct(catalog: seq<Product>, id: string) returns (loading: bool, found: bool, effects: seq<Effect>)
    requires forall i :: 0 <= i < |catalog| ==> catalog[i].id != id
    ensures !loading && !found && effects == []
  {
    var page := new ProductDetail();
    page.FetchCompletes(catalog, id);
    page.AddToCart();
    loading, found, effects := page.loading, page.product.Some?, page.effects;
  }

  /** What a visitor can do on the page: a (re)fetch for a route id, the quantity handler with
      any number, the "-" and "+" buttons, a variant choice, a thumbnail, and "Add to Cart". */
  datatype Action =
    | Fetch(id: string)
    | ChangeQuantity(n: int)
    | Minus
    | Plus
    | PickVariant(value: string)
    | PickImage(index: int)
    | Add

  /** However the page is used, in any order and any number of times, every call it sends to
      the cart store is an `addItem` asking for at least one item. A disabled "-" button and a
      thumbnail the product does not show do nothing. */
  method QuantityAlwaysPositive(catalog: seq<Product>, actions: seq<Action>) returns (effects: seq<Effect>)
    ensures forall e :: e in effects ==> e.AddItem? && e.item.quantity >= 1
  {
    var page := new ProductDetail();
    var i := 0;
    while i < |actions|
      invariant 0 <= i <= |actions|
      invariant page.Valid()
    {
      match actions[i] {
        case Fetch(id) =>
          page.StartFetch();
          page.FetchCompletes(catalog, id);
        case ChangeQuantity(n) => page.QuantityChange(n);
        case Minus =>
          if page.quantity > 1 {
            page.Decrement();
          }
        case Plus => page.Increment();
        case PickVariant(value) => page.SelectVariant(value);
        case PickImage(index) =>
          if page.product.Some? && 0 <= index < |GalleryImages(page.product.value)| {
            page.SelectImage(index);
          }
        case Add => page.AddToCart();
      }
      i := i + 1;
    }
    effects := page.effects;
  }
}
