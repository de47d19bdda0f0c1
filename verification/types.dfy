/** The records of the store (src/types/index.ts), the `Omit<T, 'id'>`
    drafts the add operations take, and the `Partial<T>` patches the update
    operations merge with object spread (`{ ...old, ...patch }`).

    A patch field is `None` when the patch lacks the key and `Some(v)` when
    it has it. For an optional field `v` is itself an `Option`: spread copies
    a key that holds `undefined`, so `Some(None)` clears the field. */
module Types {
  import opened Wrappers

  /** Spread of one key: the patch's value when it has the key. */
  function Over<T>(was: T, patch: Option<T>): T
  {
    patch.GetOr(was)
  }

  /** Spread of two patches one after the other: the later one wins on the
      keys it has. */
  function Later<T>(first: Option<T>, second: Option<T>): Option<T>
  {
    if second.Some? then second else first
  }

  /** Spreading a patch onto a value is the same as spreading the two
      patches of which it is the combination, one after the other. */
  lemma OverLater<T>(x: T, first: Option<T>, second: Option<T>)
    ensures Over(Over(x, first), second) == Over(x, Later(first, second))
  {
  }

  /** A wholesale price: from `minQuantity` units on, each unit costs
      `price` cents. */
  datatype Tier = Tier(minQuantity: int, price: int)

  /** A product; `price` is in cents. */
  datatype Product = Product(
    id: string,
    name: string,
    description: string,
    price: int,
    image: string,
    category: string,
    preparationTime: string,
    stock: int,
    isPromo: Option<bool>,
    promoText: Option<string>,
    wholesaleTiers: Option<seq<Tier>>)

  /** `Omit<Product, 'id'>`. */
  datatype ProductDraft = ProductDraft(
    name: string,
    description: string,
    price: int,
    image: string,
    category: string,
    preparationTime: string,
    stock: int,
    isPromo: Option<bool>,
    promoText: Option<string>,
    wholesaleTiers: Option<seq<Tier>>)

  /** The draft a product was made from: the product without its id. */
  function DraftOf(p: Product): ProductDraft
  {
    ProductDraft(p.name, p.description, p.price, p.image, p.category, p.preparationTime,
                 p.stock, p.isPromo, p.promoText, p.wholesaleTiers)
  }

  /** `{ ...draft, id }`: a draft given an id, which the draft gets back
      unchanged by DraftOf. */
  function WithId(d: ProductDraft, id: string): (p: Product)
    ensures p.id == id && DraftOf(p) == d
  {
    Product(id, d.name, d.description, d.price, d.image, d.category, d.preparationTime,
            d.stock, d.isPromo, d.promoText, d.wholesaleTiers)
  }

  /** `Partial<Product>`. */
  datatype ProductPatch = ProductPatch(
    id: Option<string>,
    name: Option<string>,
    description: Option<string>,
    price: Option<int>,
    image: Option<string>,
    category: Option<string>,
    preparationTime: Option<string>,
    stock: Option<int>,
    isPromo: Option<Option<bool>>,
    promoText: Option<Option<string>>,
    wholesaleTiers: Option<Option<seq<Tier>>>)

  /** `{ ...p, ...patch }`. */
  function MergeProduct(p: Product, patch: ProductPatch): (r: Product)
    ensures patch.id.None? ==> r.id == p.id
    ensures patch.id.Some? ==> r.id == patch.id.value
  {
    Product(
      Over(p.id, patch.id),
      Over(p.name, patch.name),
      Over(p.description, patch.description),
      Over(p.price, patch.price),
      Over(p.image, patch.image),
      Over(p.category, patch.category),
      Over(p.preparationTime, patch.preparationTime),
      Over(p.stock, patch.stock),
      Over(p.isPromo, patch.isPromo),
      Over(p.promoText, patch.promoText),
      Over(p.wholesaleTiers, patch.wholesaleTiers))
  }

  /** `{ ...first, ...second }` for two product patches. */
  function ThenProduct(first: ProductPatch, second: ProductPatch): ProductPatch
  {
    ProductPatch(
      Later(first.id, second.id),
      Later(first.name, second.name),
      Later(first.description, second.description),
      Later(first.price, second.price),
      Later(first.image, second.image),
      Later(first.category, second.category),
      Later(first.preparationTime, second.preparationTime),
      Later(first.stock, second.stock),
      Later(first.isPromo, second.isPromo),
      Later(first.promoText, second.promoText),
      Later(first.wholesaleTiers, second.wholesaleTiers))
  }

  /** The patch with no keys. */
  const NoProductChange := ProductPatch(None, None, None, None, None, None, None, None, None, None, None)

  /** Merging the empty patch changes nothing; merging the same patch twice
      equals merging it once; two merges in a row are one merge of the
      combined patch. */
  lemma MergeProductLaws(p: Product, a: ProductPatch, b: ProductPatch)
    ensures MergeProduct(p, NoProductChange) == p
    ensures MergeProduct(MergeProduct(p, a), a) == MergeProduct(p, a)
    ensures MergeProduct(MergeProduct(p, a), b) == MergeProduct(p, ThenProduct(a, b))
  {
  }

  /** A product category; products refer to it by `slug`. */
  datatype Category = Category(id: string, name: string, slug: string)

  /** `Omit<Category, 'id'>`. */
  datatype CategoryDraft = CategoryDraft(name: string, slug: string)

  /** `Partial<Category>`. */
  datatype CategoryPatch = CategoryPatch(id: Option<string>, name: Option<string>, slug: Option<string>)

  /** `{ ...draft, id }`. */
  function CategoryWithId(d: CategoryDraft, id: string): (c: Category)
    ensures c.id == id && CategoryDraft(c.name, c.slug) == d
  {
    Category(id, d.name, d.slug)
  }

  /** `{ ...c, ...patch }`. */
  function MergeCategory(c: Category, patch: CategoryPatch): (r: Category)
    ensures patch.id.None? ==> r.id == c.id
    ensures patch.id.Some? ==> r.id == patch.id.value
  {
    Category(Over(c.id, patch.id), Over(c.name, patch.name), Over(c.slug, patch.slug))
  }

  /** Merging the same category patch twice equals merging it once. */
  lemma MergeCategoryTwice(c: Category, patch: CategoryPatch)
    ensures MergeCategory(MergeCategory(c, patch), patch) == MergeCategory(c, patch)
  {
  }

  datatype SocialLinks = SocialLinks(instagram: Option<string>, facebook: Option<string>, whatsapp: Option<string>)

  /** The configuration of the one store. */
  datatype Store = Store(
    id: string,
    name: string,
    slug: string,
    banner: Option<string>,
    themeColor: string,
    deliveryInfo: Option<string>,
    phone: Option<string>,
    socialLinks: Option<SocialLinks>)

  /** `Partial<Store>`; the spread is shallow, so a patch with `socialLinks`
      replaces all three links at once. */
  datatype StorePatch = StorePatch(
    id: Option<string>,
    name: Option<string>,
    slug: Option<string>,
    banner: Option<Option<string>>,
    themeColor: Option<string>,
    deliveryInfo: Option<Option<string>>,
    phone: Option<Option<string>>,
    socialLinks: Option<Option<SocialLinks>>)

  /** `{ ...s, ...patch }`. */
  function MergeStore(s: Store, patch: StorePatch): (r: Store)
    ensures patch.id.None? ==> r.id == s.id
    ensures patch.id.Some? ==> r.id == patch.id.value
  {
    Store(
      Over(s.id, patch.id),
      Over(s.name, patch.name),
      Over(s.slug, patch.slug),
      Over(s.banner, patch.banner),
      Over(s.themeColor, patch.themeColor),
      Over(s.deliveryInfo, patch.deliveryInfo),
      Over(s.phone, patch.phone),
      Over(s.socialLinks, patch.socialLinks))
  }

  /** `{ ...first, ...second }` for two store patches. */
  function ThenStore(first: StorePatch, second: StorePatch): StorePatch
  {
    StorePatch(
      Later(first.id, second.id),
      Later(first.name, second.name),
      Later(first.slug, second.slug),
      Later(first.banner, second.banner),
      Later(first.themeColor, second.themeColor),
      Later(first.deliveryInfo, second.deliveryInfo),
      Later(first.phone, second.phone),
      Later(first.socialLinks, second.socialLinks))
  }

  /** The patch with no keys. */
  const NoStoreChange := StorePatch(None, None, None, None, None, None, None, None)

  /** Merging the empty patch changes nothing; merging the same patch twice
      equals merging it once; two merges in a row are one merge of the
      combined patch. */
  lemma MergeStoreLaws(s: Store, a: StorePatch, b: StorePatch)
    ensures MergeStore(s, NoStoreChange) == s
    ensures MergeStore(MergeStore(s, a), a) == MergeStore(s, a)
    ensures MergeStore(MergeStore(s, a), b) == MergeStore(s, ThenStore(a, b))
  {
  }

  /** A product in a basket, with how many units. */
  datatype CartItem = CartItem(product: Product, quantity: int)

  datatype OrderStatus = Pending | Preparing | Ready | Delivered | Cancelled
  {
    /** The string the source stores for the status. */
    function Name(): string
    {
      match this
      case Pending => "pending"
      case Preparing => "preparing"
      case Ready => "ready"
      case Delivered => "delivered"
      case Cancelled => "cancelled"
    }
  }

  /** An order; `subtotal` is in cents. */
  datatype Order = Order(
    id: string,
    customerName: string,
    phone: string,
    address: Option<string>,
    items: seq<CartItem>,
    subtotal: int,
    status: OrderStatus,
    createdAt: string,
    observations: Option<string>)
}
