/** The dashboard's product form (src/components/dashboard/ProductForm.tsx):
    its form state, the pending wholesale tier and the tier list, the tier
    handlers, and the submit that validates the form, builds the product
    record and hands it to the store state manager.

    Text inputs that the handlers parse are given here already parsed: a
    number field is `None` when its text is empty or does not parse. */
module ProductForm {
  import opened Wrappers
  import opened Types
  import Collections
  import StoreContext

  /** `Math.round`: the nearest integer, halves going up. */
  function Round(x: real): (n: int)
    ensures n as real - 0.5 <= x < n as real + 0.5
  {
    (x + 0.5).Floor
  }

  /** Rounding a whole number gives it back. */
  lemma RoundWhole(n: int)
    ensures Round(n as real) == n
  {
  }

  /** A price shown in reais, `price / 100`, turns back into the same
      number of cents when the form multiplies by 100 and rounds. */
  lemma CentsRoundTrip(cents: int)
    ensures Round((cents as real / 100.0) * 100.0) == cents
  {
    assert (cents as real / 100.0) * 100.0 == cents as real;
    RoundWhole(cents);
  }

  /** The form fields. `price` is `None` while its text is empty; `stock`
      is the parsed stock field. */
  datatype FormData = FormData(
    name: string,
    description: string,
    price: Option<real>,
    category: string,
    preparationTime: string,
    stock: int,
    image: string,
    isPromo: bool,
    promoText: string)

  /** The pending tier: the parsed quantity and price fields, `None` when
      the text is empty or does not parse. */
  datatype TierInput = TierInput(minQuantity: Option<int>, price: Option<real>)

  /** Both pending tier fields empty. */
  const EmptyTier := TierInput(None, None)

  /** The form state the component starts with: the product's fields when
      it edits one (its price in reais, a missing promotion flag as false
      and a missing promotion text as empty), empty fields otherwise. */
  function InitialForm(product: Option<Product>): (f: FormData)
    ensures product.None? ==> f == FormData("", "", None, "", "", 0, "", false, "")
    ensures product.Some? ==> f.price.Some? && Round(f.price.value * 100.0) == product.value.price
  {
    match product
    case None => FormData("", "", None, "", "", 0, "", false, "")
    case Some(p) =>
      CentsRoundTrip(p.price);
      FormData(p.name, p.description, Some(p.price as real / 100.0), p.category, p.preparationTime,
               p.stock, p.image, p.isPromo.GetOr(false), p.promoText.GetOr(""))
  }

  /** The tier list the component starts with. */
  function InitialTiers(product: Option<Product>): seq<Tier>
  {
    if product.Some? && product.value.wholesaleTiers.Some? then product.value.wholesaleTiers.value else []
  }

  /** The guard of `addWholesaleTier`: a positive quantity and a positive
      price; a field that is empty or does not parse fails it. */
  predicate AcceptsTier(input: TierInput)
  {
    && input.minQuantity.Some? && input.minQuantity.value > 0
    && input.price.Some? && input.price.value > 0.0
  }

  /** The tier an accepted input adds, its price rounded to cents. */
  function TierOf(input: TierInput): (t: Tier)
    requires AcceptsTier(input)
    ensures t.minQuantity == input.minQuantity.value > 0
    ensures t.price >= 0
    ensures t.price as real - 0.5 <= input.price.value * 100.0 < t.price as real + 0.5
  {
    Tier(input.minQuantity.value, Round(input.price.value * 100.0))
  }

  /** The guard takes a minimum quantity of one: the `min="2"` of the
      quantity field is only a hint to the browser. */
  lemma TierGuardTakesOne(price: real)
    requires price > 0.0
    ensures AcceptsTier(TierInput(Some(1), Some(price)))
    ensures TierOf(TierInput(Some(1), Some(price))).minQuantity == 1
  {
  }

  /** The guard looks at the price before rounding, so a positive price
      below half a cent gives a tier that costs nothing. */
  lemma TierPriceCanRoundToZero(input: TierInput)
    requires input == TierInput(Some(2), Some(0.004))
    ensures AcceptsTier(input) && TierOf(input).price == 0
  {
  }

  /** The required fields of `handleSubmit`: name, description, price and
      category all filled in. */
  predicate IsComplete(f: FormData)
  {
    f.name != [] && f.description != [] && f.price.Some? && f.category != []
  }

  /** `productData`: the record the submit builds from a complete form. The
      tier key is there but undefined when the list is empty. */
  function ProductData(f: FormData, tiers: seq<Tier>): (d: ProductDraft)
    requires IsComplete(f)
    ensures d.name == f.name && d.description == f.description && d.category == f.category
    ensures d.image == f.image && d.preparationTime == f.preparationTime && d.stock == f.stock
    ensures d.price == Round(f.price.value * 100.0)
    ensures d.isPromo == Some(f.isPromo) && d.promoText == Some(f.promoText)
    ensures d.wholesaleTiers == None <==> tiers == []
    ensures tiers != [] ==> d.wholesaleTiers == Some(tiers)
  {
    ProductDraft(f.name, f.description, Round(f.price.value * 100.0), f.image, f.category,
                 f.preparationTime, f.stock, Some(f.isPromo), Some(f.promoText),
                 if |tiers| > 0 then Some(tiers) else None)
  }

  /** The same record used as a patch: every key but `id` is present. */
  function PatchOf(d: ProductDraft): (patch: ProductPatch)
    ensures patch.id.None?
    ensures forall p: Product {:trigger MergeProduct(p, patch)} :: MergeProduct(p, patch) == WithId(d, p.id)
  {
    ProductPatch(None, Some(d.name), Some(d.description), Some(d.price), Some(d.image),
                 Some(d.category), Some(d.preparationTime), Some(d.stock), Some(d.isPromo),
                 Some(d.promoText), Some(d.wholesaleTiers))
  }

  /** What a submit asks of the store state manager. */
  datatype Submission =
    | Rejected
    | Create(draft: ProductDraft)
    | Update(id: string, patch: ProductPatch)

  /** `handleSubmit`: an incomplete form is rejected; otherwise the record
      is added when the form creates a product and merged into the edited
      product, by its id, when it edits one. */
  function Submit(product: Option<Product>, f: FormData, tiers: seq<Tier>): (s: Submission)
    ensures s.Rejected? <==> !IsComplete(f)
    ensures s.Create? <==> IsComplete(f) && product.None?
    ensures s.Update? ==> product.Some? && s.id == product.value.id && s.patch.id.None?
    ensures s.Create? ==> s.draft == ProductData(f, tiers)
    ensures s.Update? ==> s.patch == PatchOf(ProductData(f, tiers))
  {
    if !IsComplete(f) then Rejected
    else if product.None? then Create(ProductData(f, tiers))
    else Update(product.value.id, PatchOf(ProductData(f, tiers)))
  }

  /** Submitting an edit with no tiers clears the product's tiers, since
      the patch carries the tier key as undefined. */
  lemma SubmitWithoutTiersClears(p: Product, f: FormData, q: Product)
    requires IsComplete(f)
    ensures Submit(Some(p), f, []).Update?
    ensures MergeProduct(q, Submit(Some(p), f, []).patch).wholesaleTiers == None
  {
  }

  /** An edit gives the edited product exactly the submitted fields and
      keeps its id. */
  lemma SubmitEditResult(p: Product, f: FormData, tiers: seq<Tier>)
    requires IsComplete(f)
    ensures Submit(Some(p), f, tiers).Update?
    ensures MergeProduct(p, Submit(Some(p), f, tiers).patch) == WithId(ProductData(f, tiers), p.id)
  {
  }

  /** Submitting an edit without touching the form gives the product back,
      as long as it is complete and already carries a promotion flag, a
      promotion text and a tier list that is absent or not empty. */
  lemma UntouchedEditKeepsProduct(p: Product)
    requires p.name != [] && p.description != [] && p.category != []
    requires p.isPromo.Some? && p.promoText.Some?
    requires p.wholesaleTiers != Some([])
    ensures Submit(Some(p), InitialForm(Some(p)), InitialTiers(Some(p))).Update?
    ensures MergeProduct(p, Submit(Some(p), InitialForm(Some(p)), InitialTiers(Some(p))).patch) == p
  {
    var f := InitialForm(Some(p));
    var d := ProductData(f, InitialTiers(Some(p)));
    assert d.price == p.price;
    assert d.wholesaleTiers == p.wholesaleTiers;
    assert WithId(d, p.id) == p;
  }

  /** The component's state: the product it edits, if any, the form
      fields, the tier list and the pending tier. */
  class ProductFormState {
    const product: Option<Product>
    var formData: FormData
    var wholesaleTiers: seq<Tier>
    var newTier: TierInput

    constructor (product: Option<Product>)
      ensures this.product == product
      ensures formData == InitialForm(product) && wholesaleTiers == InitialTiers(product)
      ensures newTier == EmptyTier
    {
      this.product := product;
      formData := InitialForm(product);
      wholesaleTiers := InitialTiers(product);
      newTier := EmptyTier;
    }

    /** The `onChange` handlers of the form fields. */
    method SetFormData(f: FormData)
      modifies this
      ensures formData == f
      ensures wholesaleTiers == old(wholesaleTiers) && newTier == old(newTier)
    {
      formData := f;
    }

    /** The `onChange` handlers of the two pending tier fields. */
    method SetNewTier(input: TierInput)
      modifies this
      ensures newTier == input
      ensures wholesaleTiers == old(wholesaleTiers) && formData == old(formData)
    {
      newTier := input;
    }

    /** `addWholesaleTier`: an accepted input is appended, after all the
        tiers already there and even when one has the same quantity, and
        the pending fields are emptied; otherwise nothing changes. */
    method AddWholesaleTier()
      modifies this
      ensures formData == old(formData)
      ensures AcceptsTier(old(newTier)) ==>
        wholesaleTiers == old(wholesaleTiers) + [TierOf(old(newTier))] && newTier == EmptyTier
      ensures !AcceptsTier(old(newTier)) ==>
        wholesaleTiers == old(wholesaleTiers) && newTier == old(newTier)
    {
      if AcceptsTier(newTier) {
        wholesaleTiers := wholesaleTiers + [TierOf(newTier)];
        newTier := EmptyTier;
      }
    }

    /** `removeWholesaleTier`: the tier at the index goes and the others
        keep their order; an index out of range changes nothing. */
    method RemoveWholesaleTier(index: int)
      modifies this
      ensures 0 <= index < |old(wholesaleTiers)| ==>
        wholesaleTiers == old(wholesaleTiers)[..index] + old(wholesaleTiers)[index + 1..]
      ensures !(0 <= index < |old(wholesaleTiers)|) ==> wholesaleTiers == old(wholesaleTiers)
      ensures formData == old(formData) && newTier == old(newTier)
    {
      Collections.WithoutIndexSpec(wholesaleTiers, index);
      wholesaleTiers := Collections.WithoutIndex(wholesaleTiers, index);
    }

    /** `handleSubmit`: a rejected form leaves the store state manager as
        it was; otherwise the record is added under the clock's id or
        merged into the edited product. `saved` tells whether `onSave`
        runs. */
    method HandleSubmit(manager: StoreContext.StoreManager, newId: string) returns (saved: bool)
      requires manager.Valid()
      modifies manager
      ensures manager.Valid()
      ensures saved <==> IsComplete(formData)
      ensures manager.categories == old(manager.categories) && manager.store == old(manager.store)
      ensures !saved ==> manager.products == old(manager.products) && manager.storage == old(manager.storage)
      ensures saved ==>
                manager.storage == old(manager.storage)[StoreContext.ProductsKey := StoreContext.ProductsJson(manager.products)]
      ensures Submit(product, formData, wholesaleTiers).Create? ==>
        manager.products == old(manager.products) + [WithId(Submit(product, formData, wholesaleTiers).draft, newId)]
      ensures Submit(product, formData, wholesaleTiers).Update? ==>
        manager.products == StoreContext.UpdatedProducts(old(manager.products), product.value.id,
                                                         Submit(product, formData, wholesaleTiers).patch)
    {
      var s := Submit(product, formData, wholesaleTiers);
      match s
      case Rejected =>
        return false;
      case Create(d) =>
        manager.AddProduct(d, newId);
        return true;
      case Update(id, patch) =>
        manager.UpdateProduct(id, patch);
        return true;
    }
  }
}
