/** The seed data (src/data/mockData.ts): what the store state manager
    falls back to when storage holds nothing, and what the storefront and
    the dashboard category list start from. Image imports are bundler
    asset URLs; they are modelled as the asset file names. */
module MockData {
  import opened Wrappers
  import opened Types

  const SeedStore := Store(
    "1",
    "Delícia de Bolos",
    "delicia-de-bolos",
    None,
    "#D43F6D",
    Some("Entrega Grátis acima de R$ 50"),
    Some("(11) 99999-9999"),
    Some(SocialLinks(Some("@deliciadebolossabor"), None, Some("5511999999999"))))

  const SeedCategories: seq<Category> := [
    Category("1", "Todos", "todos"),
    Category("2", "Bolos", "bolos"),
    Category("3", "Docinhos", "docinhos"),
    Category("4", "Tortas", "tortas"),
    Category("5", "Salgados", "salgados"),
    Category("6", "Bebidas", "bebidas")
  ]

  const Product1 := Product(
    "1", "Bolo de Chocolate Premium",
    "Delicioso bolo de chocolate com cobertura de ganache e morangos frescos",
    4500, "product-1.jpg", "bolos", "2-3 dias", 5, Some(true), Some("Promo 20%"),
    Some([Tier(3, 4000), Tier(5, 3800)]))

  const Product2 := Product(
    "2", "Macarons Sortidos",
    "Caixa com 12 macarons de sabores variados: baunilha, chocolate, morango",
    2800, "product-2.jpg", "docinhos", "1-2 dias", 8, Some(false), None, None)

  const Product3 := Product(
    "3", "Torta de Morango",
    "Torta cremosa com morangos frescos e chantilly, massa amanteigada",
    3200, "product-3.jpg", "tortas", "10 minutos", 3, Some(true), Some("Entrega Rápida"), None)

  const Product4 := Product(
    "4", "Brigadeiros Gourmet",
    "Brigadeiros artesanais com cobertura de chocolate belga",
    1800, "product-1.jpg", "docinhos", "1 dia", 12, None, None, None)

  const Product5 := Product(
    "5", "Bolo Red Velvet",
    "Clássico bolo red velvet com cream cheese e frutas vermelhas",
    5500, "product-2.jpg", "bolos", "2-3 dias", 2, Some(true), Some("Limitado"), None)

  const Product6 := Product(
    "6", "Cheesecake de Frutas",
    "Cheesecake cremoso com calda de frutas vermelhas",
    3800, "product-3.jpg", "tortas", "1-2 dias", 6, None, None, None)

  const SeedProducts: seq<Product> := [Product1, Product2, Product3, Product4, Product5, Product6]

  const SeedOrders: seq<Order> := [
    Order("1", "Maria Silva", "(11) 98765-4321", Some("Rua das Flores, 123 - Centro"),
          [CartItem(Product1, 1), CartItem(Product2, 2)],
          10100, Pending, "2024-01-15T10:30:00Z", Some("Entregar até 18h")),
    Order("2", "João Santos", "(11) 99887-6655", None,
          [CartItem(Product3, 1)],
          3200, Ready, "2024-01-15T14:20:00Z", None)
  ]

  /** What the items of an order cost at their unit prices, in cents. */
  function ItemsTotal(items: seq<CartItem>): (total: int)
    ensures (forall k :: 0 <= k < |items| ==> items[k].product.price >= 0 && items[k].quantity >= 0) ==> total >= 0
  {
    if items == [] then 0
    else items[0].product.price * items[0].quantity + ItemsTotal(items[1..])
  }

  /** No two seed categories share an id, and no two share a slug. */
  lemma SeedCategoriesDistinct()
    ensures forall i, j :: 0 <= i < j < |SeedCategories| ==>
      SeedCategories[i].id != SeedCategories[j].id && SeedCategories[i].slug != SeedCategories[j].slug
  {
  }

  /** No two seed products share an id. */
  lemma SeedProductIdsDistinct()
    ensures forall i, j :: 0 <= i < j < |SeedProducts| ==> SeedProducts[i].id != SeedProducts[j].id
  {
  }

  /** Every seed product belongs to a seed category other than `todos`. */
  lemma SeedProductCategoriesExist()
    ensures forall p :: p in SeedProducts ==>
      exists c :: c in SeedCategories && c.slug != "todos" && c.slug == p.category
  {
    assert SeedCategories[1].slug == "bolos" && SeedCategories[2].slug == "docinhos";
    assert SeedCategories[3].slug == "tortas";
  }

  /** Each seed order's subtotal is what its items cost: 4500 + 2 * 2800
      and 3200. */
  lemma SeedOrderSubtotals()
    ensures forall o :: o in SeedOrders ==> o.subtotal == ItemsTotal(o.items)
  {
    var first := SeedOrders[0].items;
    assert first[1..][1..] == [];
    assert ItemsTotal(first[1..]) == 2 * 2800;
    assert ItemsTotal(first) == 10100;
    assert ItemsTotal(SeedOrders[1].items) == 3200;
  }

  /** The first seed product's tiers need more units as they go and each
      is cheaper than the unit price. */
  lemma SeedTiersOrdered()
    ensures Product1.wholesaleTiers.Some?
    ensures forall i :: 0 <= i < |Product1.wholesaleTiers.value| ==>
      Product1.wholesaleTiers.value[i].price < Product1.price
    ensures forall i, j :: 0 <= i < j < |Product1.wholesaleTiers.value| ==>
      Product1.wholesaleTiers.value[i].minQuantity < Product1.wholesaleTiers.value[j].minQuantity
  {
  }
}
