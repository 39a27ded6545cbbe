/** The catalog half of the GraphQL API: the queries `categories`,
    `products` and `product(id)`, and the staff-only mutation
    `createProduct`. */
module ProductSchema {
  import opened Base
  import opened Accounts
  import opened Catalog
  import opened Tables

  // ---- queries ----------------------------------------------------------

  /** `categories`: every stored category, unfiltered. */
  function Categories(categories: map<int, Category>): (r: map<int, Category>)
    ensures r.Keys == categories.Keys
    ensures forall k :: k in r ==> r[k] == categories[k]
  {
    categories
  }

  /** `products`: `Product.objects.filter(is_active=True)`. */
  function Products(products: map<int, Product>): (r: map<int, Product>)
    ensures forall k :: k in r <==> k in products && products[k].isActive
    ensures forall k :: k in r ==> r[k] == products[k] && r[k].isActive
  {
    map k | k in products && products[k].isActive :: products[k]
  }

  /** `product(id)`: `Product.objects.get(id=id, is_active=True)`. */
  function ProductById(products: map<int, Product>, id: Int32): (r: Result<Product>)
    ensures r.Ok? <==> id in products && products[id].isActive
    ensures r.Ok? ==> r.value == products[id]
    ensures r.Err? ==> r.error == NotFound
  {
    if id in products && products[id].isActive then Ok(products[id]) else Err(NotFound)
  }

  /** `product(id)` finds exactly the products that `products` lists. */
  lemma ProductByIdAgreesWithProducts(products: map<int, Product>, id: Int32)
    ensures ProductById(products, id).Ok? <==> id in Products(products)
    ensures id in Products(products) ==> ProductById(products, id) == Ok(Products(products)[id])
  {
  }

  /** An inactive product is invisible: asking for it answers exactly as if
      the row did not exist, and the list is the same without it. */
  lemma InactiveIsInvisible(products: map<int, Product>, id: Int32)
    requires id in products && !products[id].isActive
    ensures ProductById(products, id) == ProductById(products - {id}, id)
    ensures Products(products) == Products(products - {id})
  {
    assert Products(products).Keys == Products(products - {id}).Keys;
  }

  // ---- createProduct ----------------------------------------------------

  /** `createProduct(name, description, price, category_id, stock?)`: only
      staff may call it; the category must exist; the new row takes the
      arguments and the declared defaults.  The driver refuses a NUL in the
      name or description, and the database refuses a row whose name, price
      or stock its columns do not take.  The answer is the product as it is
      in memory, while the table holds the name as its column cut it. */
  method CreateProduct(store: Store, caller: Caller, name: string, description: string,
                       priceCents: int, categoryId: Int32, stock: Option<Int32>)
    returns (r: Result<(int, Product)>)
    requires store.Valid()
    modifies store`products, store`nextProductId
    ensures store.Valid()
    ensures !IsStaff(caller) ==>
      && r == Err(Forbidden)
      && store.products == old(store.products)
      && store.nextProductId == old(store.nextProductId)
    ensures IsStaff(caller) && categoryId !in store.categories ==>
      && r == Err(NotFound)
      && store.products == old(store.products)
      && store.nextProductId == old(store.nextProductId)
    ensures IsStaff(caller) && categoryId in store.categories ==>
      var p := NewProduct(name, description, priceCents, categoryId, stock);
      if ProductHasNul(p) then
        && r == Err(NulCharacter)
        && store.products == old(store.products)
        && store.nextProductId == old(store.nextProductId)
      else if ProductColumnsTake(p) then
        var id := old(store.nextProductId);
        && id !in old(store.products)
        && store.products == old(store.products)[id := StoredProduct(p)]
        && |store.products| == |old(store.products)| + 1
        && r == Ok((id, p))
        && store.nextProductId == id + 1
      else
        && r == Err(DataError)
        && store.products == old(store.products)
        && store.nextProductId == old(store.nextProductId)
  {
    if !caller.Authenticated? || !caller.account.isStaff {
      return Err(Forbidden);
    }
    if categoryId !in store.categories {
      return Err(NotFound);
    }
    var p := NewProduct(name, description, priceCents, categoryId, stock);
    var saved := store.InsertProduct(p);
    match saved
    case Ok(id) => r := Ok((id, p));
    case Err(e) => r := Err(e);
  }

  /** The widget example: a staff caller creates a product with the
      defaults; a caller who is not staff creates nothing. */
  method WidgetScenario(staff: User, customer: User)
    requires staff.isStaff && !customer.isStaff
  {
    var store := new Store();
    var c := store.InsertCategory(Category("Tools", "", ""));
    assert c == Ok(1);
    var made := CreateProduct(store, Authenticated(7, staff), "Widget", "A widget", 999, 1, None);
    assert made.Ok? && made.value.1.stock == 0 && made.value.1.isActive;
    assert |store.products| == 1 && store.nextProductId == 2;
    var refused := CreateProduct(store, Authenticated(8, customer), "Widget", "A widget", 999, 1, None);
    assert refused == Err(Forbidden) && |store.products| == 1;
    var anonymous := CreateProduct(store, Anonymous, "Widget", "A widget", 999, 1, None);
    assert anonymous == Err(Forbidden) && store.nextProductId == 2;
  }
}
