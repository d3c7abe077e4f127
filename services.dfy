/** The back end's services: order placement with stock deduction, products, menu items and the
    menu item / product links. */
module Services {
  import opened Wrappers
  import opened Domain
  import opened Tables
  import opened Validation
  import opened OrderPlacement
  import opened Data

  /** The first of `ids` that names no stored product, if any. */
  function FirstMissingProduct(products: map<int, Product>, ids: seq<int>): (r: Option<int>)
    ensures r.None? <==> forall i :: 0 <= i < |ids| ==> ids[i] in products
    ensures r.Some? ==>
      exists k :: 0 <= k < |ids| && ids[k] == r.value && r.value !in products
        && forall i :: 0 <= i < k ==> ids[i] in products
    decreases |ids|
  {
    if ids == [] then None
    else if ids[0] !in products then Some(ids[0])
    else
      var r := FirstMissingProduct(products, ids[1..]);
      assert forall i :: 1 <= i < |ids| ==> ids[i] == ids[1..][i - 1];
      if r.Some? then
        var k :| 0 <= k < |ids[1..]| && ids[1..][k] == r.value && r.value !in products
          && forall i :: 0 <= i < k ==> ids[1..][i] in products;
        assert ids[k + 1] == r.value;
        r
      else r
  }

  /** When every id before position `i` names a stored product and `ids[i]` does not, `ids[i]` is the
      first missing one. */
  lemma {:induction false} FirstMissingAt(products: map<int, Product>, ids: seq<int>, i: int)
    requires 0 <= i < |ids| && ids[i] !in products
    requires forall k :: 0 <= k < i ==> ids[k] in products
    ensures FirstMissingProduct(products, ids) == Some(ids[i])
    decreases i
  {
    if i > 0 {
      assert ids[0] in products;
      FirstMissingAt(products, ids[1..], i - 1);
    }
  }

  /** `OrderService`. */
  class OrderService {
    const context: RestaurantContext

    constructor(context: RestaurantContext)
      ensures this.context == context
    {
      this.context := context;
    }

    /** `GetOrderByIdAsync`: the order with its lines, or null. */
    method GetOrderById(id: int) returns (r: Option<Order>)
      requires context.Valid()
      ensures r.Some? <==> id in context.orders.rows
      ensures r.Some? ==> r.value == context.orders.rows[id] && r.value.id == id
    {
      r := context.orders.Find(id);
    }

    /** `AddOrderAsync`: validates the order, then, inside a transaction, visits every line's
        menu item and every product linked to it, taking one portion each time, and finally
        stores the order. Any failure rolls the products back to where they were. The outcome and
        the new tables are those of `PlaceOrder`. */
    method AddOrder(order: Order) returns (r: Result<Order, Error>)
      requires context.Valid()
      modifies context`products, context`orders
      ensures context.Valid()
      ensures var placement := PlaceOrder(old(context.products), old(context.menuItems.rows), old(context.orders), order);
        && (placement.Ok? ==>
              && r == Ok(placement.value.order)
              && context.products == placement.value.products
              && context.orders == placement.value.orders)
        && (placement.Err? ==>
              && r == Err(placement.error)
              && context.products == old(context.products)
              && context.orders == old(context.orders))
    {
      var validation := ValidateOrder(order);
      if validation.Fail? {
        return Err(validation.error);
      }
      var snapshot := context.products;  // what the transaction rolls back to
      ghost var menuItems := context.menuItems.rows;
      var lines := order.lines;
      var i := 0;
      while i < |lines|
        invariant 0 <= i <= |lines|
        invariant context.Valid()
        invariant context.orders == old(context.orders)
        invariant context.products.next == snapshot.next
        invariant Reconcile(snapshot.rows, menuItems, lines[..i]) == Ok(context.products.rows)
      {
        ghost var lineStart := context.products.rows;
        var menuItem := context.menuItems.Find(lines[i]);
        if menuItem.None? {
          FirstFailureReported(snapshot.rows, menuItems, lines, i, lineStart);
          context.products := snapshot;
          return Err(MenuItemNotFound(lines[i]));
        }
        var links := menuItem.value.links;
        var j := 0;
        while j < |links|
          invariant 0 <= j <= |links|
          invariant context.Valid()
          invariant context.orders == old(context.orders)
          invariant context.products.next == snapshot.next
          invariant ConsumeLinks(lineStart, links[..j]) == Ok(context.products.rows)
        {
          var product := context.products.Find(links[j]);
          if product.None? || product.value.portionCount < 1.0 {
            var e := if product.None? then MissingLinkedProduct(links[j]) else InsufficientStock(product.value.name);
            FirstLinkFailureReported(lineStart, links, j, context.products.rows);
            FirstFailureReported(snapshot.rows, menuItems, lines, i, lineStart);
            context.products := snapshot;
            return Err(e);
          }
          LinkPrefixStep(lineStart, links, j, context.products.rows);
          var less := Decrement(product.value);
          context.products := context.products.(rows := context.products.rows[links[j] := less]);
          j := j + 1;
        }
        assert links[..j] == links;
        LinePrefixStep(snapshot.rows, menuItems, lines, i, lineStart);
        i := i + 1;
      }
      assert lines[..i] == lines;
      var key := context.orders.KeyFor(order.id);
      var placed := order.(id := key);
      var added := context.orders.Add(key, placed);
      if added.Err? {
        context.products := snapshot;
        return Err(added.error);
      }
      context.orders := added.value;
      return Ok(placed);
    }

    /** `UpdateOrderAsync`: validates the order and saves it whole; when no row has its key, the
        save affects nothing and the store reports a concurrency conflict. */
    method UpdateOrder(order: Order) returns (r: Outcome<Error>)
      requires context.Valid()
      modifies context`orders
      ensures context.Valid()
      ensures r.Pass? <==> ValidateOrder(order).Pass? && order.id in old(context.orders.rows)
      ensures ValidateOrder(order).Fail? ==> r == ValidateOrder(order)
      ensures ValidateOrder(order).Pass? && r.Fail? ==> r.error == ConcurrencyConflict(order.id)
      ensures r.Pass? ==> context.orders.rows == old(context.orders.rows)[order.id := order]
      ensures r.Fail? ==> context.orders == old(context.orders)
    {
      r := ValidateOrder(order);
      if r.Fail? {
        return;
      }
      var overwritten := context.orders.Overwrite(order.id, order, ConcurrencyConflict(order.id));
      if overwritten.Err? {
        return Fail(overwritten.error);
      }
      context.orders := overwritten.value;
    }

    /** `DeleteOrderAsync`: the order stored under `id` is removed; nothing happens when there is
        none. */
    method DeleteOrder(id: int)
      requires context.Valid()
      modifies context`orders
      ensures context.Valid()
      ensures context.orders.rows == old(context.orders.rows) - {id}
    {
      context.orders := context.orders.Remove(id);
    }
  }

  /** `ProductService`. */
  class ProductService {
    const context: RestaurantContext

    constructor(context: RestaurantContext)
      ensures this.context == context
    {
      this.context := context;
    }

    /** `GetProductByIdAsync`: the product stored under `id`, or null. */
    method GetProductById(id: int) returns (r: Option<Product>)
      requires context.Valid()
      ensures r.Some? <==> id in context.products.rows
      ensures r.Some? ==> r.value == context.products.rows[id] && r.value.id == id
    {
      r := context.products.Find(id);
    }

    /** `AddProductAsync`: validates the product, then stores it under its id (which validation
        has made positive, so no key is generated). */
    method AddProduct(product: Product) returns (r: Result<Product, Error>)
      requires context.Valid()
      modifies context`products
      ensures context.Valid()
      ensures r.Ok? <==> ValidateProduct(product).Pass? && product.id !in old(context.products.rows)
      ensures ValidateProduct(product).Fail? ==> r == Err(ValidateProduct(product).error)
      ensures ValidateProduct(product).Pass? && r.Err? ==> r.error == DuplicateKey(product.id)
      ensures r.Ok? ==> r.value == product && context.products.rows == old(context.products.rows)[product.id := product]
      ensures r.Err? ==> context.products == old(context.products)
    {
      var validation := ValidateProduct(product);
      if validation.Fail? {
        return Err(validation.error);
      }
      var added := context.products.Add(product.id, product);
      if added.Err? {
        return Err(added.error);
      }
      context.products := added.value;
      return Ok(product);
    }

    /** `UpdateProductAsync`: validates the product and saves it whole; when no row has its key,
        the save affects nothing and the store reports a concurrency conflict. */
    method UpdateProduct(product: Product) returns (r: Outcome<Error>)
      requires context.Valid()
      modifies context`products
      ensures context.Valid()
      ensures r.Pass? <==> ValidateProduct(product).Pass? && product.id in old(context.products.rows)
      ensures ValidateProduct(product).Fail? ==> r == ValidateProduct(product)
      ensures ValidateProduct(product).Pass? && r.Fail? ==> r.error == ConcurrencyConflict(product.id)
      ensures r.Pass? ==> context.products.rows == old(context.products.rows)[product.id := product]
      ensures r.Fail? ==> context.products == old(context.products)
    {
      r := ValidateProduct(product);
      if r.Fail? {
        return;
      }
      var overwritten := context.products.Overwrite(product.id, product, ConcurrencyConflict(product.id));
      if overwritten.Err? {
        return Fail(overwritten.error);
      }
      context.products := overwritten.value;
    }

    /** `DeleteProductAsync`: the product stored under `id` is removed; nothing happens when
        there is none. */
    method DeleteProduct(id: int)
      requires context.Valid()
      modifies context`products
      ensures context.Valid()
      ensures context.products.rows == old(context.products.rows) - {id}
    {
      context.products := context.products.Remove(id);
    }
  }

  /** `MenuItemService`: works through the menu item repository and asks the product service
      whether each submitted product exists. */
  class MenuItemService {
    const repository: MenuItemRepository
    const productService: ProductService

    constructor(repository: MenuItemRepository, productService: ProductService)
      ensures this.repository == repository && this.productService == productService
    {
      this.repository := repository;
      this.productService := productService;
    }

    /** `GetMenuItemByIdAsync`. */
    method GetMenuItemById(id: int) returns (r: Option<MenuItem>)
      requires repository.context.Valid()
      ensures r.Some? <==> id in repository.context.menuItems.rows
      ensures r.Some? ==> r.value == repository.context.menuItems.rows[id] && r.value.id == id
    {
      r := repository.GetMenuItemById(id);
    }

    /** Looks up the submitted product ids in order and appends a link for each one to `links`;
        the first id with no stored product is reported. */
    method LinkProducts(links: seq<int>, productIds: seq<int>) returns (r: Result<seq<int>, Error>)
      requires productService.context.Valid()
      ensures FirstMissingProduct(productService.context.products.rows, productIds).None? ==> r == Ok(links + productIds)
      ensures FirstMissingProduct(productService.context.products.rows, productIds).Some? ==>
        r == Err(ProductDoesNotExist(FirstMissingProduct(productService.context.products.rows, productIds).value))
    {
      ghost var products := productService.context.products.rows;
      var linked := links;
      var i := 0;
      while i < |productIds|
        invariant 0 <= i <= |productIds|
        invariant linked == links + productIds[..i]
        invariant forall k :: 0 <= k < i ==> productIds[k] in products
      {
        var product := productService.GetProductById(productIds[i]);
        if product.None? {
          FirstMissingAt(products, productIds, i);
          return Err(ProductDoesNotExist(productIds[i]));
        }
        assert productIds[..i + 1] == productIds[..i] + [productIds[i]];
        linked := linked + [productIds[i]];
        i := i + 1;
      }
      assert productIds[..i] == productIds;
      return Ok(linked);
    }

    /** `AddMenuItemAsync`: validates the menu item, links every submitted product (all must
        exist), then stores the menu item with those links. */
    method AddMenuItem(menuItem: MenuItem) returns (r: Result<MenuItem, Error>)
      requires repository.context.Valid() && productService.context.Valid()
      modifies repository.context`menuItems
      ensures repository.context.Valid()
      ensures ValidateMenuItem(menuItem).Fail? ==> r == Err(ValidateMenuItem(menuItem).error)
      ensures ValidateMenuItem(menuItem).Pass? && FirstMissingProduct(productService.context.products.rows, menuItem.productIds).Some? ==>
        r == Err(ProductDoesNotExist(FirstMissingProduct(productService.context.products.rows, menuItem.productIds).value))
      ensures r.Ok? <==>
        && ValidateMenuItem(menuItem).Pass?
        && FirstMissingProduct(productService.context.products.rows, menuItem.productIds).None?
        && old(repository.context.menuItems).KeyFor(menuItem.id) !in old(repository.context.menuItems.rows)
      ensures r.Ok? ==>
        && r.value == menuItem.(id := old(repository.context.menuItems).KeyFor(menuItem.id),
                                links := menuItem.links + menuItem.productIds)
        && repository.context.menuItems.rows == old(repository.context.menuItems.rows)[r.value.id := r.value]
      ensures r.Err? ==> repository.context.menuItems == old(repository.context.menuItems)
    {
      var validation := ValidateMenuItem(menuItem);
      if validation.Fail? {
        return Err(validation.error);
      }
      var linked := LinkProducts(menuItem.links, menuItem.productIds);
      if linked.Err? {
        return Err(linked.error);
      }
      r := repository.AddMenuItem(menuItem.(links := linked.value));
    }

    /** `UpdateMenuItemAsync`: validates the menu item; the stored menu item must exist; it takes
        the new name, drops its links and links every submitted product (all must exist). */
    method UpdateMenuItem(menuItem: MenuItem) returns (r: Outcome<Error>)
      requires repository.context.Valid() && productService.context.Valid()
      modifies repository.context`menuItems
      ensures repository.context.Valid()
      ensures ValidateMenuItem(menuItem).Fail? ==> r == ValidateMenuItem(menuItem)
      ensures ValidateMenuItem(menuItem).Pass? && menuItem.id !in old(repository.context.menuItems.rows) ==>
        r == Fail(MenuItemDoesNotExist(menuItem.id))
      ensures (ValidateMenuItem(menuItem).Pass? && menuItem.id in old(repository.context.menuItems.rows)
               && FirstMissingProduct(productService.context.products.rows, menuItem.productIds).Some?) ==>
        r == Fail(ProductDoesNotExist(FirstMissingProduct(productService.context.products.rows, menuItem.productIds).value))
      ensures r.Pass? <==>
        && ValidateMenuItem(menuItem).Pass?
        && menuItem.id in old(repository.context.menuItems.rows)
        && FirstMissingProduct(productService.context.products.rows, menuItem.productIds).None?
      ensures r.Pass? ==>
        repository.context.menuItems.rows == old(repository.context.menuItems.rows)[menuItem.id :=
          old(repository.context.menuItems.rows)[menuItem.id].(name := menuItem.name, links := menuItem.productIds)]
      ensures r.Fail? ==> repository.context.menuItems == old(repository.context.menuItems)
    {
      r := ValidateMenuItem(menuItem);
      if r.Fail? {
        return;
      }
      var existing := repository.GetMenuItemById(menuItem.id);
      if existing.None? {
        return Fail(MenuItemDoesNotExist(menuItem.id));
      }
      var linked := LinkProducts([], menuItem.productIds);
      if linked.Err? {
        return Fail(linked.error);
      }
      assert [] + menuItem.productIds == menuItem.productIds;
      r := repository.UpdateMenuItem(existing.value.(name := menuItem.name, links := linked.value));
    }

    /** `DeleteMenuItemAsync`. */
    method DeleteMenuItem(id: int)
      requires repository.context.Valid()
      modifies repository.context`menuItems
      ensures repository.context.Valid()
      ensures repository.context.menuItems.rows == old(repository.context.menuItems.rows) - {id}
    {
      repository.DeleteMenuItem(id);
    }
  }

  /** `MenuItemProductService`: the link rows, keyed by the pair (menu item, product). */
  class MenuItemProductService {
    const context: RestaurantContext

    constructor(context: RestaurantContext)
      ensures this.context == context
    {
      this.context := context;
    }

    /** `AddMenuItemProductAsync`: the link is stored; a link already stored is refused. */
    method AddMenuItemProduct(link: MenuItemProduct) returns (r: Outcome<Error>)
      modifies context`menuItemProducts
      ensures r.Pass? <==> link !in old(context.menuItemProducts)
      ensures r.Pass? ==> context.menuItemProducts == old(context.menuItemProducts) + {link}
      ensures r.Fail? ==>
        r.error == DuplicateLink(link.menuItemId, link.productId) && context.menuItemProducts == old(context.menuItemProducts)
    {
      if link in context.menuItemProducts {
        return Fail(DuplicateLink(link.menuItemId, link.productId));
      }
      context.menuItemProducts := context.menuItemProducts + {link};
      return Pass;
    }

    /** `RemoveMenuItemProductAsync`: the link with the same menu item and product is removed;
        nothing happens when there is none. */
    method RemoveMenuItemProduct(link: MenuItemProduct)
      modifies context`menuItemProducts
      ensures context.menuItemProducts == old(context.menuItemProducts) - {link}
    {
      context.menuItemProducts := context.menuItemProducts - {link};
    }
  }
}
