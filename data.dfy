/** The data store and the three repositories over it. */
module Data {
  import opened Wrappers
  import opened Domain
  import opened Tables

  /** `RestaurantContext`: the tables the services and repositories read and change. */
  class RestaurantContext {
    var products: Table<Product>
    var menuItems: Table<MenuItem>
    var orders: Table<Order>
    var menuItemProducts: set<MenuItemProduct>

    /** Every table hands out fresh keys, and every row is stored under its own id. */
    ghost predicate Valid()
      reads this
    {
      && products.Valid() && menuItems.Valid() && orders.Valid()
      && (forall k :: k in products.rows ==> products.rows[k].id == k)
      && (forall k :: k in menuItems.rows ==> menuItems.rows[k].id == k)
      && (forall k :: k in orders.rows ==> orders.rows[k].id == k)
    }

    /** An empty store. */
    constructor()
      ensures Valid()
      ensures products.rows == map[] && menuItems.rows == map[] && orders.rows == map[]
      ensures menuItemProducts == {}
    {
      products := EmptyTable();
      menuItems := EmptyTable();
      orders := EmptyTable();
      menuItemProducts := {};
    }
  }

  /** `ProductRepository`. */
  class ProductRepository {
    const context: RestaurantContext

    constructor(context: RestaurantContext)
      ensures this.context == context
    {
      this.context := context;
    }

    /** `GetByIdAsync`: the product stored under `id`, or null. */
    method GetById(id: int) returns (r: Option<Product>)
      requires context.Valid()
      ensures r.Some? <==> id in context.products.rows
      ensures r.Some? ==> r.value == context.products.rows[id] && r.value.id == id
    {
      r := context.products.Find(id);
    }

    /** `AddAsync`: the product is stored under its id, or under a generated key when its id is 0;
        the key is written back into the product. A key in use is refused. */
    method Add(product: Product) returns (r: Result<Product, Error>)
      requires context.Valid()
      modifies context`products
      ensures context.Valid()
      ensures var key := old(context.products).KeyFor(product.id);
        && (r.Ok? <==> key !in old(context.products.rows))
        && (r.Ok? ==> r.value == product.(id := key)
                      && context.products.rows == old(context.products.rows)[key := r.value])
        && (r.Err? ==> r.error == DuplicateKey(key) && context.products == old(context.products))
    {
      var key := context.products.KeyFor(product.id);
      var stored := product.(id := key);
      var added := context.products.Add(key, stored);
      if added.Err? {
        return Err(added.error);
      }
      context.products := added.value;
      return Ok(stored);
    }

    /** `UpdateAsync`: every column of the stored product takes the given product's value; a
        product that is not stored is reported by id. */
    method Update(product: Product) returns (r: Outcome<Error>)
      requires context.Valid()
      modifies context`products
      ensures context.Valid()
      ensures r.Pass? <==> product.id in old(context.products.rows)
      ensures r.Pass? ==> context.products.rows == old(context.products.rows)[product.id := product]
      ensures r.Fail? ==> r.error == ProductNotFoundForUpdate(product.id) && context.products == old(context.products)
    {
      var existing := context.products.Find(product.id);
      if existing.None? {
        return Fail(ProductNotFoundForUpdate(product.id));
      }
      context.products := context.products.(rows := context.products.rows[product.id := product]);
      return Pass;
    }

    /** `DeleteAsync`: the product stored under `id` is removed; nothing happens when there is none. */
    method Delete(id: int)
      requires context.Valid()
      modifies context`products
      ensures context.Valid()
      ensures context.products.rows == old(context.products.rows) - {id}
    {
      context.products := context.products.Remove(id);
    }
  }

  /** `OrderRepository`. */
  class OrderRepository {
    const context: RestaurantContext

    constructor(context: RestaurantContext)
      ensures this.context == context
    {
      this.context := context;
    }

    /** `GetOrderByIdAsync`: the order with its lines, or null. */
    method GetOrderById(id: int) returns (r: Option<Order>)
      requires context.Valid()
      ensures r.Some? <==> id in context.orders.rows
      ensures r.Some? ==> r.value == context.orders.rows[id] && r.value.id == id
    {
      r := context.orders.Find(id);
    }

    /** `AddOrderAsync`: the order is stored with its lines under its key and returned with it. */
    method AddOrder(order: Order) returns (r: Result<Order, Error>)
      requires context.Valid()
      modifies context`orders
      ensures context.Valid()
      ensures var key := old(context.orders).KeyFor(order.id);
        && (r.Ok? <==> key !in old(context.orders.rows))
        && (r.Ok? ==> r.value == order.(id := key)
                      && context.orders.rows == old(context.orders.rows)[key := r.value])
        && (r.Err? ==> r.error == DuplicateKey(key) && context.orders == old(context.orders))
    {
      var key := context.orders.KeyFor(order.id);
      var stored := order.(id := key);
      var added := context.orders.Add(key, stored);
      if added.Err? {
        return Err(added.error);
      }
      context.orders := added.value;
      return Ok(stored);
    }

    /** `UpdateOrderAsync`: copying the given order's values onto the stored one copies its
        columns only, so the stored order takes the new time and keeps its lines. */
    method UpdateOrder(order: Order) returns (r: Outcome<Error>)
      requires context.Valid()
      modifies context`orders
      ensures context.Valid()
      ensures r.Pass? <==> order.id in old(context.orders.rows)
      ensures r.Pass? ==>
        context.orders.rows == old(context.orders.rows)[order.id := old(context.orders.rows)[order.id].(dateTime := order.dateTime)]
      ensures r.Fail? ==> r.error == OrderNotFoundForUpdate(order.id) && context.orders == old(context.orders)
    {
      var existing := context.orders.Find(order.id);
      if existing.None? {
        return Fail(OrderNotFoundForUpdate(order.id));
      }
      var updated := existing.value.(dateTime := order.dateTime);
      context.orders := context.orders.(rows := context.orders.rows[order.id := updated]);
      return Pass;
    }

    /** `DeleteOrderAsync`: the order stored under `id`, with its lines, is removed. */
    method DeleteOrder(id: int)
      requires context.Valid()
      modifies context`orders
      ensures context.Valid()
      ensures context.orders.rows == old(context.orders.rows) - {id}
    {
      context.orders := context.orders.Remove(id);
    }
  }

  /** `MenuItemRepository`. */
  class MenuItemRepository {
    const context: RestaurantContext

    constructor(context: RestaurantContext)
      ensures this.context == context
    {
      this.context := context;
    }

    /** `GetMenuItemByIdAsync`: the menu item with its product links, or null. */
    method GetMenuItemById(id: int) returns (r: Option<MenuItem>)
      requires context.Valid()
      ensures r.Some? <==> id in context.menuItems.rows
      ensures r.Some? ==> r.value == context.menuItems.rows[id] && r.value.id == id
    {
      r := context.menuItems.Find(id);
    }

    /** `AddMenuItemAsync`: the menu item is stored with its links under its key. */
    method AddMenuItem(menuItem: MenuItem) returns (r: Result<MenuItem, Error>)
      requires context.Valid()
      modifies context`menuItems
      ensures context.Valid()
      ensures var key := old(context.menuItems).KeyFor(menuItem.id);
        && (r.Ok? <==> key !in old(context.menuItems.rows))
        && (r.Ok? ==> r.value == menuItem.(id := key)
                      && context.menuItems.rows == old(context.menuItems.rows)[key := r.value])
        && (r.Err? ==> r.error == DuplicateKey(key) && context.menuItems == old(context.menuItems))
    {
      var key := context.menuItems.KeyFor(menuItem.id);
      var stored := menuItem.(id := key);
      var added := context.menuItems.Add(key, stored);
      if added.Err? {
        return Err(added.error);
      }
      context.menuItems := added.value;
      return Ok(stored);
    }

    /** `UpdateMenuItemAsync`: the menu item is marked modified and saved whole; when no row has
        its key, the save affects nothing and the store reports a concurrency conflict. */
    method UpdateMenuItem(menuItem: MenuItem) returns (r: Outcome<Error>)
      requires context.Valid()
      modifies context`menuItems
      ensures context.Valid()
      ensures r.Pass? <==> menuItem.id in old(context.menuItems.rows)
      ensures r.Pass? ==> context.menuItems.rows == old(context.menuItems.rows)[menuItem.id := menuItem]
      ensures r.Fail? ==> r.error == ConcurrencyConflict(menuItem.id) && context.menuItems == old(context.menuItems)
    {
      var overwritten := context.menuItems.Overwrite(menuItem.id, menuItem, ConcurrencyConflict(menuItem.id));
      if overwritten.Err? {
        return Fail(overwritten.error);
      }
      context.menuItems := overwritten.value;
      return Pass;
    }

    /** `DeleteMenuItemAsync`: the menu item stored under `id`, with its links, is removed. */
    method DeleteMenuItem(id: int)
      requires context.Valid()
      modifies context`menuItems
      ensures context.Valid()
      ensures context.menuItems.rows == old(context.menuItems.rows) - {id}
    {
      context.menuItems := context.menuItems.Remove(id);
    }
  }
}
