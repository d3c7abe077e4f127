/** The back end's entities and the exceptions its services and repositories throw. */
module Domain {
  import opened Wrappers
  import Text

  /** `int.MaxValue`, the upper end of the range the `Id` annotations allow. */
  const IntMaxValue: int := 0x7FFF_FFFF

  /** A `DateTime` is modelled by its tick count; `DateTime.MinValue` is tick 0. */
  const MinValueTicks: int := 0

  /** A stock item. `PortionCount` and `PortionSize` are `double` in the source; here they are exact
      reals. The strings are nullable references. */
  datatype Product = Product(id: int, name: Option<string>, portionCount: real, unit: Option<string>, portionSize: real)

  /** A dish. `productIds` is the list a client submits; `links` are the product ids of its
      `MenuItemProducts` rows, in the order the menu item holds them. */
  datatype MenuItem = MenuItem(id: int, name: Option<string>, productIds: seq<int>, links: seq<int>)

  /** An order: its time and the menu item id of each of its `OrderMenuItems`, in list order
      (the same menu item may appear more than once). */
  datatype Order = Order(id: int, dateTime: int, lines: seq<int>)

  /** A row of the menu item / product link table. */
  datatype MenuItemProduct = MenuItemProduct(menuItemId: int, productId: int)

  /** What the back end throws. */
  datatype Error =
    | InvalidArgument(message: string, paramName: Option<string>)  // ArgumentException
    | MenuItemNotFound(menuItemId: int)        // KeyNotFoundException from order placement
    | InsufficientStock(productName: Option<string>)  // InvalidOperationException from order placement
    | MissingLinkedProduct(productId: int)     // NullReferenceException: a link whose product row is gone
    | ProductDoesNotExist(productId: int)      // KeyNotFoundException from the menu item service
    | MenuItemDoesNotExist(menuItemId: int)    // KeyNotFoundException from the menu item service
    | ProductNotFoundForUpdate(productId: int) // KeyNotFoundException from the product repository
    | OrderNotFoundForUpdate(orderId: int)     // KeyNotFoundException from the order repository
    | DuplicateKey(key: int)                   // the store refuses a second row with a key in use
    | ConcurrencyConflict(key: int)            // an update marked a row modified that is not stored
    | DuplicateLink(menuItemId: int, productId: int)  // a second link row with the same key pair
    | DuplicateLine(orderId: int, menuItemId: int)    // a second order line with the same key pair
  {
    /** The .NET exception type. */
    function ExceptionType(): string {
      match this
      case InvalidArgument(_, _) => "ArgumentException"
      case InsufficientStock(_) => "InvalidOperationException"
      case MissingLinkedProduct(_) => "NullReferenceException"
      case DuplicateKey(_) => "InvalidOperationException"
      case DuplicateLink(_, _) => "InvalidOperationException"
      case DuplicateLine(_, _) => "InvalidOperationException"
      case ConcurrencyConflict(_) => "DbUpdateConcurrencyException"
      case _ => "KeyNotFoundException"
    }

    /** The exception's message. The texts of the first eight are the source's own; an
        `ArgumentException` built with a parameter name appends it as .NET does. The last four stand
        for the data store's exceptions, whose wording is not modelled. */
    function Message(): string {
      match this
      case InvalidArgument(m, p) => if p.Some? then m + " (Parameter '" + p.value + "')" else m
      case MenuItemNotFound(id) => "MenuItem with ID " + Text.IntToString(id) + " not found."
      case InsufficientStock(name) =>
        "Insufficient stock for product '" + (if name.Some? then name.value else "") + "'."
      case MissingLinkedProduct(_) => "Object reference not set to an instance of an object."
      case ProductDoesNotExist(id) => "Product with ID " + Text.IntToString(id) + " does not exist."
      case MenuItemDoesNotExist(id) => "MenuItem with ID " + Text.IntToString(id) + " does not exist."
      case ProductNotFoundForUpdate(id) => "Product with ID " + Text.IntToString(id) + " not found for update."
      case OrderNotFoundForUpdate(id) => "Order with ID " + Text.IntToString(id) + " not found for update."
      case DuplicateKey(k) => "An entity with key " + Text.IntToString(k) + " is already stored."
      case ConcurrencyConflict(k) => "No row with key " + Text.IntToString(k) + " was affected by the update."
      case DuplicateLink(m, p) =>
        "A link of menu item " + Text.IntToString(m) + " to product " + Text.IntToString(p) + " is already stored."
      case DuplicateLine(o, m) =>
        "Order " + Text.IntToString(o) + " already has a line for menu item " + Text.IntToString(m) + "."
    }
  }
}
