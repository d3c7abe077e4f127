# Restaurant manager: order placement, stores, validation and list pages in Dafny

This project models the core of a small restaurant back office. It has an ASP.NET Core back end
over an Entity Framework store and an Angular front end. The model covers:

- **Order placement with stock reconciliation** (`OrderService.AddOrderAsync`). The order is
  validated. Its lines are then walked in list order. For each line the menu item is looked up,
  and each product linked to it must have a portion count of at least 1 and loses one portion.
  The order is stored at the end. Any failure rolls all of it back. `OrderPlacement.PlaceOrder`
  states the whole placement as a function. `Services.OrderService.AddOrder` is the imperative
  nested loop that decrements the store's products in place, and it is proved to produce exactly
  what `PlaceOrder` produces. `OrderPlacement.PlaceOrderSpec` then characterises `PlaceOrder`:
  - the order succeeds exactly when its time is set, every line names a stored menu item, every
    product holds at least the portions the whole order demands, and the order's key is free;
  - on success every product loses exactly its demand and none goes below zero;
  - the order is stored once and nothing else changes.
- **Validation**: the data-annotation rules of `Product` and `ValidDateTimeAttribute`. Also
  `ProductService.ValidateProduct`, where the first failing check is the one thrown, with its
  exact message and parameter name. Also the `Validator`-based checks of the order and menu item
  services.
- **Keyed stores**: `RestaurantContext` is a class whose tables are fields. The three
  repositories and the four services are classes holding a reference to it. Their methods
  change only the table they name. Each method states the new table in terms of the old one:
  - get of a missing id gives null;
  - an update of a missing row throws and changes nothing;
  - a delete of a missing id does nothing.
- **Menu item link building** (`MenuItemService`). Every submitted product id must name a stored
  product, and the first one that does not is reported. The links are appended (add) or rebuilt
  (update) in the submitted order.
- **The front-end pages** (orders, menu, products). Each is a class holding the cached array and
  the form, and each subscribe callback is a method that receives the server's answer. The id
  lists are edited as text: they are shown with `join(', ')` and read back with `split(',')`,
  `trim` and `parseInt(…, 10)`. `IdCodec.SubmitShownIds` proves that every id list, `NaN`
  included, survives that round trip.

Entities are datatypes (`Domain`). A table is a map from key to row plus the next key the store
would generate (`Tables`). Errors are the exceptions the code throws, with their messages
(`Domain.Error`). Exceptions become `Result` and `Outcome` values.

Modules:

| file | module |
|---|---|
| wrappers.dfy | `Wrappers`: `Option`, `Result`, `Outcome` |
| text.dfy | `Text`: character classes of .NET and JavaScript, decimal formatting, `Join` |
| id_codec.dfy | `IdCodec`: the front end's id-list text codec |
| domain.dfy | `Domain`: entities and errors |
| validation.dfy | `Validation`: annotations, `ValidDateTime`, service validation |
| tables.dfy | `Tables`: a keyed table |
| order_placement.dfy | `OrderPlacement`: the specification of order placement |
| data.dfy | `Data`: `RestaurantContext` and the repositories |
| services.dfy | `Services`: the order, product, menu item and link services |
| list_state.dfy | `ListState`: `findIndex`, replace-first, `filter` |
| orders_page.dfy, menu_page.dfy, products_page.dfy | the three page components |

## Model

| member | source | states |
|---|---|---|
| IdCodec.NumberToString | frontend/src/app/orders/orders.component.ts:68 | a number's text is non-empty, has no white space at either end and holds no comma |
| IdCodec.Split | frontend/src/app/orders/orders.component.ts:80 | `split(',')` gives at least one piece and no piece holds the separator |
| IdCodec.SplitJoin | frontend/src/app/orders/orders.component.ts:80 | splitting a join of separator-free pieces gives the pieces back |
| IdCodec.JoinSplit | frontend/src/app/orders/orders.component.ts:80 | joining the pieces of a split gives the text back |
| IdCodec.ParseIntOfNumberToString | frontend/src/app/orders/orders.component.ts:80 | `parseInt(String(x), 10)` is `x` for every integer and for `NaN` |
| IdCodec.TrimOfPaddedNumber | frontend/src/app/orders/orders.component.ts:80 | `trim` removes the space that `join(', ')` puts before a number |
| IdCodec.JoinCommaSpace | frontend/src/app/orders/orders.component.ts:68 | joining with ", " is joining with "," after padding every piece but the first with a space |
| IdCodec.SubmittedIds | frontend/src/app/orders/orders.component.ts:79-83 | a missing or empty text gives `[]`; otherwise one id per comma-separated piece |
| IdCodec.SubmitShownIds | frontend/src/app/orders/orders.component.ts:68-83 | ids shown with `join(', ')` and submitted unchanged parse back to the same ids |
| Validation.NameErrors | RestaurantManagerAPI/src/Models/Product.cs:23-24 | no error exactly when the name is present, not blank, and only ASCII letters and white space; at most one error, since the pattern is not checked once Required fails |
| Validation.ValidProductRules | RestaurantManagerAPI/src/Models/Product.cs:17-46 | a product passes the annotations exactly when Id is in 1..int.MaxValue, the name rules hold, both amounts are at least 0.1 and the unit is present |
| Validation.ValidDateTime | RestaurantManagerAPI/src/Validations/ValidDateTime.cs:21-29 | only `DateTime.MinValue` is invalid, other values and non-dates pass; the custom message wins over the default |
| Validation.ValidateProduct | RestaurantManagerAPI/src/Services/ProductService.cs:88-104 | passes exactly when all five checks pass; otherwise the error is that of the first failing check in the order Id, Name, PortionCount, PortionSize, Unit, with its parameter name |
| Validation.ValidProductPassesService | RestaurantManagerAPI/src/Services/ProductService.cs:88-104 | a product valid under the annotations passes the service's checks |
| Validation.ServiceAcceptsWhatAnnotationsReject | RestaurantManagerAPI/src/Services/ProductService.cs:96-97 | a portion count of 0.05 passes the service but not the annotation's 0.1 minimum |
| Validation.ValidateMenuItem | RestaurantManagerAPI/src/Services/MenuItemService.cs:125-134 | passes exactly when the name rules hold; otherwise throws `ArgumentException` with the messages joined by ", " |
| Validation.ValidateOrder | RestaurantManagerAPI/src/Services/OrderService.cs:142-151 | passes exactly when the time is not `DateTime.MinValue`; otherwise throws `ArgumentException` |
| Tables.Table.Find | RestaurantManagerAPI/src/Data/Repositories/ProductRepository.cs:38-41 | the row stored under the id, or null exactly when there is none |
| Tables.Table.Add | RestaurantManagerAPI/src/Data/Repositories/ProductRepository.cs:48-52 | a free key gets the row and nothing else changes; a key in use is refused |
| Tables.Table.Overwrite | RestaurantManagerAPI/src/Data/Repositories/ProductRepository.cs:59-73 | a stored key gets the new row and the key set is kept; a missing key gives the given error |
| Tables.Table.Remove | RestaurantManagerAPI/src/Data/Repositories/ProductRepository.cs:80-88 | the key is gone and the other rows are kept; removing a missing key changes nothing |
| Tables.FindAfterAdd | RestaurantManagerAPI/src/Data/Repositories/ProductRepository.cs:48-52 | an added row is found under its key and no other key's lookup changes |
| Tables.RemoveAfterAdd | RestaurantManagerAPI/src/Data/Repositories/ProductRepository.cs:80-88 | removing a row just added restores the rows |
| OrderPlacement.Take | RestaurantManagerAPI/src/Services/OrderService.cs:81-90 | visiting a linked product succeeds exactly when it is stored with at least one portion, and takes one portion |
| OrderPlacement.ConsumeLinksSpec | RestaurantManagerAPI/src/Services/OrderService.cs:81-91 | a menu item's links go through exactly when each product has as many portions as it is linked; each product loses its link count |
| OrderPlacement.ReconcileAppend | RestaurantManagerAPI/src/Services/OrderService.cs:68-91 | placing lines `a + b` is placing `a`, then `b` from where `a` left the stock |
| OrderPlacement.ReconcileSpec | RestaurantManagerAPI/src/Services/OrderService.cs:68-91 | all lines go through exactly when every menu item exists and every product holds its total demand; each product then loses exactly its demand, repeated lines counted again |
| OrderPlacement.FirstFailureReported | RestaurantManagerAPI/src/Services/OrderService.cs:68-78 | the error reported is that of the first failing line |
| OrderPlacement.FirstLinkFailureReported | RestaurantManagerAPI/src/Services/OrderService.cs:81-87 | within a line, the error reported is that of the first failing product |
| OrderPlacement.PlaceOrderSpec | RestaurantManagerAPI/src/Services/OrderService.cs:59-106 | success exactly when the time is valid, all menu items exist, stock covers the demand and the key is free; then every product loses its demand and stays at or above 0, and the order is stored once under its key, unchanged otherwise |
| OrderPlacement.PlaceOrderErrors | RestaurantManagerAPI/src/Services/OrderService.cs:59-106 | validation fails first, then the first failing line or product, then a key in use |
| OrderPlacement.TwoOrdersOfOnePortionFail | RestaurantManagerAPI/src/Services/OrderService.cs:83-87 | one portion in stock and the menu item ordered twice: refused with the product's name |
| OrderPlacement.OneOrderOfFivePortionsLeavesFour | RestaurantManagerAPI/src/Services/OrderService.cs:88-99 | five portions and one line leave four, and the order is stored under the first generated key |
| OrderPlacement.RepeatedLine | RestaurantManagerAPI/src/Models/OrderMenuItem.cs:26-49 | the line at which the inferred (order, menu item) key of the order lines repeats: none exactly when the lines are pairwise distinct; otherwise a menu item that appeared on an earlier line |
| OrderPlacement.PlaceOrderAsWritten | RestaurantManagerAPI/src/Services/OrderService.cs:94-95 | agrees with the intended placement when no menu item repeats, and fails when one does |
| OrderPlacement.RepeatedMenuItemRefusedAsWritten | RestaurantManagerAPI/src/Services/OrderService.cs:94-95 | five portions and a menu item on two lines: refused as written, while the intended placement stores it and leaves three |
| Data.ProductRepository.GetById | RestaurantManagerAPI/src/Data/Repositories/ProductRepository.cs:38-41 | the stored product with that id, or null exactly when there is none |
| Data.ProductRepository.Add | RestaurantManagerAPI/src/Data/Repositories/ProductRepository.cs:48-52 | stored under its id or a generated key, which is written back; a key in use is refused with no change |
| Data.ProductRepository.Update | RestaurantManagerAPI/src/Data/Repositories/ProductRepository.cs:59-73 | a stored product has all its values overwritten; a missing one throws "Product with ID … not found for update." and nothing changes |
| Data.ProductRepository.Delete | RestaurantManagerAPI/src/Data/Repositories/ProductRepository.cs:80-88 | the product is removed if present; the other rows are kept |
| Data.OrderRepository.GetOrderById | RestaurantManagerAPI/src/Data/Repositories/OrderRepository.cs:43-48 | the stored order with its lines, or null |
| Data.OrderRepository.AddOrder | RestaurantManagerAPI/src/Data/Repositories/OrderRepository.cs:56-61 | the order is inserted under its key and returned with it |
| Data.OrderRepository.UpdateOrder | RestaurantManagerAPI/src/Data/Repositories/OrderRepository.cs:68-83 | a stored order takes the new time and keeps its lines; a missing one throws "Order with ID … not found for update." and nothing changes |
| Data.OrderRepository.DeleteOrder | RestaurantManagerAPI/src/Data/Repositories/OrderRepository.cs:91-99 | the order is removed if present; the others are kept |
| Data.MenuItemRepository.GetMenuItemById | RestaurantManagerAPI/src/Data/Repositories/MenuItemRepository.cs:46-52 | the stored menu item with its links, or null |
| Data.MenuItemRepository.AddMenuItem | RestaurantManagerAPI/src/Data/Repositories/MenuItemRepository.cs:60-65 | the menu item is inserted under its key and returned with it |
| Data.MenuItemRepository.UpdateMenuItem | RestaurantManagerAPI/src/Data/Repositories/MenuItemRepository.cs:72-76 | the whole stored menu item is overwritten; with no stored row the save is a concurrency conflict and nothing changes |
| Data.MenuItemRepository.DeleteMenuItem | RestaurantManagerAPI/src/Data/Repositories/MenuItemRepository.cs:83-91 | the menu item is removed if present; the others are kept |
| Services.FirstMissingProduct | RestaurantManagerAPI/src/Services/MenuItemService.cs:61-67 | none exactly when every id names a stored product; otherwise the first id that does not |
| Services.FirstMissingAt | RestaurantManagerAPI/src/Services/MenuItemService.cs:61-67 | an id with no product after ids that all have one is the one reported |
| Services.OrderService.GetOrderById | RestaurantManagerAPI/src/Services/OrderService.cs:44-49 | the stored order, or null |
| Services.OrderService.AddOrder | RestaurantManagerAPI/src/Services/OrderService.cs:59-106 | the loops decrement the products in place; the result and both new tables are those of `PlaceOrder`, and on any error products and orders are as before |
| Services.OrderService.UpdateOrder | RestaurantManagerAPI/src/Services/OrderService.cs:114-120 | validates, then overwrites the stored order without touching stock; a missing order is a concurrency conflict with no change |
| Services.OrderService.DeleteOrder | RestaurantManagerAPI/src/Services/OrderService.cs:127-135 | the order is removed if present; deleting a missing id changes nothing |
| Services.ProductService.GetProductById | RestaurantManagerAPI/src/Services/ProductService.cs:42-45 | the stored product, or null |
| Services.ProductService.AddProduct | RestaurantManagerAPI/src/Services/ProductService.cs:50-57 | a product failing `ValidateProduct` is refused with that error and no change; otherwise it is inserted under its own id |
| Services.ProductService.UpdateProduct | RestaurantManagerAPI/src/Services/ProductService.cs:62-68 | validation first; a valid product overwrites the stored one; a missing one is a concurrency conflict with no change |
| Services.ProductService.DeleteProduct | RestaurantManagerAPI/src/Services/ProductService.cs:73-81 | the product is removed if present; a missing id changes nothing |
| Services.MenuItemService.GetMenuItemById | RestaurantManagerAPI/src/Services/MenuItemService.cs:44-47 | the repository's answer |
| Services.MenuItemService.LinkProducts | RestaurantManagerAPI/src/Services/MenuItemService.cs:61-70 | the loop appends one link per submitted id in order, or reports the first id with no product |
| Services.MenuItemService.AddMenuItem | RestaurantManagerAPI/src/Services/MenuItemService.cs:56-73 | an invalid menu item or a missing product is reported and the repository is not touched; otherwise the menu item is stored with a link per submitted id, in order |
| Services.MenuItemService.UpdateMenuItem | RestaurantManagerAPI/src/Services/MenuItemService.cs:82-108 | validation, then "MenuItem with ID … does not exist.", then the first missing product; on success the stored menu item takes the new name and exactly the submitted links |
| Services.MenuItemService.DeleteMenuItem | RestaurantManagerAPI/src/Services/MenuItemService.cs:115-118 | the repository's delete: removed if present |
| Services.MenuItemProductService.AddMenuItemProduct | RestaurantManagerAPI/src/Services/MenuItemProductService.cs:30-34 | the link pair is added; a pair already stored is refused with no change |
| Services.MenuItemProductService.RemoveMenuItemProduct | RestaurantManagerAPI/src/Services/MenuItemProductService.cs:40-50 | the link with the same pair is removed if present; no other link changes |
| ListState.FindIndex | frontend/src/app/orders/orders.component.ts:98 | -1 exactly when no element matches; otherwise the first matching index |
| ListState.ReplaceFirst | frontend/src/app/orders/orders.component.ts:98-103 | only the first matching element is replaced, the rest is kept; without a match the array is unchanged |
| ListState.Remove | frontend/src/app/orders/orders.component.ts:139 | keeps exactly the elements without the id, and nothing else |
| ListState.RemoveAppend | frontend/src/app/orders/orders.component.ts:139 | filtering keeps the order of the kept elements |
| ListState.RemoveIdempotent | frontend/src/app/orders/orders.component.ts:139 | deleting an id twice is deleting it once |
| ListState.RemoveAfterPush | frontend/src/app/orders/orders.component.ts:125-139 | deleting an entity just pushed undoes the push |
| OrdersPage.Shown | frontend/src/app/orders/orders.component.ts:68 | the shown order differs only in its id text, and that text submits back to the same ids |
| OrdersPage.ShownAll | frontend/src/app/orders/orders.component.ts:39-42 | every fetched order, shown, in order |
| OrdersPage.OrdersComponent.OnFetched | frontend/src/app/orders/orders.component.ts:36-48 | the list becomes the fetched orders, each with an id text that submits back to its ids |
| OrdersPage.OrdersComponent.OpenAddDialog | frontend/src/app/orders/orders.component.ts:50-60 | add mode with an empty form |
| OrdersPage.OrdersComponent.OpenEditDialog | frontend/src/app/orders/orders.component.ts:62-76 | edit mode, the order's id recorded, the form a shown copy of the order |
| OrdersPage.OrdersComponent.Submit | frontend/src/app/orders/orders.component.ts:78-133 | the ids are parsed from the text; an update with the edited id when in edit mode, an addition otherwise |
| OrdersPage.OrdersComponent.OnUpdated | frontend/src/app/orders/orders.component.ts:92-105 | a null answer changes nothing; otherwise the first order with that id is replaced and the form reset |
| OrdersPage.OrdersComponent.OnAdded | frontend/src/app/orders/orders.component.ts:119-127 | a null answer changes nothing; otherwise the order is appended and the form reset |
| OrdersPage.OrdersComponent.OnDeleted | frontend/src/app/orders/orders.component.ts:135-147 | every order with that id leaves the list, the others stay in order |
| OrdersPage.OrdersComponent.ResetForm | frontend/src/app/orders/orders.component.ts:149-157 | empty form, no current id, not in edit mode |
| MenuPage.Shown | frontend/src/app/menu/menu.component.ts:67-68 | the shown menu differs only in its id text, and that text submits back to the same ids |
| MenuPage.ShownAll | frontend/src/app/menu/menu.component.ts:39-42 | every fetched menu, shown, in order |
| MenuPage.MenuComponent.OnFetched | frontend/src/app/menu/menu.component.ts:36-48 | the list becomes the fetched menus, each with an id text that submits back to its ids |
| MenuPage.MenuComponent.OpenAddDialog | frontend/src/app/menu/menu.component.ts:50-60 | add mode with an empty form |
| MenuPage.MenuComponent.OpenEditDialog | frontend/src/app/menu/menu.component.ts:62-76 | edit mode, the menu's id recorded, the form a shown copy of the menu |
| MenuPage.MenuComponent.Submit | frontend/src/app/menu/menu.component.ts:78-133 | the ids are parsed from the text; an update with the edited id when in edit mode, an addition otherwise |
| MenuPage.MenuComponent.OnUpdated | frontend/src/app/menu/menu.component.ts:92-105 | a null answer changes nothing; otherwise the first menu with that id is replaced and the form reset |
| MenuPage.MenuComponent.OnAdded | frontend/src/app/menu/menu.component.ts:119-127 | a null answer changes nothing; otherwise the menu is appended and the form reset |
| MenuPage.MenuComponent.OnDeleted | frontend/src/app/menu/menu.component.ts:135-147 | every menu with that id leaves the list, the others stay in order |
| MenuPage.MenuComponent.ResetForm | frontend/src/app/menu/menu.component.ts:149-157 | empty form, no current id, not in edit mode |
| ProductsPage.ProductComponent.OnFetched | frontend/src/app/products/products.component.ts:38-47 | the list becomes the fetched products |
| ProductsPage.ProductComponent.OpenAddDialog | frontend/src/app/products/products.component.ts:49-59 | add mode with a zeroed form |
| ProductsPage.ProductComponent.OpenEditDialog | frontend/src/app/products/products.component.ts:61-72 | edit mode, the product's id recorded, the form a copy of the product |
| ProductsPage.ProductComponent.Submit | frontend/src/app/products/products.component.ts:74-123 | an update with the edited id when in edit mode, an addition otherwise |
| ProductsPage.ProductComponent.OnUpdated | frontend/src/app/products/products.component.ts:82-95 | a null answer changes nothing; otherwise the first product with that id is replaced and the form reset |
| ProductsPage.ProductComponent.OnAdded | frontend/src/app/products/products.component.ts:109-117 | a null answer changes nothing; otherwise the product is appended and the form reset |
| ProductsPage.ProductComponent.OnDeleted | frontend/src/app/products/products.component.ts:125-137 | every product with that id leaves the list, the others stay in order |
| ProductsPage.ProductComponent.ResetForm | frontend/src/app/products/products.component.ts:139-148 | zeroed form, no current id, not in edit mode |

## Left out

- Floating point: `PortionCount` and `PortionSize` are exact reals, so IEEE rounding is not modelled. The `Range` upper bound `double.MaxValue` is not checked.
- The regular expression `^[a-zA-Z\s]+$` is a predicate over characters. `\s` is read as .NET's white space.
- Integer width: ids are unbounded integers, so the 32-bit range of `int` is not modelled. JavaScript numbers are integers or `NaN`. Fractions, exponent notation and values beyond 2^53 are not modelled.
- Asynchrony, concurrency and isolation between concurrent order placements are not modelled. Each service call is one atomic step.
- Transactions: a rollback restores the products exactly as they were before the placement. The code rolls back twice on the insufficient-stock path; that is modelled as one abort. The tracked in-memory products that keep their decremented counts after a rollback are not modelled.
- Entity Framework mechanics are not modelled: change tracking, `Include`, lazy navigation and tracking conflicts between two instances of one key. An update that marks a row modified whose key is not stored is modelled as a concurrency conflict that changes nothing.
- Services.OrderService.UpdateOrder: the order passed in is written whole, lines included, as happens when the caller passes back the order it loaded. For an order object the context does not track, only the time would be written. That case is not modelled.
- Store-generated keys: a row added with id 0 gets the table's next key, and an explicit key moves that counter past it. The store's actual key sequence is not modelled.
- Referential integrity is not modelled. Deleting a product or menu item does not cascade to the links or order lines that name it. A link whose product row is gone is reported as a `NullReferenceException`, which is what the loop's dereference would throw.
- The link rows of `MenuItemProductService` (a set of pairs) and a menu item's own links (the list that order placement reads) are two separate views. Adding a pair through the service does not change the menu item's list.
- The link table's own key is not part of the visible schema. The model keys `MenuItemProductService`'s rows by the (menu item, product) pair. A menu item's own link list may name a product twice.
- The `Order` and `MenuItem` model classes are not part of this model. `ValidateMenuItem` checks the name with the same Required and pattern rules as `Product`.
- Validation.ValidateOrder: checks only the `ValidDateTime` rule on the time, and its failure message is the attribute's default text. The `ErrorMessage` that `Order.DateTime`'s attribute is configured with is not known to this model, and the program's tests expect it to say that the time "cannot be the default value". A `Required` rule on the order's line list (a null list fails) is not modelled either: a modelled order always has a list of lines.
- `GetAll…` queries, controllers, DTOs, dependency injection and hosting are not modelled.
- Front end: DOM and modal handling, `confirm()`, console logging and the HTTP client are not modelled. The delete method models the confirmed and acknowledged path. A failed request changes nothing, and the model has no method for it.
- Front end: JavaScript arrays are updated in place, and here they are sequence fields that are reassigned. Aliasing of the array is not modelled. `parseInt` is modelled for radix 10 only. A fetched entity whose id list is `null` (the `|| []` fallback) is not modelled.
- Source/test mismatches: the model follows the source. It does not follow the tests that build `ProductService` from a repository or expect all validation messages joined.

## Findings

| source | as written | input that shows it | evidently intended | confidence | as-written member | corrected member |
|---|---|---|---|---|---|---|
| RestaurantManagerAPI/src/Services/OrderService.cs:94-95 | the order lines are taken to be keyed by (order, menu item). This is an inference: `OrderMenuItem` (RestaurantManagerAPI/src/Models/OrderMenuItem.cs:26-49) declares no key of its own, and the only key the migrations show for `OrderMenuItems` is (OrderId, MenuItemId), in the `Down()` method of RestaurantManagerAPI/src/Migrations/20240829155313_UpdateMenuItemsSchema.cs:105, which restores the schema from before that migration; `Up()` drops the table. Under that key, storing an order that names one menu item on two lines meets that key twice, and the whole placement is rolled back | one product with 5 portions, one menu item linked to it, an order with lines [1, 1] | the placement deliberately counts a repeated line again, so such an order is stored and leaves 3 portions | not executed; medium: the key is inferred from the earlier schema and the key-less entity, since the context's current model configuration is not part of this model | OrderPlacement.PlaceOrderAsWritten, OrderPlacement.RepeatedMenuItemRefusedAsWritten | OrderPlacement.PlaceOrder, OrderPlacement.PlaceOrderSpec |
