/** What placing an order does to the stock: the specification that `OrderService.AddOrder` is
    proved against, and what it guarantees. */
module OrderPlacement {
  import opened Wrappers
  import opened Domain
  import opened Tables
  import opened Validation

  /** One portion less. */
  function Decrement(p: Product): (q: Product)
    ensures q.portionCount == p.portionCount - 1.0
    ensures q == p.(portionCount := q.portionCount)
  {
    p.(portionCount := p.portionCount - 1.0)
  }

  /** Visiting one linked product: it must be stored (a link whose product row is gone dereferences
      null) and have a portion count of at least 1; it then loses one portion. */
  function Take(stock: map<int, Product>, productId: int): (r: Result<map<int, Product>, Error>)
    ensures r.Ok? <==> productId in stock && stock[productId].portionCount >= 1.0
    ensures r.Ok? ==> r.value == stock[productId := Decrement(stock[productId])]
  {
    if productId !in stock then Err(MissingLinkedProduct(productId))
    else if stock[productId].portionCount < 1.0 then Err(InsufficientStock(stock[productId].name))
    else Ok(stock[productId := Decrement(stock[productId])])
  }

  /** Visiting a menu item's linked products in order, stopping at the first failure. */
  function ConsumeLinks(stock: map<int, Product>, links: seq<int>): Result<map<int, Product>, Error>
    decreases |links|
  {
    if links == [] then Ok(stock)
    else match Take(stock, links[0])
      case Err(e) => Err(e)
      case Ok(next) => ConsumeLinks(next, links[1..])
  }

  /** One order line: the menu item must exist; then its linked products are visited. */
  function PlaceLine(stock: map<int, Product>, menuItems: map<int, MenuItem>, menuItemId: int): Result<map<int, Product>, Error> {
    if menuItemId !in menuItems then Err(MenuItemNotFound(menuItemId))
    else ConsumeLinks(stock, menuItems[menuItemId].links)
  }

  /** All order lines in list order, stopping at the first failure. */
  function Reconcile(stock: map<int, Product>, menuItems: map<int, MenuItem>, lines: seq<int>): Result<map<int, Product>, Error>
    decreases |lines|
  {
    if lines == [] then Ok(stock)
    else match PlaceLine(stock, menuItems, lines[0])
      case Err(e) => Err(e)
      case Ok(next) => Reconcile(next, menuItems, lines[1..])
  }

  /** How many portions of `productId` the lines ask for: one per occurrence of the product among
      the links of each line's menu item, counted again for every line that repeats a menu item. */
  function Demand(menuItems: map<int, MenuItem>, lines: seq<int>, productId: int): nat
    decreases |lines|
  {
    if lines == [] then 0
    else
      (if lines[0] in menuItems then multiset(menuItems[lines[0]].links)[productId] else 0)
      + Demand(menuItems, lines[1..], productId)
  }

  /** `after` is `before` with `need(pid)` portions taken from every product. */
  ghost predicate Deducted(before: map<int, Product>, after: map<int, Product>, need: int -> int) {
    && after.Keys == before.Keys
    && forall pid :: pid in before ==>
         after[pid] == before[pid].(portionCount := before[pid].portionCount - need(pid) as real)
  }

  // ---------------------------------------------------------------------------------------------
  // Lines and links are processed in list order.

  lemma {:induction false} ConsumeLinksAppend(stock: map<int, Product>, a: seq<int>, b: seq<int>)
    ensures ConsumeLinks(stock, a + b) ==
      match ConsumeLinks(stock, a)
      case Err(e) => Err(e)
      case Ok(mid) => ConsumeLinks(mid, b)
    decreases |a|
  {
    if a != [] {
      assert (a + b)[0] == a[0] && (a + b)[1..] == a[1..] + b;
      if Take(stock, a[0]).Ok? {
        ConsumeLinksAppend(Take(stock, a[0]).value, a[1..], b);
      }
    } else {
      assert a + b == b;
    }
  }

  /** Placing `a + b` is placing `a` and then, from the stock that leaves, placing `b`; the first
      failure in list order is the one reported. */
  lemma {:induction false} ReconcileAppend(stock: map<int, Product>, menuItems: map<int, MenuItem>, a: seq<int>, b: seq<int>)
    ensures Reconcile(stock, menuItems, a + b) ==
      match Reconcile(stock, menuItems, a)
      case Err(e) => Err(e)
      case Ok(mid) => Reconcile(mid, menuItems, b)
    decreases |a|
  {
    if a != [] {
      assert (a + b)[0] == a[0] && (a + b)[1..] == a[1..] + b;
      if PlaceLine(stock, menuItems, a[0]).Ok? {
        ReconcileAppend(PlaceLine(stock, menuItems, a[0]).value, menuItems, a[1..], b);
      }
    } else {
      assert a + b == b;
    }
  }

  // ---------------------------------------------------------------------------------------------
  // What a successful placement does to the stock.

  /** Every product that `need` names is stored with at least as many portions as `need` counts. */
  predicate Covers(stock: map<int, Product>, need: multiset<int>) {
    forall pid :: pid in need ==> pid in stock && stock[pid].portionCount >= need[pid] as real
  }

  /** Every order line names a stored menu item. */
  predicate AllKnown(menuItems: map<int, MenuItem>, lines: seq<int>) {
    forall i :: 0 <= i < |lines| ==> lines[i] in menuItems
  }

  /** Every product holds at least the portions the lines demand of it. */
  ghost predicate CoversDemand(stock: map<int, Product>, menuItems: map<int, MenuItem>, lines: seq<int>) {
    forall pid :: Demand(menuItems, lines, pid) > 0 ==>
      pid in stock && stock[pid].portionCount >= Demand(menuItems, lines, pid) as real
  }

  /** Visiting a list of links succeeds exactly when every linked product is stored and has at
      least as many portions as the list names it; it then takes that many portions from each. */
  lemma {:induction false} ConsumeLinksSpec(stock: map<int, Product>, links: seq<int>)
    ensures ConsumeLinks(stock, links).Ok? <==> Covers(stock, multiset(links))
    ensures ConsumeLinks(stock, links).Ok? ==>
      Deducted(stock, ConsumeLinks(stock, links).value, pid => multiset(links)[pid])
    decreases |links|
  {
    if links == [] {
      assert forall pid :: multiset(links)[pid] == 0;
    } else {
      var pid0 := links[0];
      var rest := links[1..];
      assert links == [pid0] + rest;
      if Take(stock, pid0).Err? {
        assert multiset(links) == multiset{pid0} + multiset(rest);
        assert pid0 in multiset(links);
      } else {
        var next := Take(stock, pid0).value;
        ConsumeLinksSpec(next, rest);
        assert ConsumeLinks(stock, links) == ConsumeLinks(next, rest);
        CoversStep(stock, next, pid0, rest);
        if ConsumeLinks(next, rest).Ok? {
          TakenStep(stock, next, ConsumeLinks(next, rest).value, pid0, rest);
        }
      }
    }
  }

  /** After the first link is taken, the rest is covered exactly when the whole list was. */
  lemma {:induction false} CoversStep(stock: map<int, Product>, next: map<int, Product>, pid0: int, rest: seq<int>)
    requires Take(stock, pid0) == Ok(next)
    ensures Covers(stock, multiset([pid0] + rest)) <==> Covers(next, multiset(rest))
  {
  }

  /** Taking the first link and then the rest takes, from every product, as many portions as the
      whole list names it. */
  lemma {:induction false} TakenStep(stock: map<int, Product>, next: map<int, Product>, after: map<int, Product>, pid0: int, rest: seq<int>)
    requires Take(stock, pid0) == Ok(next)
    requires Deducted(next, after, pid => multiset(rest)[pid])
    ensures Deducted(stock, after, pid => multiset([pid0] + rest)[pid])
  {
  }

  /** An order's lines can be placed exactly when every line names a stored menu item and every
      product has at least as many portions as the lines demand in total; placing them then takes
      exactly that demand from every product and changes nothing else. */
  lemma {:induction false} ReconcileSpec(stock: map<int, Product>, menuItems: map<int, MenuItem>, lines: seq<int>)
    ensures Reconcile(stock, menuItems, lines).Ok? <==>
      AllKnown(menuItems, lines) && CoversDemand(stock, menuItems, lines)
    ensures Reconcile(stock, menuItems, lines).Ok? ==>
      Deducted(stock, Reconcile(stock, menuItems, lines).value, pid => Demand(menuItems, lines, pid))
    decreases |lines|
  {
    if lines != [] {
      var l := lines[0];
      var rest := lines[1..];
      assert lines == [l] + rest;
      if l !in menuItems {
        assert !AllKnown(menuItems, lines);
      } else {
        var links := menuItems[l].links;
        ConsumeLinksSpec(stock, links);
        DemandStep(menuItems, l, rest);
        if ConsumeLinks(stock, links).Err? {
          ShortOfLinks(stock, menuItems, l, rest);
        } else {
          var next := ConsumeLinks(stock, links).value;
          ReconcileSpec(next, menuItems, rest);
          assert Reconcile(stock, menuItems, lines) == Reconcile(next, menuItems, rest);
          AllKnownStep(menuItems, l, rest);
          CoversDemandStep(stock, next, menuItems, l, rest);
          if Reconcile(next, menuItems, rest).Ok? {
            DeductedStep(stock, next, Reconcile(next, menuItems, rest).value, menuItems, l, rest);
          }
        }
      }
    }
  }

  /** The first line demands its menu item's links, the other lines the rest. */
  lemma {:induction false} DemandStep(menuItems: map<int, MenuItem>, l: int, rest: seq<int>)
    requires l in menuItems
    ensures forall pid :: Demand(menuItems, [l] + rest, pid) == multiset(menuItems[l].links)[pid] + Demand(menuItems, rest, pid)
  {
  }

  /** A first line whose links are not covered leaves the whole order's demand uncovered. */
  lemma {:induction false} ShortOfLinks(stock: map<int, Product>, menuItems: map<int, MenuItem>, l: int, rest: seq<int>)
    requires l in menuItems
    requires !Covers(stock, multiset(menuItems[l].links))
    ensures !CoversDemand(stock, menuItems, [l] + rest)
  {
  }

  /** A stored first menu item leaves the other lines to decide whether all are known. */
  lemma {:induction false} AllKnownStep(menuItems: map<int, MenuItem>, l: int, rest: seq<int>)
    requires l in menuItems
    ensures AllKnown(menuItems, [l] + rest) <==> AllKnown(menuItems, rest)
  {
    var lines := [l] + rest;
    if AllKnown(menuItems, rest) {
      forall i | 0 <= i < |lines| ensures lines[i] in menuItems {
        if i > 0 { assert lines[i] == rest[i - 1]; }
      }
    }
    if AllKnown(menuItems, lines) {
      forall i | 0 <= i < |rest| ensures rest[i] in menuItems {
        assert rest[i] == lines[i + 1];
      }
    }
  }

  /** Once the first line's links are taken, the rest of the demand is covered exactly when the
      whole demand was. */
  lemma {:induction false} CoversDemandStep(stock: map<int, Product>, next: map<int, Product>, menuItems: map<int, MenuItem>, l: int, rest: seq<int>)
    requires l in menuItems
    requires Deducted(stock, next, pid => multiset(menuItems[l].links)[pid])
    requires Covers(stock, multiset(menuItems[l].links))
    ensures CoversDemand(stock, menuItems, [l] + rest) <==> CoversDemand(next, menuItems, rest)
  {
  }

  /** Taking the first line's links and then the other lines' demand takes the whole demand. */
  lemma {:induction false} DeductedStep(stock: map<int, Product>, next: map<int, Product>, after: map<int, Product>, menuItems: map<int, MenuItem>, l: int, rest: seq<int>)
    requires l in menuItems
    requires Deducted(stock, next, pid => multiset(menuItems[l].links)[pid])
    requires Deducted(next, after, pid => Demand(menuItems, rest, pid))
    ensures Deducted(stock, after, pid => Demand(menuItems, [l] + rest, pid))
  {
  }

  // ---------------------------------------------------------------------------------------------
  // The whole placement: validation, stock, then the new order row, all or nothing.

  /** A successful placement: the new product and order tables and the order as stored. */
  datatype Placement = Placement(products: Table<Product>, orders: Table<Order>, order: Order)

  /** `AddOrderAsync` as one step: the order is validated, its lines are placed against the
      stock, and the order is stored under its key; any failure leaves both tables as they were.
      An order that names a menu item on several lines is stored with all of them, as the
      placement's counting of repeated lines intends (see PlaceOrderAsWritten for the schema's
      refusal of such an order). */
  function PlaceOrder(products: Table<Product>, menuItems: map<int, MenuItem>, orders: Table<Order>, order: Order): (r: Result<Placement, Error>)
    requires orders.Valid()
  {
    if ValidateOrder(order).Fail? then Err(ValidateOrder(order).error)
    else match Reconcile(products.rows, menuItems, order.lines)
      case Err(e) => Err(e)
      case Ok(stock) =>
        var placed := order.(id := orders.KeyFor(order.id));
        match orders.Add(placed.id, placed)
        case Err(e) => Err(e)
        case Ok(stored) => Ok(Placement(products.(rows := stock), stored, placed))
  }

  /** When a line fails after the lines before it succeeded, the whole placement reports that
      line's error: lines are handled strictly in list order. */
  lemma {:induction false} FirstFailureReported(stock: map<int, Product>, menuItems: map<int, MenuItem>, lines: seq<int>, i: int, mid: map<int, Product>)
    requires 0 <= i < |lines|
    requires Reconcile(stock, menuItems, lines[..i]) == Ok(mid)
    requires PlaceLine(mid, menuItems, lines[i]).Err?
    ensures Reconcile(stock, menuItems, lines) == Err(PlaceLine(mid, menuItems, lines[i]).error)
  {
    assert lines == lines[..i] + lines[i..];
    ReconcileAppend(stock, menuItems, lines[..i], lines[i..]);
    assert lines[i..][0] == lines[i];
  }

  /** Likewise for the links of one menu item. */
  lemma {:induction false} FirstLinkFailureReported(stock: map<int, Product>, links: seq<int>, j: int, mid: map<int, Product>)
    requires 0 <= j < |links|
    requires ConsumeLinks(stock, links[..j]) == Ok(mid)
    requires Take(mid, links[j]).Err?
    ensures ConsumeLinks(stock, links) == Err(Take(mid, links[j]).error)
  {
    assert links == links[..j] + links[j..];
    ConsumeLinksAppend(stock, links[..j], links[j..]);
    assert links[j..][0] == links[j];
  }

  /** One more link, or one more line, extends a successful prefix. */
  lemma {:induction false} LinkPrefixStep(stock: map<int, Product>, links: seq<int>, j: int, mid: map<int, Product>)
    requires 0 <= j < |links|
    requires ConsumeLinks(stock, links[..j]) == Ok(mid)
    requires Take(mid, links[j]).Ok?
    ensures ConsumeLinks(stock, links[..j + 1]) == Take(mid, links[j])
  {
    assert links[..j + 1] == links[..j] + [links[j]];
    ConsumeLinksAppend(stock, links[..j], [links[j]]);
    assert [links[j]][1..] == [];
  }

  lemma {:induction false} LinePrefixStep(stock: map<int, Product>, menuItems: map<int, MenuItem>, lines: seq<int>, i: int, mid: map<int, Product>)
    requires 0 <= i < |lines|
    requires Reconcile(stock, menuItems, lines[..i]) == Ok(mid)
    requires PlaceLine(mid, menuItems, lines[i]).Ok?
    ensures Reconcile(stock, menuItems, lines[..i + 1]) == PlaceLine(mid, menuItems, lines[i])
  {
    assert lines[..i + 1] == lines[..i] + [lines[i]];
    ReconcileAppend(stock, menuItems, lines[..i], [lines[i]]);
    assert [lines[i]][1..] == [];
  }

  /** An order is placed exactly when its time is set, every line names a stored menu item, every
      product holds at least the portions the order demands, and its key is free. Then every
      product loses exactly its demand, none goes below zero, the order is stored under its key
      with its lines, and no other order row changes; otherwise nothing changes. */
  lemma {:induction false} PlaceOrderSpec(products: Table<Product>, menuItems: map<int, MenuItem>, orders: Table<Order>, order: Order)
    requires orders.Valid()
    ensures PlaceOrder(products, menuItems, orders, order).Ok? <==>
      && order.dateTime != MinValueTicks
      && (forall i :: 0 <= i < |order.lines| ==> order.lines[i] in menuItems)
      && (forall pid :: Demand(menuItems, order.lines, pid) > 0 ==>
            pid in products.rows && products.rows[pid].portionCount >= Demand(menuItems, order.lines, pid) as real)
      && orders.KeyFor(order.id) !in orders.rows
    ensures PlaceOrder(products, menuItems, orders, order).Ok? ==>
      var placement := PlaceOrder(products, menuItems, orders, order).value;
      && Deducted(products.rows, placement.products.rows, pid => Demand(menuItems, order.lines, pid))
      && placement.products.next == products.next
      && (forall pid :: Demand(menuItems, order.lines, pid) > 0 ==> placement.products.rows[pid].portionCount >= 0.0)
      && placement.order == order.(id := orders.KeyFor(order.id))
      && placement.orders.Valid()
      && placement.orders.rows == orders.rows[placement.order.id := placement.order]
  {
    ReconcileSpec(products.rows, menuItems, order.lines);
  }

  /** A failed placement reports the validation error first, and otherwise the error of the first
      line or link that failed, or the refused key. */
  lemma {:induction false} PlaceOrderErrors(products: Table<Product>, menuItems: map<int, MenuItem>, orders: Table<Order>, order: Order)
    requires orders.Valid()
    ensures order.dateTime == MinValueTicks ==>
      PlaceOrder(products, menuItems, orders, order) == Err(ValidateOrder(order).error)
    ensures order.dateTime != MinValueTicks && Reconcile(products.rows, menuItems, order.lines).Err? ==>
      PlaceOrder(products, menuItems, orders, order) == Err(Reconcile(products.rows, menuItems, order.lines).error)
    ensures (order.dateTime != MinValueTicks && Reconcile(products.rows, menuItems, order.lines).Ok?
             && orders.KeyFor(order.id) in orders.rows) ==>
      PlaceOrder(products, menuItems, orders, order) == Err(DuplicateKey(orders.KeyFor(order.id)))
  {
  }

  /** With one portion of a product in stock, an order naming its menu item twice is refused with
      the product's name, and the first portion taken is given back. */
  lemma TwoOrdersOfOnePortionFail()
    ensures var tomato := Product(1, Some("Tomato"), 1.0, Some("kg"), 0.2);
      var salad := MenuItem(1, Some("Salad"), [1], [1]);
      var stock := Table(map[1 := tomato], 2);
      PlaceOrder(stock, map[1 := salad], EmptyTable(), Order(0, 1, [1, 1]))
        == Err(InsufficientStock(Some("Tomato")))
  {
    var tomato := Product(1, Some("Tomato"), 1.0, Some("kg"), 0.2);
    var salad := MenuItem(1, Some("Salad"), [1], [1]);
    var once := map[1 := tomato.(portionCount := 0.0)];
    assert ConsumeLinks(map[1 := tomato], [1]) == Ok(once) by {
      assert [1][1..] == [];
      assert map[1 := tomato][1 := Decrement(tomato)] == once;
    }
    assert Reconcile(once, map[1 := salad], [1]) == Err(InsufficientStock(Some("Tomato")));
    assert [1, 1][1..] == [1];
  }

  /** With five portions in stock, one order of the menu item leaves four and is stored under the
      first generated key. */
  lemma OneOrderOfFivePortionsLeavesFour()
    ensures var tomato := Product(1, Some("Tomato"), 5.0, Some("kg"), 0.2);
      var salad := MenuItem(1, Some("Salad"), [1], [1]);
      var r := PlaceOrder(Table(map[1 := tomato], 2), map[1 := salad], EmptyTable(), Order(0, 1, [1]));
      && r.Ok?
      && r.value.products.rows == map[1 := tomato.(portionCount := 4.0)]
      && r.value.order == Order(1, 1, [1])
      && r.value.orders.rows == map[1 := Order(1, 1, [1])]
  {
    var tomato := Product(1, Some("Tomato"), 5.0, Some("kg"), 0.2);
    var salad := MenuItem(1, Some("Salad"), [1], [1]);
    var left := map[1 := tomato.(portionCount := 4.0)];
    assert ConsumeLinks(map[1 := tomato], [1]) == Ok(left) by {
      assert [1][1..] == [];
      assert map[1 := tomato][1 := Decrement(tomato)] == left;
    }
  }

  // ---------------------------------------------------------------------------------------------
  // The order line table is taken to be keyed by the pair (order, menu item): `OrderMenuItem`
  // declares no key of its own, and (OrderId, MenuItemId) is the only key the migrations show for
  // that table (in the `Down()` of UpdateMenuItemsSchema, which restores the earlier schema).

  /** The first line whose menu item already appeared on an earlier line, if any: the line at
      which storing the order's lines meets a key pair it already holds. */
  function RepeatedLine(lines: seq<int>): (r: Option<int>)
    ensures r.None? <==> forall i, j :: 0 <= i < j < |lines| ==> lines[i] != lines[j]
    ensures r.Some? ==> exists j :: 0 <= j < |lines| && lines[j] == r.value && r.value in lines[..j]
    decreases |lines|
  {
    if lines == [] then None
    else
      var init := lines[..|lines| - 1];
      var last := lines[|lines| - 1];
      assert forall i :: 0 <= i < |init| ==> init[i] == lines[i];
      match RepeatedLine(init)
      case Some(m) =>
        var j :| 0 <= j < |init| && init[j] == m && m in init[..j];
        assert init[..j] == lines[..j];
        Some(m)
      case None =>
        if last in init then
          assert init == lines[..|lines| - 1];
          Some(last)
        else None
  }

  /** Placement as the code and the schema behave together: after the stock has been taken,
      storing an order that names a menu item twice meets the line table's key (order, menu item)
      a second time and is refused, so the whole placement is rolled back. */
  function PlaceOrderAsWritten(products: Table<Product>, menuItems: map<int, MenuItem>, orders: Table<Order>, order: Order): (r: Result<Placement, Error>)
    requires orders.Valid()
    ensures RepeatedLine(order.lines).None? ==> r == PlaceOrder(products, menuItems, orders, order)
    ensures RepeatedLine(order.lines).Some? ==> r.Err?
  {
    if ValidateOrder(order).Fail? then Err(ValidateOrder(order).error)
    else match Reconcile(products.rows, menuItems, order.lines)
      case Err(e) => Err(e)
      case Ok(_) =>
        var key := orders.KeyFor(order.id);
        match RepeatedLine(order.lines)
        case Some(m) => Err(DuplicateLine(key, m))
        case None => PlaceOrder(products, menuItems, orders, order)
  }

  /** The order placement counts a menu item listed twice twice on purpose, yet with enough stock
      for both portions such an order is still refused as written; the intended placement stores
      it and takes both portions. */
  lemma RepeatedMenuItemRefusedAsWritten()
    ensures var tomato := Product(1, Some("Tomato"), 5.0, Some("kg"), 0.2);
      var salad := MenuItem(1, Some("Salad"), [1], [1]);
      var stock := Table(map[1 := tomato], 2);
      var order := Order(0, 1, [1, 1]);
      && PlaceOrderAsWritten(stock, map[1 := salad], EmptyTable(), order) == Err(DuplicateLine(1, 1))
      && PlaceOrder(stock, map[1 := salad], EmptyTable(), order).Ok?
      && PlaceOrder(stock, map[1 := salad], EmptyTable(), order).value.products.rows
           == map[1 := tomato.(portionCount := 3.0)]
  {
    var tomato := Product(1, Some("Tomato"), 5.0, Some("kg"), 0.2);
    var salad := MenuItem(1, Some("Salad"), [1], [1]);
    var four := map[1 := tomato.(portionCount := 4.0)];
    var three := map[1 := tomato.(portionCount := 3.0)];
    assert [1][1..] == [];
    assert ConsumeLinks(map[1 := tomato], [1]) == Ok(four) by {
      assert map[1 := tomato][1 := Decrement(tomato)] == four;
    }
    assert ConsumeLinks(four, [1]) == Ok(three) by {
      assert four[1 := Decrement(four[1])] == three;
    }
    assert [1, 1][1..] == [1];
    assert Reconcile(map[1 := tomato], map[1 := salad], [1, 1]) == Ok(three);
    assert [1, 1][..1] == [1];
    assert RepeatedLine([1, 1]) == Some(1);
  }
}
