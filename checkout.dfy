/** What `createOrder`'s loop over the requested items achieves: the items it
    priced and saved (a prefix of the request), the running order total, and
    why it stopped. The loop saves each item as soon as it is priced, so the
    items before a missing dish or a throwing selection stay saved. */
module Checkout {
  import opened Common
  import opened DishEntity
  import opened OrderEntity
  import opened Pricing

  /** The loop ran to the end, met a dish id with no dish, or threw while pricing. */
  datatype Stop = Completed | DishMissing | Threw

  datatype Progress = Progress(saved: seq<OrderItem>, total: int, stop: Stop)

  /** The item's dish exists and its price can be computed. */
  predicate Priceable(dishes: map<DishId, Dish>, item: OrderItem) {
    item.dishId in dishes && ItemPrice(dishes[item.dishId], item.options).Some?
  }

  /** One turn of the loop on a run that has not stopped yet. */
  function Step(dishes: map<DishId, Dish>, p: Progress, item: OrderItem): Progress {
    if item.dishId !in dishes then p.(stop := DishMissing)
    else match ItemPrice(dishes[item.dishId], item.options)
      case None => p.(stop := Threw)
      case Some(price) => Progress(p.saved + [item], p.total + price, Completed)
  }

  /** The loop run over `items`, one `Step` per item until it stops. */
  function Walk(dishes: map<DishId, Dish>, items: seq<OrderItem>): Progress
    decreases |items|
  {
    if items == [] then Progress([], 0, Completed)
    else
      var p := Walk(dishes, items[..|items| - 1]);
      if p.stop != Completed then p else Step(dishes, p, items[|items| - 1])
  }

  /** The saved items are exactly the request up to the first item that
      stops the run, each of them priceable; the run completes only when
      every item was saved, and otherwise the first unsaved item is the one
      whose dish is missing or whose pricing throws. */
  lemma {:induction false} WalkShape(dishes: map<DishId, Dish>, items: seq<OrderItem>)
    ensures var p := Walk(dishes, items);
      && |p.saved| <= |items| && p.saved == items[..|p.saved|]
      && (p.stop == Completed <==> |p.saved| == |items|)
      && (forall j :: 0 <= j < |p.saved| ==> Priceable(dishes, items[j]))
      && (p.stop == DishMissing ==> items[|p.saved|].dishId !in dishes)
      && (p.stop == Threw ==> items[|p.saved|].dishId in dishes && !Priceable(dishes, items[|p.saved|]))
    decreases |items|
  {
    if items != [] {
      var prefix := items[..|items| - 1];
      WalkShape(dishes, prefix);
      var p := Walk(dishes, prefix);
      assert p.saved == items[..|p.saved|];
    }
  }

  /** The sum of the item prices, as the reference definition of an order total. */
  function Total(dishes: map<DishId, Dish>, items: seq<OrderItem>): int
    requires forall j :: 0 <= j < |items| ==> Priceable(dishes, items[j])
  {
    if items == [] then 0
    else
      assert Priceable(dishes, items[0]);
      ItemPrice(dishes[items[0].dishId], items[0].options).value + Total(dishes, items[1..])
  }

  lemma {:induction false} TotalSnoc(dishes: map<DishId, Dish>, items: seq<OrderItem>, item: OrderItem)
    requires forall j :: 0 <= j < |items| ==> Priceable(dishes, items[j])
    requires Priceable(dishes, item)
    ensures Total(dishes, items + [item]) == Total(dishes, items) + ItemPrice(dishes[item.dishId], item.options).value
    decreases |items|
  {
    if items != [] {
      assert (items + [item])[1..] == items[1..] + [item];
      TotalSnoc(dishes, items[1..], item);
    } else {
      assert ([] + [item])[1..] == [];
    }
  }

  /** The running total is always the sum of the prices of the saved items;
      in particular a completed run's total is the whole request's total. */
  lemma {:induction false} WalkTotal(dishes: map<DishId, Dish>, items: seq<OrderItem>)
    ensures forall j :: 0 <= j < |Walk(dishes, items).saved| ==> Priceable(dishes, Walk(dishes, items).saved[j])
    ensures Walk(dishes, items).stop == Completed ==> Walk(dishes, items).saved == items
    ensures Walk(dishes, items).total == Total(dishes, Walk(dishes, items).saved)
    ensures Walk(dishes, items).stop == Completed ==> Walk(dishes, items).total == Total(dishes, items)
    decreases |items|
  {
    WalkShape(dishes, items);
    if items != [] {
      var prefix := items[..|items| - 1];
      WalkShape(dishes, prefix);
      WalkTotal(dishes, prefix);
      var p := Walk(dishes, prefix);
      if p.stop == Completed && Priceable(dishes, items[|items| - 1]) {
        TotalSnoc(dishes, p.saved, items[|items| - 1]);
      }
      WalkShape(dishes, items);
      var q := Walk(dishes, items);
      if q.stop == Completed {
        assert q.saved == items[..|items|] == items;
      }
    }
  }

  /** A run that has not stopped takes one more item by one more `Step`. */
  lemma WalkSnoc(dishes: map<DishId, Dish>, s: seq<OrderItem>, item: OrderItem)
    requires Walk(dishes, s).stop == Completed
    ensures Walk(dishes, s + [item]) == Step(dishes, Walk(dishes, s), item)
  {
    assert (s + [item])[..|s|] == s;
  }

  /** The loop's step on a priceable item: saved, and its price added. */
  lemma WalkAdvance(dishes: map<DishId, Dish>, items: seq<OrderItem>, i: nat, total: int, price: int)
    requires i < |items| && Walk(dishes, items[..i]) == Progress(items[..i], total, Completed)
    requires items[i].dishId in dishes && ItemPrice(dishes[items[i].dishId], items[i].options) == Some(price)
    ensures Walk(dishes, items[..i + 1]) == Progress(items[..i + 1], total + price, Completed)
  {
    assert items[..i] + [items[i]] == items[..i + 1];
    WalkSnoc(dishes, items[..i], items[i]);
  }

  /** The loop's step on an item that is not priceable: the run stops there
      for good. */
  lemma WalkHalts(dishes: map<DishId, Dish>, items: seq<OrderItem>, i: nat, total: int)
    requires i < |items| && Walk(dishes, items[..i]) == Progress(items[..i], total, Completed)
    requires !Priceable(dishes, items[i])
    ensures Walk(dishes, items) == Progress(items[..i], total, if items[i].dishId in dishes then Threw else DishMissing)
  {
    assert items[..i] + [items[i]] == items[..i + 1];
    WalkSnoc(dishes, items[..i], items[i]);
    WalkStopsForGood(dishes, items[..i + 1], items[i + 1..]);
    assert items[..i + 1] + items[i + 1..] == items;
  }

  /** A stopped run stays stopped: later items are neither priced nor saved. */
  lemma {:induction false} WalkStopsForGood(dishes: map<DishId, Dish>, s: seq<OrderItem>, t: seq<OrderItem>)
    requires Walk(dishes, s).stop != Completed
    ensures Walk(dishes, s + t) == Walk(dishes, s)
    decreases |t|
  {
    if t == [] {
      assert s + t == s;
    } else {
      assert (s + t)[..|s + t| - 1] == s + t[..|t| - 1];
      WalkStopsForGood(dishes, s, t[..|t| - 1]);
    }
  }

  /** The worked example: one "Large" pizza makes an order of 12. */
  lemma LargePizzaOrderTotalsTwelve()
    ensures
      var dish := Dish(1, "Pizza", 10, None, "Cheese pizza", 1,
                       Some([DishOption("Size", Some([DishChoice("Large", Some(2))]), None)]));
      var item := OrderItem(1, Some([OrderItemOption("Size", Some("Large"))]));
      Walk(map[1 := dish], [item]) == Progress([item], 12, Completed)
  {
    LargeSizeCostsTwelve();
    var item := OrderItem(1, Some([OrderItemOption("Size", Some("Large"))]));
    assert [item][..0] == [];
  }
}
