/** How `createOrder` prices one order item: the dish's base price plus what
    each selection adds. `None` stands for the TypeError the source raises
    when it dereferences a missing value; the service turns it into its
    generic failure. */
module Pricing {
  import opened Common
  import opened DishEntity
  import opened OrderEntity

  /** JavaScript truthiness of an optional number: absent and 0 are falsy. */
  predicate Truthy(x: Option<int>) {
    x.Some? && x.value != 0
  }

  /** Matches a dish option by the selection's name. */
  function OptionNamed(name: string): DishOption -> bool {
    (o: DishOption) => o.name == name
  }

  /** Matches a choice by the selected value; an absent selection matches no choice. */
  function ChoiceNamed(choice: Option<string>): DishChoice -> bool {
    (c: DishChoice) => choice == Some(c.name)
  }

  /** What one selection adds to the item's price. */
  function SelectionExtra(dish: Dish, sel: OrderItemOption): Option<int> {
    match dish.options
    case None => None  // `dish.options.find` on a null column
    case Some(opts) =>
      match Find(opts, OptionNamed(sel.name))
      case None => Some(0)  // a selection naming no option is ignored
      case Some(k) =>
        if Truthy(opts[k].extra) then Some(opts[k].extra.value)
        else match opts[k].choices
          case None => None  // `choices?.find` gives undefined, whose `extra` throws
          case Some(cs) =>
            match Find(cs, ChoiceNamed(sel.choice))
            case None => None  // the selected choice is absent: same throw
            case Some(j) => Some(if Truthy(cs[j].extra) then cs[j].extra.value else 0)
  }

  /** Addition in which a throw on either side throws. */
  function Plus(a: Option<int>, b: Option<int>): Option<int> {
    if a.Some? && b.Some? then Some(a.value + b.value) else None
  }

  /** What a list of selections adds, taken in the loop's order. */
  function Extras(dish: Dish, sels: seq<OrderItemOption>): Option<int>
    decreases |sels|
  {
    if sels == [] then Some(0)
    else Plus(Extras(dish, sels[..|sels| - 1]), SelectionExtra(dish, sels[|sels| - 1]))
  }

  /** The final price of one item; iterating over an absent selection list throws. */
  function ItemPrice(dish: Dish, options: Option<seq<OrderItemOption>>): Option<int> {
    match options
    case None => None
    case Some(sels) => Plus(Some(dish.price), Extras(dish, sels))
  }

  /** The pricing loop as the service runs it: start from the base price and
      add, selection by selection, what the selection adds; the first
      selection that throws ends the call. */
  method PriceItem(dish: Dish, options: Option<seq<OrderItemOption>>) returns (price: Option<int>)
    ensures price == ItemPrice(dish, options)
  {
    if options.None? {
      return None;
    }
    var sels := options.value;
    var dishFinalPrice := dish.price;
    var i := 0;
    while i < |sels|
      invariant 0 <= i <= |sels|
      invariant Extras(dish, sels[..i]) == Some(dishFinalPrice - dish.price)
    {
      var extra := PriceSelection(dish, sels[i]);
      if extra.None? {
        SelectionThrows(dish, sels, i);
        return None;
      }
      ExtrasSnoc(dish, sels, i);
      dishFinalPrice := dishFinalPrice + extra.value;
      i := i + 1;
    }
    assert sels[..i] == sels;
    price := Some(dishFinalPrice);
  }

  /** The body of the pricing loop for one selection: the option it names,
      then its flat extra if non-zero, else the extra of the selected choice;
      `None` where the source dereferences a missing value. */
  method PriceSelection(dish: Dish, sel: OrderItemOption) returns (extra: Option<int>)
    ensures extra == SelectionExtra(dish, sel)
  {
    if dish.options.None? {
      return None;
    }
    var opts := dish.options.value;
    var k := Find(opts, OptionNamed(sel.name));
    if k.None? {
      return Some(0);
    }
    var dishOption := opts[k.value];
    if Truthy(dishOption.extra) {
      return Some(dishOption.extra.value);
    }
    if dishOption.choices.None? {
      return None;
    }
    var cs := dishOption.choices.value;
    var j := Find(cs, ChoiceNamed(sel.choice));
    if j.None? {
      return None;
    }
    if Truthy(cs[j.value].extra) {
      return Some(cs[j.value].extra.value);
    }
    return Some(0);
  }

  /** A selection that throws makes the whole list throw. */
  lemma SelectionThrows(dish: Dish, sels: seq<OrderItemOption>, i: nat)
    requires i < |sels| && SelectionExtra(dish, sels[i]).None?
    ensures Extras(dish, sels).None?
  {
    ExtrasSnoc(dish, sels, i);
    ExtrasThrowPersists(dish, sels[..i + 1], sels[i + 1..]);
    assert sels[..i + 1] + sels[i + 1..] == sels;
  }

  /** One more selection adds its own extra to what the earlier ones add. */
  lemma ExtrasSnoc(dish: Dish, sels: seq<OrderItemOption>, i: nat)
    requires i < |sels|
    ensures Extras(dish, sels[..i + 1]) == Plus(Extras(dish, sels[..i]), SelectionExtra(dish, sels[i]))
  {
    assert sels[..i + 1][..i] == sels[..i];
  }

  lemma PlusAssociative(a: Option<int>, b: Option<int>, c: Option<int>)
    ensures Plus(Plus(a, b), c) == Plus(a, Plus(b, c))
  {
  }

  /** Extras are additive over concatenation of selection lists. */
  lemma {:induction false} ExtrasAppend(dish: Dish, s: seq<OrderItemOption>, t: seq<OrderItemOption>)
    ensures Extras(dish, s + t) == Plus(Extras(dish, s), Extras(dish, t))
    decreases |t|
  {
    if t == [] {
      assert s + t == s;
      var x := Extras(dish, s);
      assert Extras(dish, t) == Some(0);
      assert Plus(x, Some(0)) == x;
    } else {
      var t' := t[..|t| - 1];
      var e := SelectionExtra(dish, t[|t| - 1]);
      ExtrasSnoc(dish, s + t, |s + t| - 1);
      assert (s + t)[..|s + t| - 1] == s + t';
      assert (s + t)[..|s + t|] == s + t;
      ExtrasSnoc(dish, t, |t| - 1);
      assert t[..|t|] == t;
      ExtrasAppend(dish, s, t');
      PlusAssociative(Extras(dish, s), Extras(dish, t'), e);
    }
  }

  /** Once a selection throws, every longer list of selections throws. */
  lemma ExtrasThrowPersists(dish: Dish, s: seq<OrderItemOption>, t: seq<OrderItemOption>)
    requires Extras(dish, s).None?
    ensures Extras(dish, s + t).None?
  {
    ExtrasAppend(dish, s, t);
  }

  /** A selection that names no option of the dish is ignored: the price is
      the one the list without it has. */
  lemma UnmatchedSelectionIgnored(dish: Dish, s: seq<OrderItemOption>, sel: OrderItemOption, t: seq<OrderItemOption>)
    requires dish.options.Some?
    requires forall o :: o in dish.options.value ==> o.name != sel.name
    ensures ItemPrice(dish, Some(s + [sel] + t)) == ItemPrice(dish, Some(s + t))
  {
    var opts := dish.options.value;
    assert forall j :: 0 <= j < |opts| ==> !OptionNamed(sel.name)(opts[j]);
    assert Extras(dish, [sel]) == Some(0) by {
      assert [sel][..0] == [];
    }
    ExtrasAppend(dish, s, [sel]);
    ExtrasAppend(dish, s + [sel], t);
    ExtrasAppend(dish, s, t);
  }

  /** The order in which options are selected does not change the price. */
  lemma SelectionOrderIrrelevant(dish: Dish, s: seq<OrderItemOption>, t: seq<OrderItemOption>)
    ensures ItemPrice(dish, Some(s + t)) == ItemPrice(dish, Some(t + s))
  {
    ExtrasAppend(dish, s, t);
    ExtrasAppend(dish, t, s);
  }

  /** A selection whose matched option has no non-zero flat extra and whose
      chosen value is not among the option's choices makes the whole item throw. */
  lemma MissingChoiceThrows(dish: Dish, s: seq<OrderItemOption>, sel: OrderItemOption, t: seq<OrderItemOption>, k: nat)
    requires dish.options.Some? && k < |dish.options.value|
    requires dish.options.value[k].name == sel.name
    requires forall j :: 0 <= j < k ==> dish.options.value[j].name != sel.name
    requires !Truthy(dish.options.value[k].extra)
    requires dish.options.value[k].choices.None?
          || forall c :: c in dish.options.value[k].choices.value ==> sel.choice != Some(c.name)
    ensures ItemPrice(dish, Some(s + [sel] + t)).None?
  {
    var opts := dish.options.value;
    assert OptionNamed(sel.name)(opts[k]);
    assert Find(opts, OptionNamed(sel.name)) == Some(k);
    if opts[k].choices.Some? {
      var cs := opts[k].choices.value;
      assert forall j :: 0 <= j < |cs| ==> !ChoiceNamed(sel.choice)(cs[j]);
    }
    assert Extras(dish, [sel]).None? by {
      assert [sel][..0] == [];
    }
    ExtrasAppend(dish, s, [sel]);
    ExtrasAppend(dish, s + [sel], t);
  }

  /** A matched option with a non-zero flat extra adds exactly that extra,
      whatever choices it also lists. */
  lemma FlatExtraTakesPrecedence(dish: Dish, sel: OrderItemOption, k: nat)
    requires dish.options.Some? && k < |dish.options.value|
    requires dish.options.value[k].name == sel.name
    requires forall j :: 0 <= j < k ==> dish.options.value[j].name != sel.name
    requires Truthy(dish.options.value[k].extra)
    ensures ItemPrice(dish, Some([sel])) == Some(dish.price + dish.options.value[k].extra.value)
  {
    var opts := dish.options.value;
    assert OptionNamed(sel.name)(opts[k]);
    assert Find(opts, OptionNamed(sel.name)) == Some(k);
    assert SelectionExtra(dish, sel) == Some(opts[k].extra.value);
    assert [sel][..0] == [];
    assert Extras(dish, [sel]) == Plus(Extras(dish, []), SelectionExtra(dish, sel));
  }

  /** A matched option without a non-zero flat extra adds the extra of the
      first of its choices that is the selected value, or nothing when that
      choice's extra is absent or 0. */
  lemma ChosenValueAddsItsExtra(dish: Dish, sel: OrderItemOption, k: nat, j: nat)
    requires dish.options.Some? && k < |dish.options.value|
    requires dish.options.value[k].name == sel.name
    requires forall i :: 0 <= i < k ==> dish.options.value[i].name != sel.name
    requires !Truthy(dish.options.value[k].extra)
    requires dish.options.value[k].choices.Some? && j < |dish.options.value[k].choices.value|
    requires sel.choice == Some(dish.options.value[k].choices.value[j].name)
    requires forall i :: 0 <= i < j ==> sel.choice != Some(dish.options.value[k].choices.value[i].name)
    ensures var c := dish.options.value[k].choices.value[j];
      ItemPrice(dish, Some([sel])) == Some(dish.price + if Truthy(c.extra) then c.extra.value else 0)
  {
    var opts := dish.options.value;
    var cs := opts[k].choices.value;
    assert OptionNamed(sel.name)(opts[k]);
    assert Find(opts, OptionNamed(sel.name)) == Some(k);
    assert ChoiceNamed(sel.choice)(cs[j]);
    assert Find(cs, ChoiceNamed(sel.choice)) == Some(j);
    assert [sel][..0] == [];
    assert Extras(dish, [sel]) == Plus(Extras(dish, []), SelectionExtra(dish, sel));
  }

  /** A dish whose options column is null cannot price any selection: the
      item throws as soon as one is given. */
  lemma NullOptionsThrows(dish: Dish, sels: seq<OrderItemOption>)
    requires dish.options.None? && sels != []
    ensures ItemPrice(dish, Some(sels)).None?
  {
    SelectionThrows(dish, sels, 0);
  }

  /** Every surcharge the dish declares is non-negative. */
  predicate NonNegativeExtras(dish: Dish) {
    dish.options.Some? ==>
      forall o :: o in dish.options.value ==>
        (o.extra.Some? ==> o.extra.value >= 0) &&
        (o.choices.Some? ==> forall c :: c in o.choices.value ==> c.extra.Some? ==> c.extra.value >= 0)
  }

  /** With non-negative surcharges a priced item never costs less than the dish. */
  lemma {:induction false} PriceAtLeastBase(dish: Dish, sels: seq<OrderItemOption>)
    requires NonNegativeExtras(dish)
    ensures ItemPrice(dish, Some(sels)).Some? ==> ItemPrice(dish, Some(sels)).value >= dish.price
  {
    ExtrasNonNegative(dish, sels);
  }

  lemma {:induction false} ExtrasNonNegative(dish: Dish, sels: seq<OrderItemOption>)
    requires NonNegativeExtras(dish)
    ensures Extras(dish, sels).Some? ==> Extras(dish, sels).value >= 0
    decreases |sels|
  {
    if sels != [] {
      ExtrasNonNegative(dish, sels[..|sels| - 1]);
      var sel := sels[|sels| - 1];
      if dish.options.Some? {
        var opts := dish.options.value;
        var k := Find(opts, OptionNamed(sel.name));
        if k.Some? {
          assert opts[k.value] in opts;
          var cs := opts[k.value].choices;
          if cs.Some? {
            var j := Find(cs.value, ChoiceNamed(sel.choice));
            if j.Some? {
              assert cs.value[j.value] in cs.value;
            }
          }
        }
      }
    }
  }

  /** The worked example: a 10-dollar dish whose "Size" option offers
      "Large" for 2 more costs 12 when "Large" is selected. */
  lemma LargeSizeCostsTwelve()
    ensures
      var dish := Dish(1, "Pizza", 10, None, "Cheese pizza", 1,
                       Some([DishOption("Size", Some([DishChoice("Large", Some(2))]), None)]));
      ItemPrice(dish, Some([OrderItemOption("Size", Some("Large"))])) == Some(12)
  {
    var sel := OrderItemOption("Size", Some("Large"));
    assert [sel][..0] == [];
  }
}
