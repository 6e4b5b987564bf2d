/** Dishes and their customisation options. */
module DishEntity {
  import opened Common
  import opened RestaurantEntity

  type DishId = nat

  /** One named value of a choice-based option, with an optional surcharge. */
  datatype DishChoice = DishChoice(name: string, extra: Option<int>)

  /** A customisation axis. Nothing stops an option from carrying both a
      flat `extra` and a `choices` list; pricing lets a non-zero `extra` win. */
  datatype DishOption = DishOption(name: string, choices: Option<seq<DishChoice>>, extra: Option<int>)

  /** A dish: a required base price and an optional (nullable JSON) options list. */
  datatype Dish = Dish(
    id: DishId,
    name: string,
    price: int,
    photo: Option<string>,
    description: string,
    restaurantId: RestaurantId,
    options: Option<seq<DishOption>>)

  /** The field validators: a name of at least 5 characters and a
      description of 5 to 140 characters. */
  predicate ValidDish(d: Dish) {
    5 <= |d.name| && 5 <= |d.description| <= 140
  }
}
