/** The part of the `Restaurant` record the order workflow reads. */
module RestaurantEntity {
  import opened Common
  import opened UserEntity

  type RestaurantId = nat

  /** A restaurant may have no owner; `ownerId` is then absent. */
  datatype Restaurant = Restaurant(id: RestaurantId, name: string, ownerId: Option<UserId>)
}
