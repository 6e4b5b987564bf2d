/** The `User` record and its role enumeration. */
module UserEntity {

  /** Primary keys are generated by the store, counting from 1. */
  type UserId = nat

  /** A hungry customer, a restaurant owner or a delivery driver. */
  datatype UserRole = Client | Owner | Delivery

  /** `password` holds what the insert/update hook stored: the hashed password. */
  datatype User = User(id: UserId, email: string, password: string, role: UserRole, verified: bool)
}
