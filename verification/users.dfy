/** The record type shared by every component: the `User` shape of lib/api.ts. */
module Users {

  /** The four address lines; every field is a string. */
  datatype Address = Address(street: string, suite: string, city: string, zipcode: string)

  /** One managed record. The source's `company: { name }` is flattened to the
      company name, and numeric ids are unbounded integers. */
  datatype User = User(
    id: int,
    name: string,
    username: string,
    email: string,
    phone: string,
    website: string,
    company: string,
    address: Address)

  /** The address an optimistic record is created with: every line empty. */
  const EmptyAddress := Address("", "", "", "")

  /** The test `u.id === id`. */
  function HasId(id: int): User -> bool
  {
    (u: User) => u.id == id
  }
}
