/** The user record shared by the store and the pages. */
module Domain {
  import opened Wrappers

  datatype Address = Address(street: string, suite: string, city: string, zipcode: string)

  datatype Company = Company(name: string, catchPhrase: Option<string>)

  /** A user as the demo endpoint returns it and as the add-user form builds it.
      `id` is a JavaScript number that holds an integer. */
  datatype User = User(
    id: int,
    name: string,
    username: string,
    email: string,
    phone: string,
    website: Option<string>,
    address: Address,
    company: Option<Company>)
}
