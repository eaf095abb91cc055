/** The user record the server returns and the session keeps. */
module AuthTypes {
  import opened Wrappers

  datatype AccountType = Customer | Admin

  datatype Address = Address(
    zipCode: string,
    street: string,
    number: string,
    district: string,
    city: string,
    state: string,
    complement: Option<string>)

  /** The declared type makes the address an optional object, but the users table also
      copes with a plain string, so all three shapes are values here. */
  datatype UserAddress = NoAddress | AddressObject(address: Address) | AddressText(text: string)

  datatype User = User(
    id: int,
    firstName: string,
    lastName: string,
    email: string,
    accountType: AccountType,
    status: bool,
    address: UserAddress,
    createdAt: string,
    updatedAt: string)
}
