/**
 * The two stored entities, with the fields the GraphQL types `User` and
 * `Company` expose. `_id` is kept as its string form, because every
 * comparison in the server is made on `toString()` values.
 */
module Records {
  import opened Js

  /** A user document: `_id`, `firstName`, `age` and the `companyId` reference. */
  datatype User = User(id: string, firstName: StrValue, age: IntValue, companyId: StrValue)

  /** A company document: `_id`, `name` and `slogan`. */
  datatype Company = Company(id: string, name: StrValue, slogan: StrValue)
}
