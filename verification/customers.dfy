/** A registered customer (App/Customer.ts): seven read-only fields, the
    company held by value, never changed after construction. */
module Customers {
  import opened Optionals
  import opened Companies
  import opened Dates

  datatype Customer = Customer(
    firstName: string,
    lastName: string,
    dateOfBirth: Date,
    emailAddress: string,
    company: Company,
    hasCreditLimit: bool,
    creditLimit: Option<int>
  )
}
