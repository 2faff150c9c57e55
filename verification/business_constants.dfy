/** The business constants of customer registration, kept together as the
    service keeps them (App/CustomerService.ts:12-14). */
module BusinessConstants {

  /** The youngest age registration accepts. */
  const MinAge: int := 21

  /** The smallest credit limit the credit check accepts. */
  const MinCreditLimit: int := 500

  /** The one company name that skips the credit check. */
  const VeryImportantClient: string := "VeryImportantClient"
}
