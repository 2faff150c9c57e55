/** How the registration service derives a customer's credit limit from the
    company (App/CustomerService.ts:133-143): no limit for a missing company
    or for the one company named "VeryImportantClient", a fixed placeholder
    of 10 for every other company. */
module CreditPolicy {
  import opened Optionals
  import opened Companies
  import opened BusinessConstants

  /** The limit given to every other existing company. */
  const PlaceholderLimit: int := 10

  /** Absent exactly for a missing company or the very important client;
      otherwise exactly the placeholder. */
  function FindCreditLimit(company: Option<Company>): (limit: Option<int>)
    ensures limit.None? <==> (company.None? || company.value.name == VeryImportantClient)
    ensures limit.Some? ==> limit.value == PlaceholderLimit
  {
    match company
    case None => None
    case Some(c) => if c.name == VeryImportantClient then None else Some(PlaceholderLimit)
  }

  /** The credit check passes when no limit applies or the limit reaches
      the minimum. */
  predicate CreditOk(limit: Option<int>)
  {
    limit.None? || limit.value >= MinCreditLimit
  }

  /** The placeholder cannot pass the check, so among existing companies
      only the very important client gets through it. */
  lemma OnlyVeryImportantClientPassesCredit(company: Company)
    ensures CreditOk(FindCreditLimit(Some(company))) <==> company.name == VeryImportantClient
  {
  }
}
