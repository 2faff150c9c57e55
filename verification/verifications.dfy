/** The five independent business rules of customer registration
    (App/CustomerService.ts:86-119, 147-149). Each returns the empty list
    when it passes and exactly one error when it fails. */
module Verifications {
  import opened Optionals
  import opened Companies
  import opened Dates
  import EmailPattern
  import Age
  import CreditPolicy
  import opened BusinessConstants

  /** A validation error; only its message matters. */
  datatype Error = Error(message: string)

  const NameMissing: Error := Error("Both 'firstName' and 'lastName' must be provided")
  const InvalidEmail: Error := Error("Given email address is invalid")
  const TooYoung: Error := Error("Not old enough")
  const InsufficientCredit: Error := Error("Insufficient credit limit")

  /** The error naming the company id that was not found. */
  function NoCompanyFound(companyId: string): (e: Error)
    ensures |e.message| == |companyId| + 26
    ensures e.message[..25] == "No company found for id '"
    ensures e.message[25..25 + |companyId|] == companyId
    ensures e.message[|e.message| - 1] == '\''
  {
    Error("No company found for id '" + companyId + "'")
  }

  /** The four fixed messages are pairwise distinct. */
  lemma FixedMessagesDistinct()
    ensures NameMissing != InvalidEmail && NameMissing != TooYoung && NameMissing != InsufficientCredit
    ensures InvalidEmail != TooYoung && InvalidEmail != InsufficientCredit
    ensures TooYoung != InsufficientCredit
  {
    assert |NameMissing.message| == 48;
    assert |InvalidEmail.message| == 30;
    assert |TooYoung.message| == 14;
    assert |InsufficientCredit.message| == 25;
  }

  /** The company error differs from the four fixed messages whatever the
      id, so an error in the combined list tells which rule failed: it is
      the only one ending in a quote. */
  lemma CompanyMessageDistinct(companyId: string)
    ensures NoCompanyFound(companyId) != NameMissing
    ensures NoCompanyFound(companyId) != InvalidEmail
    ensures NoCompanyFound(companyId) != TooYoung
    ensures NoCompanyFound(companyId) != InsufficientCredit
  {
    var m := NoCompanyFound(companyId).message;
    assert m[|m| - 1] == '\'';
    assert NameMissing.message[47] == 'd';
    assert InvalidEmail.message[29] == 'd';
    assert TooYoung.message[13] == 'h';
    assert InsufficientCredit.message[24] == 't';
  }

  /** A string counts as given unless it is empty. */
  function IsNotEmpty(value: string): (b: bool)
    ensures b <==> value != ""
  {
    |value| != 0
  }

  function VerifyCompany(companyId: string, company: Option<Company>): (errors: seq<Error>)
    ensures errors == [] <==> company.Some?
    ensures company.None? ==> errors == [NoCompanyFound(companyId)]
  {
    if company.Some? then [] else [NoCompanyFound(companyId)]
  }

  function VerifyFullName(firstName: string, lastName: string): (errors: seq<Error>)
    ensures errors == [] <==> (firstName != "" && lastName != "")
    ensures errors != [] ==> errors == [NameMissing]
  {
    var bothNamesGiven := IsNotEmpty(firstName) && IsNotEmpty(lastName);
    if bothNamesGiven then [] else [NameMissing]
  }

  function VerifyEmail(email: string): (errors: seq<Error>)
    ensures errors == [] <==> EmailPattern.MatchesEmailPattern(email)
    ensures errors != [] ==> errors == [InvalidEmail]
  {
    EmailPattern.PatternByMarkers(email);
    if EmailPattern.IsValidEmail(email) then [] else [InvalidEmail]
  }

  function VerifyAge(dateOfBirth: Date, today: Date): (errors: seq<Error>)
    ensures errors == [] <==> Age.FindAge(dateOfBirth, today) >= MinAge
    ensures errors != [] ==> errors == [TooYoung]
  {
    if Age.FindAge(dateOfBirth, today) >= MinAge then [] else [TooYoung]
  }

  /** For real dates the age rule passes exactly when the 21st birthday has
      been reached. */
  lemma VerifyAgeIffTwentyFirstBirthday(dateOfBirth: Date, today: Date)
    requires Valid(dateOfBirth) && Valid(today)
    ensures VerifyAge(dateOfBirth, today) == [] <==>
      (today.year > dateOfBirth.year + MinAge
       || (today.year == dateOfBirth.year + MinAge && !Age.BirthdayNotYetReached(dateOfBirth, today)))
  {
    Age.AgeAtLeastIffBirthdayReached(dateOfBirth, today, MinAge);
  }

  function VerifyCreditLimit(creditLimit: Option<int>): (errors: seq<Error>)
    ensures errors == [] <==> (creditLimit.None? || creditLimit.value >= MinCreditLimit)
    ensures errors != [] ==> errors == [InsufficientCredit]
  {
    if CreditPolicy.CreditOk(creditLimit) then [] else [InsufficientCredit]
  }

  /** Any existing company other than the very important client fails the
      credit rule, because its limit is the placeholder 10. */
  lemma NonVipCompanyFailsCredit(company: Company)
    requires company.name != VeryImportantClient
    ensures VerifyCreditLimit(CreditPolicy.FindCreditLimit(Some(company))) == [InsufficientCredit]
  {
  }
}
