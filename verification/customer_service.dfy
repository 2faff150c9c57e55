/** Customer registration (App/CustomerService.ts:37-83): look the company
    up once, derive the credit limit, run all five rules without
    short-circuiting, and either fail with every error in a fixed order or
    build the customer, hand it to persistence, and succeed.

    The company repository is the function `lookup`; the clock is the date
    `today`. The two collaborators' observable effects, the ids looked up
    and the customers handed to persistence, are logged in `Effects`. */
module CustomerService {
  import opened Optionals
  import opened Results
  import opened Companies
  import opened Dates
  import opened Customers
  import opened Verifications
  import EmailPattern
  import Age
  import CreditPolicy
  import opened BusinessConstants

  /** What the collaborators have seen: every id passed to the company
      lookup and every customer passed to persistence, oldest first. */
  datatype Effects = Effects(lookups: seq<string>, persisted: seq<Customer>)

  /** Every business rule holds, stated directly rather than through the
      error lists. */
  ghost predicate AllRulesPass(
    firstName: string, lastName: string, email: string, dateOfBirth: Date,
    company: Option<Company>, creditLimit: Option<int>, today: Date)
  {
    && company.Some?
    && IsNotEmpty(firstName) && IsNotEmpty(lastName)
    && EmailPattern.MatchesEmailPattern(email)
    && Age.FindAge(dateOfBirth, today) >= MinAge
    && CreditPolicy.CreditOk(creditLimit)
  }

  /** Where each rule's error sits in the fixed reporting order:
      company, name, email, age, credit limit. */
  function Rank(e: Error): nat
  {
    if e == NameMissing then 1
    else if e == InvalidEmail then 2
    else if e == TooYoung then 3
    else if e == InsufficientCredit then 4
    else 0
  }

  /** The errors appear in strictly increasing rank: reporting order, and
      no rule twice. */
  predicate InReportingOrder(errors: seq<Error>)
  {
    forall p, q :: 0 <= p < q < |errors| ==> Rank(errors[p]) < Rank(errors[q])
  }

  /** The five errors a registration can report, for the given id. */
  function AllMessages(companyId: string): seq<Error>
  {
    [NoCompanyFound(companyId), NameMissing, InvalidEmail, TooYoung, InsufficientCredit]
  }

  /** Appending a list of at most one error outranking everything before it
      keeps the reporting order. */
  lemma AppendKeepsOrder(errors: seq<Error>, next: seq<Error>, rank: nat)
    requires InReportingOrder(errors)
    requires forall e :: e in errors ==> Rank(e) < rank
    requires |next| <= 1
    requires forall e :: e in next ==> Rank(e) == rank
    ensures InReportingOrder(errors + next)
    ensures forall e :: e in errors + next ==> Rank(e) <= rank
  {
    var all := errors + next;
    forall p, q | 0 <= p < q < |all|
      ensures Rank(all[p]) < Rank(all[q])
    {
      assert all[p] in errors;
      if q < |errors| {
        assert all[q] == errors[q];
      } else {
        assert all[q] in next;
      }
    }
  }

  /** The concatenation of the five single-rule lists is in reporting order. */
  lemma ConcatenationInOrder(companyId: string, c: seq<Error>, n: seq<Error>, m: seq<Error>, a: seq<Error>, k: seq<Error>)
    requires c == [] || c == [NoCompanyFound(companyId)]
    requires n == [] || n == [NameMissing]
    requires m == [] || m == [InvalidEmail]
    requires a == [] || a == [TooYoung]
    requires k == [] || k == [InsufficientCredit]
    ensures InReportingOrder(c + n + m + a + k)
  {
    FixedMessagesDistinct();
    CompanyMessageDistinct(companyId);
    assert forall e :: e in c ==> Rank(e) == 0;
    AppendKeepsOrder(c, n, 1);
    AppendKeepsOrder(c + n, m, 2);
    AppendKeepsOrder(c + n + m, a, 3);
    AppendKeepsOrder(c + n + m + a, k, 4);
  }

  /** Each message is in the concatenation exactly when its own list holds
      it, and nothing else is. */
  lemma ConcatenationMembers(companyId: string, c: seq<Error>, n: seq<Error>, m: seq<Error>, a: seq<Error>, k: seq<Error>)
    requires c == [] || c == [NoCompanyFound(companyId)]
    requires n == [] || n == [NameMissing]
    requires m == [] || m == [InvalidEmail]
    requires a == [] || a == [TooYoung]
    requires k == [] || k == [InsufficientCredit]
    ensures NoCompanyFound(companyId) in c + n + m + a + k <==> c != []
    ensures NameMissing in c + n + m + a + k <==> n != []
    ensures InvalidEmail in c + n + m + a + k <==> m != []
    ensures TooYoung in c + n + m + a + k <==> a != []
    ensures InsufficientCredit in c + n + m + a + k <==> k != []
    ensures forall e :: e in c + n + m + a + k ==> e in AllMessages(companyId)
  {
    FixedMessagesDistinct();
    CompanyMessageDistinct(companyId);
    MemberOfConcatenation(NoCompanyFound(companyId), c, n, m, a, k);
    MemberOfConcatenation(NameMissing, c, n, m, a, k);
    MemberOfConcatenation(InvalidEmail, c, n, m, a, k);
    MemberOfConcatenation(TooYoung, c, n, m, a, k);
    MemberOfConcatenation(InsufficientCredit, c, n, m, a, k);
    forall e | e in c + n + m + a + k
      ensures e in AllMessages(companyId)
    {
      MemberOfConcatenation(e, c, n, m, a, k);
    }
  }

  lemma MemberOfConcatenation(e: Error, c: seq<Error>, n: seq<Error>, m: seq<Error>, a: seq<Error>, k: seq<Error>)
    ensures e in c + n + m + a + k <==> e in c || e in n || e in m || e in a || e in k
  {
    assert c + n + m + a + k == c + (n + (m + (a + k)));
  }

  /** All five verifications, concatenated in the fixed order. The list
      names each failing rule once, no passing rule, and nothing else, in
      reporting order; it is empty exactly when every rule holds. */
  function CollectErrors(
    companyId: string, company: Option<Company>, creditLimit: Option<int>,
    firstName: string, lastName: string, email: string, dateOfBirth: Date, today: Date): (errors: seq<Error>)
    ensures |errors| <= 5
    ensures errors == [] <==> AllRulesPass(firstName, lastName, email, dateOfBirth, company, creditLimit, today)
    ensures NoCompanyFound(companyId) in errors <==> company.None?
    ensures NameMissing in errors <==> (!IsNotEmpty(firstName) || !IsNotEmpty(lastName))
    ensures InvalidEmail in errors <==> !EmailPattern.MatchesEmailPattern(email)
    ensures TooYoung in errors <==> Age.FindAge(dateOfBirth, today) < MinAge
    ensures InsufficientCredit in errors <==> !CreditPolicy.CreditOk(creditLimit)
    ensures forall e :: e in errors ==> e in AllMessages(companyId)
    ensures InReportingOrder(errors)
  {
    var c := VerifyCompany(companyId, company);
    var n := VerifyFullName(firstName, lastName);
    var m := VerifyEmail(email);
    var a := VerifyAge(dateOfBirth, today);
    var k := VerifyCreditLimit(creditLimit);
    ConcatenationMembers(companyId, c, n, m, a, k);
    ConcatenationInOrder(companyId, c, n, m, a, k);
    c + n + m + a + k
  }

  /** Registers a customer. Fails with the collected errors, persisting
      nothing, when any rule fails; otherwise persists the new customer
      exactly once and returns it. The company is looked up exactly once
      on every path. */
  method AddCustomer(
    lookup: string -> Option<Company>, today: Date, effects: Effects,
    firstName: string, lastName: string, email: string, dateOfBirth: Date, companyId: string)
    returns (result: Result<Customer, seq<Error>>, effects': Effects)
    ensures effects'.lookups == effects.lookups + [companyId]
    ensures result.IsErr() <==>
      !AllRulesPass(firstName, lastName, email, dateOfBirth, lookup(companyId),
                    CreditPolicy.FindCreditLimit(lookup(companyId)), today)
    ensures result.IsErr() ==>
      && result.Err() == CollectErrors(companyId, lookup(companyId), CreditPolicy.FindCreditLimit(lookup(companyId)),
                                       firstName, lastName, email, dateOfBirth, today)
      && 1 <= |result.Err()| <= 5
      && effects'.persisted == effects.persisted
    ensures result.IsOk() ==>
      var customer := result.Value();
      && lookup(companyId) == Some(customer.company)
      && customer.firstName == firstName
      && customer.lastName == lastName
      && customer.dateOfBirth == dateOfBirth
      && customer.emailAddress == email
      && customer.hasCreditLimit == customer.creditLimit.Some?
      && customer.creditLimit == None
      && customer.company.name == VeryImportantClient
      && effects'.persisted == effects.persisted + [customer]
  {
    var company := lookup(companyId);
    effects' := effects.(lookups := effects.lookups + [companyId]);

    var creditLimit := CreditPolicy.FindCreditLimit(company);

    var errors := CollectErrors(companyId, company, creditLimit, firstName, lastName, email, dateOfBirth, today);
    if |errors| > 0 {
      return Fail(errors), effects';
    }
    // Every rule held: the company exists, and only the very important
    // client's absent limit passes the credit check.
    assert company.Some? && CreditPolicy.CreditOk(creditLimit);
    assert creditLimit == None && company.value.name == VeryImportantClient;

    var customer := Customer(
      firstName := firstName,
      lastName := lastName,
      dateOfBirth := dateOfBirth,
      emailAddress := email,
      company := company.value,
      hasCreditLimit := creditLimit.Some?,
      creditLimit := creditLimit
    );

    effects' := effects'.(persisted := effects'.persisted + [customer]);
    return Ok(customer), effects';
  }

  /** Test inputs: the fixed valid address and a birth date of 1 February,
      `years` years before today's year. */
  const TestEmail: string := "first.last@email.com"

  function TestBirthDate(today: Date, years: int): Date
  {
    Date(today.year - years, 1, 1)
  }

  /** An unknown company alone yields exactly its own error, naming the id. */
  lemma UnknownCompanyReportsOnlyCompany(companyId: string, today: Date)
    requires Valid(today)
    ensures CollectErrors(companyId, None, CreditPolicy.FindCreditLimit(None),
                          "first", "last", TestEmail, TestBirthDate(today, 22), today)
            == [NoCompanyFound(companyId)]
  {
    EmailPattern.AcceptsPlainAddress();
  }

  /** A missing last name, an age of twelve and an ordinary company are
      reported together, in rule order. */
  lemma MultipleFailuresReportedInOrder(company: Company, today: Date)
    requires Valid(today)
    requires company.name != VeryImportantClient
    ensures CollectErrors(company.id, Some(company), CreditPolicy.FindCreditLimit(Some(company)),
                          "first", "", TestEmail, TestBirthDate(today, 12), today)
            == [NameMissing, TooYoung, InsufficientCredit]
  {
    EmailPattern.AcceptsPlainAddress();
  }

  /** A customer of the very important client with valid data passes every
      rule, so registration succeeds and persists. */
  lemma VeryImportantClientCustomerPasses(company: Company, today: Date)
    requires Valid(today)
    requires company.name == VeryImportantClient
    ensures AllRulesPass("first", "last", TestEmail, TestBirthDate(today, 22),
                         Some(company), CreditPolicy.FindCreditLimit(Some(company)), today)
  {
    EmailPattern.AcceptsPlainAddress();
    EmailPattern.PatternByMarkers(TestEmail);
  }
}
