# Customer registration, modelled in Dafny

This project models the validation-and-registration pipeline of a small
customer service. `addCustomer` looks a company up by id and derives an
optional credit limit from it. It then runs five independent business rules
(company exists, both names given, email well formed, old enough, credit
limit sufficient) with no short-circuiting. If any rule fails it returns
`Fail` with every error, in a fixed order. Otherwise it builds an immutable
customer, hands it to persistence and returns `Ok(customer)`.

Modules, one per concept of the source:

- `Results` (`results.dfy`): the `Ok | Fail` result type and its four queries.
- `Optionals`, `Companies`, `Dates`, `Customers`: the data model. A
  TypeScript `T | undefined` is an `Option`. A date is its
  (year, month 0..11, day 1..31) reading. A customer holds seven read-only
  fields, and its company is held by value.
- `EmailPattern` (`email_pattern.dfy`): the pattern `^\S+?@\S+\.\S+$`,
  stated as a predicate on the string (`MatchesEmailPattern`). It is decided
  by two recursive scans (`ScanAccepts`), and a lemma proves the two agree.
  `IsValidEmail` is the rule's test: the scan, promising the pattern's
  position-based form (`PatternByMarkers`).
- `BusinessConstants` (`business_constants.dfy`): the minimum age, the
  minimum credit limit and the distinguished company name, kept together as
  the source keeps them.
- `Age` (`age.dfy`): `findAge` and its `month * 31 + day` ordinal.
- `CreditPolicy` (`credit_policy.dfy`): the credit-limit policy and its placeholder limit of 10.
- `Verifications` (`verifications.dfy`): the error messages and the five rules.
- `CustomerService` (`customer_service.dfy`): the ordered error list and
  `AddCustomer`.

Collaborators become parameters. The company repository is a total function
`lookup: string -> Option<Company>`, and the clock is a `today: Date`
argument. The effects that the tests observe through spies are ordinary
(non-ghost) data in an `Effects` record. That record holds the ids passed to
the lookup and the customers passed to persistence. `AddCustomer` takes one
`Effects` and returns the next, so "looked up exactly once" and "persisted
exactly once on success, never on failure" are statements about its result.

Two points where the model states more than the source's types say:

- `Fail` accepts any value, including an empty list (App/Result.ts:32-33).
  So `Results.Result` does not require a non-empty list, and `AddCustomer`
  proves that its failures carry 1 to 5 errors.
- The tests compare error lists with the order-free `members` check. The
  code concatenates in a fixed order (company, name, email, age, credit),
  and the model proves that order.

## Model

| member | source | states |
|---|---|---|
| `Results.Result.IsOk` | App/Result.ts:11-13 | `isOk` is true exactly on `Ok`; `Fail`'s `isOk` (lines 35-37) is false |
| `Results.Result.IsErr` | App/Result.ts:35-41 | `isErr` is true exactly on `Fail`, and always the negation of `isOk` |
| `Results.Result.Value` | App/Result.ts:19-21 | `value()` gives back the very value the `Ok` was built with; on a `Fail` it is a misuse (lines 43-45), excluded by precondition |
| `Results.Result.Err` | App/Result.ts:47-49 | `err()` gives back the very error the `Fail` was built with; on an `Ok` it is a misuse (lines 23-25), excluded by precondition |
| `Results.ExactlyOneVariant` | App/Result.ts:8-52 | every result answers exactly one of `isOk`/`isErr`: `Ok` gives (true, false), `Fail` gives (false, true) |
| `Results.ValueRoundTrip` | App/Result.ts:8-21 | constructing `Ok(v)` and reading `value()` returns `v` |
| `Results.ErrRoundTrip` | App/Result.ts:32-49 | constructing `Fail(e)` and reading `err()` returns `e` |
| `EmailPattern.WhitespaceIsEcmaScriptSet` | App/CustomerService.ts:90 | the `\s` test holds exactly for the code points of the ECMAScript WhiteSpace set (tab, vertical tab, form feed, U+00A0, U+FEFF, the Unicode Zs separators) and the LineTerminator set (LF, CR, U+2028, U+2029) |
| `EmailPattern.ScanMatchesPattern` | App/CustomerService.ts:90 | the two-scan decision procedure accepts a string exactly when the anchored pattern `\S+ @ \S+ . \S+` can read the whole string |
| `EmailPattern.IsValidEmail` | App/CustomerService.ts:106 | `email.match(emailPattern) != null` holds exactly when the address has no whitespace, an `@` at index i >= 1, and a `.` at index j with i+2 <= j <= length-2 |
| `EmailPattern.PatternByMarkers` | App/CustomerService.ts:90 | the pattern matches iff the string has no whitespace, an `@` at index i >= 1, and a `.` at index j with i+2 <= j <= length-2 |
| `EmailPattern.RejectsWithoutAt` | App/CustomerService.ts:90 | an address containing no `@` is rejected |
| `EmailPattern.RejectsWhitespace` | App/CustomerService.ts:90 | an address with a whitespace character at any position is rejected |
| `EmailPattern.RejectsWithoutDotAfterAt` | App/CustomerService.ts:90 | an address that splits into a part with no `@` followed by a part with no `.` (so every `.` precedes every `@`) is rejected |
| `EmailPattern.AcceptsParts` | App/CustomerService.ts:90 | three non-empty parts without whitespace, joined as `local@domain.tld`, are accepted even if they contain further `@` or `.` |
| `EmailPattern.RejectsEmpty` | test/CustomerService.spec.ts:69-80 | the empty address is rejected |
| `EmailPattern.RejectsMissingDot` | test/CustomerService.spec.ts:69-80 | `first.last@email` is rejected: no `.` after the `@` |
| `EmailPattern.RejectsMissingAt` | test/CustomerService.spec.ts:69-80 | `first.lastATemail.com` is rejected: no `@` |
| `EmailPattern.RejectsSpace` | test/CustomerService.spec.ts:69-80 | `first last@email.com` is rejected: it contains whitespace |
| `EmailPattern.AcceptsPlainAddress` | test/CustomerService.spec.ts:146-148 | `first.last@email.com` is accepted |
| `Age.FindAge` | App/CustomerService.ts:159-165 | the age is the year difference or one less, and equals the year difference exactly when today's ordinal is not below the birthday's |
| `Age.OrdinalMatchesMonthDayOrder` | App/CustomerService.ts:161-162 | for days in 1..31, `month*31+day` orders dates exactly like lexicographic (month, day), and is equal only for the same month and day |
| `Age.FindAgeCountsBirthdays` | App/CustomerService.ts:159-165 | for real dates the correction is 1 exactly when this year's birthday has not yet been reached |
| `Age.AgeAtLeastIffBirthdayReached` | App/CustomerService.ts:159-165 | the age is at least n exactly when the n-th birthday has been reached by today |
| `CreditPolicy.FindCreditLimit` | App/CustomerService.ts:133-143 | the limit is absent exactly for a missing company or one named `VeryImportantClient`, and otherwise it is exactly 10 |
| `CreditPolicy.OnlyVeryImportantClientPassesCredit` | App/CustomerService.ts:133-143 | for an existing company the derived limit passes the credit check exactly when its name is `VeryImportantClient` |
| `Verifications.NoCompanyFound` | App/CustomerService.ts:92-95 | the company error reads `No company found for id '` followed by the id and a closing quote |
| `Verifications.FixedMessagesDistinct` | App/CustomerService.ts:97-119 | the name, email, age and credit messages are pairwise different |
| `Verifications.CompanyMessageDistinct` | App/CustomerService.ts:92-95 | whatever the id, the company error differs from the other four messages |
| `Verifications.VerifyCompany` | App/CustomerService.ts:92-95 | no error iff the company is present; otherwise exactly the one error naming the id |
| `Verifications.IsNotEmpty` | App/CustomerService.ts:147-149 | a name counts as given exactly when it is not the empty string |
| `Verifications.VerifyFullName` | App/CustomerService.ts:97-103 | no error iff both names are non-empty; otherwise exactly the name error |
| `Verifications.VerifyEmail` | App/CustomerService.ts:105-108 | no error iff the address matches the pattern; otherwise exactly the email error |
| `Verifications.VerifyAge` | App/CustomerService.ts:110-113 | no error iff the computed age is at least 21; otherwise exactly `Not old enough` |
| `Verifications.VerifyAgeIffTwentyFirstBirthday` | App/CustomerService.ts:110-113 | for real dates the age rule passes exactly when the 21st birthday has been reached |
| `Verifications.VerifyCreditLimit` | App/CustomerService.ts:115-119 | no error iff the limit is absent or at least 500; otherwise exactly `Insufficient credit limit` |
| `Verifications.NonVipCompanyFailsCredit` | App/CustomerService.ts:115-143 | every existing company not named `VeryImportantClient` gets the limit 10 and so fails the credit rule |
| `CustomerService.CollectErrors` | App/CustomerService.ts:48-54 | the combined list has at most 5 errors. It is empty iff every rule holds, and it contains each rule's message iff that rule fails. It contains nothing else, in the order company, name, email, age, credit, with no repeats |
| `CustomerService.AddCustomer` | App/CustomerService.ts:37-83 | the company is looked up exactly once. The result is `Fail` iff some rule fails, and then it carries the collected 1..5 errors and nothing is persisted. On `Ok` the company is present, every field equals its input, `hasCreditLimit` matches the limit's presence, the limit is absent, the company is `VeryImportantClient`, and exactly that customer is persisted once |
| `CustomerService.UnknownCompanyReportsOnlyCompany` | test/CustomerService.spec.ts:25-35 | with valid data and an unknown company, the only error is the company error naming the given id |
| `CustomerService.MultipleFailuresReportedInOrder` | test/CustomerService.spec.ts:119-137 | a missing last name, age 12 and an ordinary company yield exactly the name, age and credit errors, in that order |
| `CustomerService.VeryImportantClientCustomerPasses` | test/CustomerService.spec.ts:139-159 | valid data for a `VeryImportantClient` company passes every rule, so `AddCustomer` returns `Ok` and persists |

## Left out

- An invalid birth date is not modelled: a `Date` here always has a year, month and day. A JavaScript Invalid Date yields NaN in `findAge` (App/CustomerService.ts:161-164). `NaN >= minAge` is false, so the source rejects such a date with `Not old enough` (line 111).
- The real clock (`new Date()`): today's date is a parameter. JavaScript `Date` time zones, local time and the constructor's month/day overflow normalisation are not modelled. A date is its calendar reading.
- `CompanyRepository.getById`'s stub body, which returns a hard-coded company: the repository is an arbitrary `lookup` function instead.
- `CustomerDataAccess` is not part of this model. It is an opaque sink, recorded in `Effects.persisted`. As in the source, it has no error signalling, no id assignment and no duplicate detection.
- `Classification.ts` is not part of this model. The classification is an enumeration Bronze/Silver/Gold that no rule reads.
- `Ok.toString`: string formatting only.
- `Error` objects: only the message string is kept, not identity or stack trace.
- `isNotEmpty`'s `!= null` test: Dafny strings cannot be null, so only the empty-string test remains.
- `verifyCompany`'s `companyId: any`: the id is a string, so the template literal embeds it unchanged.
- Whitespace (`EmailPattern.IsWhitespace`): JavaScript `\s` is the ECMAScript WhiteSpace and LineTerminator sets. The Unicode Zs members are listed as of current Unicode, so a later Unicode version that adds space separators is not followed. JavaScript strings are UTF-16 code units and Dafny strings are code points. This does not change the result, because no surrogate half is whitespace.
- Credit limits are JavaScript numbers (doubles). The only values involved are 10 and 500, so they are modelled as integers.
- Purity and idempotence of the verifications are not stated as lemmas. Every verification is a Dafny function, so equal inputs give equal outputs by construction.
- The sinon/chai test harness: tests appear only as the concrete cases above.
