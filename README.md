# Cake store back end, modelled in Dafny

This project models the server-side core of a bakery storefront and cake
school built on Next.js with a Prisma database client. It covers:

- the mobile-money (M-Pesa STK push) payment lifecycle: initiation, the
  gateway's result webhook and the client's status poll;
- the course-enrollment workflow: a user's request, the active-enrollment
  check, and the administrator's pending list, approval and rejection;
- the global shopping cart and the cart drawer's total and removal;
- promotions: the admin create, toggle and delete handlers, the banner's
  choice of today's promotion, and the debug script's own version of that
  query;
- account signup, with unique emails and role normalisation;
- two pure mappings: course duration by level, and the header's display
  name and admin flag.

Each database table is a class holding a map from record id to record plus
the next id to hand out. Ids are handed out in insertion order, so ascending
id order stands for the order in which the database returns rows when no
order is asked for (`findFirst` returns the matching row with the smallest
id). Each route handler is a method on its table. The session, the clock
(`now` in milliseconds, the local weekday and the instant of local midnight),
the payment gateway's answers and the password hash are parameters. Read-only
queries are functions. Pure client code (the cart total, the removal filter,
the banner rule, the duration mapping, the display name) is made of
functions and lemmas.

Request fields that the handlers test for JavaScript truthiness are `Option`
values: `None` is an absent field, and `""` or `0` are the falsy values
present.

Behaviour of the code that the model keeps as written:

- Initiation creates the payment record only after the OAuth token request
  succeeds, so a failed token request leaves no record at all. A design that
  creates the record before any gateway contact, which would make a record
  exist for every failed initiation, is not what the code does.
- Payments are looked up with `findUnique` on `checkoutRequestId`, so that
  column carries a unique index. Every new record is first written with a
  blank checkout id. A record whose push failed keeps the blank id, and from
  then on every later initiation's create is refused by the index: the
  handler answers 500 and writes nothing (`Payments.BlankIdBlocksNewRecords`).
- The webhook does not look at the current status. A later callback
  overwrites a COMPLETED or FAILED record, so status is not monotonic.
- Approval does not look at the current status, so it can leave two active
  enrollments for one user and course; request and reject keep the
  at-most-one rule.
- The promotion create form stores a single `dayOfWeek` and leaves
  `daysOfWeek` empty, while the banner filters on `daysOfWeek`. A promotion
  made through the form is therefore never shown. The form also has no
  weekday input, so the weekday it stores is NaN. Whether the database keeps
  NaN as null or refuses the create with 500 is a parameter of
  `Promotions.PromotionTable.Create`.
- Signup stores the role `admin` or `user` in lower case. Every admin check
  compares with `ADMIN`, so no account made through signup passes one. The
  database schema is not part of this model, and the rest of the code reads
  as if the role column were an enum of `USER`, `ADMIN` and `SUPER_ADMIN`.
  The seed writes `SUPER_ADMIN`, and a migration rewrites `user` and `admin`
  to `USER` and `ADMIN`. Which role values the column takes is therefore a
  parameter of `Signup.UserTable.SignUp`. With such an enum, no role that
  signup stores is accepted (`Signup.EnumColumnRefusesSignup`), so every
  signup that passes validation fails with 500 and inserts nothing.

## Model

| member | source | states |
|---|---|---|
| `Common.SignedInUser` | app/api/enrollments/route.ts:12-18 | The session user id is present exactly when there is a session whose user has an id, and it is that id. |
| `Text.StripWhitespace` | app/api/mpesa/route.ts:35 | The result has no JavaScript `\s` character, is no longer than the input, and is the input itself when the input has none. |
| `Text.StripWhitespaceKeeps` | app/api/mpesa/route.ts:35 | Removing whitespace keeps the count of every other character. |
| `Text.StripWhitespaceAppend` | app/api/mpesa/route.ts:35 | Removing whitespace distributes over concatenation. |
| `Text.ToLower` | app/api/check-payment/route.ts:40 | Lower-casing keeps the length and maps each character through the ASCII lower-case mapping. |
| `Text.ParseIntDigit` | app/api/admin/promotions/create/route.ts:15 | `parseInt` of a single decimal digit is that digit's value. |
| `Text.ParseIntNoDigits` | app/api/admin/promotions/create/route.ts:15 | `parseInt` of text without digits is NaN. |
| `Phone.Normalize` | app/api/mpesa/route.ts:35-42 | The normalised number has no whitespace. It starts with 254 unless the stripped input starts with `+`. A number already starting with 254 and free of whitespace is unchanged. It is at most three characters longer than the stripped input. |
| `Phone.NormalizeRules` | app/api/mpesa/route.ts:35-42 | The four rules on the stripped number: a leading 0 becomes 254, a leading `+` is dropped, a number starting with 254 is kept, and anything else gets 254 in front. |
| `Phone.NormalizeIdempotent` | app/api/mpesa/route.ts:35-42 | Normalising twice equals normalising once when the stripped input does not start with `+`. |
| `Phone.NormalizeGroupedNational` | app/api/mpesa/route.ts:35-42 | A national number written in groups, such as `0712 345 678`, becomes 254 followed by its digits without the trunk 0. |
| `Tables.Find` | app/api/enrollments/route.ts:31-39 | `findFirst` returns the smallest id whose row matches, and nothing exactly when no row matches. |
| `Tables.InIdOrder` | app/api/cart/route.ts:49 | The rows of the table, each listed under its id, and in increasing id order. |
| `Tables.Filter` | app/api/enrollments/route.ts:90-93 | A filter keeps exactly the elements that satisfy the condition. |
| `Tables.FilterKeepsIdOrder` | app/api/enrollments/route.ts:90-93 | Filtering keeps increasing id order. |
| `Tables.FilterAppend` | app/components/Cart.tsx:54 | Filtering commutes with concatenation, which is what keeping the relative order means. |
| `Tables.Insert` | app/api/enrollments/route.ts:105 | Inserting into a sorted list keeps it sorted and adds exactly that element. |
| `Tables.DistinctCounts` | app/api/enrollments/route.ts:90-106 | A list has no repeated element exactly when every element occurs at most once in its multiset. |
| `Tables.SortBy` | app/api/enrollments/route.ts:105 | `orderBy` on one column gives a sorted permutation of its input. |
| `Tables.QueryContents` | app/api/enrollments/route.ts:90-106 | `findMany` with a filter and an order returns exactly the matching rows, each once, in the requested order. |
| `Payments.StoredCart` | app/api/mpesa/route.ts:58 | On the cart as text, a missing value or the empty string is stored as null, and any other value as it was sent. |
| `Payments.NewPayment` | app/api/mpesa/route.ts:53-63 | The record created by initiation is PENDING, has blank merchant and checkout ids and the normalised phone, stores a missing or empty-string cart as null, and has no receipt or result yet. |
| `Payments.AxiosStatus` | app/api/mpesa/route.ts:128-135 | A failed gateway call answers with the gateway's HTTP status when it is truthy and with 500 otherwise. |
| `Payments.SettledAmount` | app/api/mpesa/callback/route.ts:82 | The stored amount is the callback amount when it is truthy, and the existing amount otherwise. |
| `Payments.Apply` | app/api/mpesa/callback/route.ts:79-84 | A column whose update value is `undefined` keeps its value, and any other value replaces it. |
| `Payments.FirstNamed` | app/api/mpesa/callback/route.ts:52-53 | `find` returns the first item with the name, and nothing exactly when no item has it. |
| `Payments.ValueNamed` | app/api/mpesa/callback/route.ts:52-53 | The value is that of the first item with the name, and `undefined` when there is none. |
| `Payments.ConfirmedAmount` | app/api/mpesa/callback/route.ts:53-54 | A missing, zero or empty amount reads as null, and a non-zero number is kept. |
| `Payments.Decode` | app/api/mpesa/callback/route.ts:40-59 | COMPLETED exactly when `ResultCode === 0`, with the receipt and amount of the first metadata items with those names. Otherwise FAILED with a null receipt and no amount. The description defaults to "Payment failed". A missing ResultCode leaves that column alone. |
| `Payments.Settle` | app/api/mpesa/callback/route.ts:77-87 | The update writes status, receipt, amount, result code and description as decoded. It leaves every other column as it was and does not consult the previous status. |
| `Payments.ReportedStatus` | app/api/check-payment/route.ts:16-40 | The poll's answer has no status only when the key is missing. A missing record reports `pending`, and a found one reports its stored status lower-cased. |
| `Payments.LowerStatusName` | app/api/check-payment/route.ts:40 | Lower-casing the enum names gives `pending`, `completed` and `failed`. |
| `Payments.PolledNamesDistinct` | app/api/check-payment/route.ts:40 | The three polled names are distinct, and only PENDING polls as `pending`. |
| `Payments.AddKeepsWellFormed` | app/api/mpesa/route.ts:53-63 | Adding a row under the next id, with a checkout id that no row holds, keeps ids consistent and checkout ids unique. |
| `Payments.PaymentTable.FindByCheckout` | app/api/mpesa/callback/route.ts:62-64 | `findUnique` on `checkoutRequestId` finds a row holding the key exactly when one exists. |
| `Payments.PaymentTable.Initiate` | app/api/mpesa/route.ts:12-144 | Covers every outcome of initiation: falsy fields give 400 and missing configuration gives 500, both with no record; a failed token call gives the axios status and no record; a blank id already in the table gives 500 and no record. Otherwise exactly one record is added under a fresh id. That record is FAILED with "STK Push initiation failed" after a refused push or a clashing acknowledged id, or else carries the acknowledged ids, and the returned checkout id is the acknowledged one. |
| `Payments.PaymentTable.CreateAndPush` | app/api/mpesa/route.ts:53-126 | The create, push and id update: one record is added and no other row changes. The ids are set from the acknowledgement, each missing id staying blank, or the record is marked FAILED. |
| `Payments.PaymentTable.Callback` | app/api/mpesa/callback/route.ts:15-113 | A missing `stkCallback` or `CheckoutRequestID` gives 400 with ResultCode 1, and an unknown id gives 404; none of these writes. A numeric receipt gives 500, because the receipt column holds text and the update is refused. Otherwise the one matching row becomes `Settle` of it, and the answer is ResultCode 0, "Success". |
| `Payments.PaymentTable.CheckPayment` | app/api/check-payment/route.ts:13-47 | A missing key gives 400, and no matching record reports `pending`. Otherwise the report gives the stored status lower-cased, with the stored receipt, amount and description. The poll reads only. |
| `Payments.CallbackOverwritesCompleted` | app/api/mpesa/callback/route.ts:77-87 | A failing callback for a COMPLETED record turns it FAILED and clears its receipt. |
| `Payments.SettledStatusPolled` | app/api/mpesa/callback/route.ts:40-47 | After a callback the poll reports `completed` exactly when its ResultCode was 0, and `failed` otherwise. |
| `Payments.RedeliveryIsIdempotent` | app/api/mpesa/callback/route.ts:77-87 | Applying the same callback twice leaves the record as applying it once. |
| `Payments.BlankIdBlocksNewRecords` | app/api/mpesa/route.ts:53-63 | With a blank checkout id already stored, another blank-id record breaks the unique index. |
| `Enrollments.LowerStatusName` | app/api/admin/enrollments/reject/route.ts:36-38 | Lower-casing the enum names gives `pending`, `approved` and `rejected`. |
| `Enrollments.AddKeepsOneActive` | app/api/enrollments/route.ts:31-65 | Adding a record for a pair with no active record keeps at most one active record per (user, course). |
| `Enrollments.DeactivateKeepsOneActive` | app/api/admin/enrollments/reject/route.ts:41-46 | Making a record inactive keeps the rule. |
| `Enrollments.ApproveBreaksOneActive` | app/api/admin/enrollments/approve/route.ts:33-36 | Counterexample: a table that satisfies the rule, with one rejected and one pending record of a pair, breaks it once the rejected record is approved. |
| `Enrollments.EnrollmentTable.FirstActive` | app/api/enrollments/route.ts:31-39 | The lookup finds an active record of the pair exactly when one exists. |
| `Enrollments.EnrollmentTable.Request` | app/api/enrollments/route.ts:9-67 | No session user id gives 401 and a missing course or phone gives 400, both with no record. With an active record of the pair the answer is 400, its message decided by that record's status, and nothing is inserted. Otherwise exactly one PENDING record for the session user is added at time `now`. The at-most-one-active rule is preserved. |
| `Enrollments.EnrollmentTable.RefusalNamesStatus` | app/api/enrollments/route.ts:41-44 | Under the rule, the record the refusal describes is the pair's only active one. |
| `Enrollments.EnrollmentTable.UserEnrollments` | app/api/enrollments/route.ts:79-106 | No session user gives 401. Otherwise the result is exactly the session user's records, each once, by `enrolledAt` descending. |
| `Enrollments.EnrollmentTable.Check` | app/api/enrollments/check/route.ts:13-46 | A missing user or course gives 400. It reports enrolled, with the record's status, exactly when the pair has a PENDING or APPROVED record, so a REJECTED record alone reads as not enrolled. |
| `Enrollments.EnrollmentTable.PendingList` | app/api/admin/enrollments/route.ts:8-15 | Exactly the PENDING records, each once, by `enrolledAt` ascending, with no role check. |
| `Enrollments.EnrollmentTable.Approve` | app/api/admin/enrollments/approve/route.ts:12-47 | A non-ADMIN session gives 401, a missing id 400 and an unknown id 500, none of which changes anything. Otherwise the record becomes APPROVED whatever its status, and the answer redirects to the dashboard. |
| `Enrollments.EnrollmentTable.Reject` | app/api/admin/enrollments/reject/route.ts:10-54 | A non-ADMIN session is redirected to `/login`, and a missing or unknown id gets an error redirect. A record that is not PENDING gets `already_<status>`. None of these writes. A PENDING record becomes REJECTED and nothing else changes. The rule is preserved. |
| `Enrollments.ApproveAfterRejectScenario` | app/api/admin/enrollments/approve/route.ts:33-36 | Through the handlers' own contracts, request, reject, request again, then approve the first record leaves two active records for one pair. |
| `CartStore.TotalQuantityBelow` | app/api/cart/route.ts:19-33 | Lines at or above a bound do not count towards the total below it. |
| `CartStore.TotalQuantityAdjust` | app/api/cart/route.ts:24-28 | Changing one line's quantity changes the total by the difference. |
| `CartStore.TotalQuantityInsert` | app/api/cart/route.ts:29-32 | A line added under a fresh top id adds its quantity to the total. |
| `CartStore.TotalQuantityRemove` | app/api/cart/route.ts:76-78 | Removing a line takes its quantity off the total. |
| `CartStore.TotalQuantityUnaffected` | app/api/cart/route.ts:76-78 | Removing a line at or above a bound leaves the total below it unchanged. |
| `CartStore.CartTable.FindCake` | app/api/cart/route.ts:19-21 | The lookup finds a line of that cake name and type exactly when one exists. |
| `CartStore.CartTable.Add` | app/api/cart/route.ts:9-35 | Any falsy field, including a zero price, gives 400 and no change. An existing line of the same cake gains exactly one in quantity, and nothing else changes. Otherwise one new line with quantity 1 is added under a fresh id. At most one line per (name, type) is kept, and the total quantity rises by exactly 1. |
| `CartStore.CartTable.Remove` | app/api/cart/route.ts:64-86 | A missing id gives 400 and an unknown id 500, with no change. Otherwise exactly that line is removed and the total quantity drops by its quantity. |
| `CartStore.CartTable.List` | app/api/cart/route.ts:47-51 | Every line of the global cart, each once, by `createdAt` descending. |
| `CartView.Total` | app/components/Cart.tsx:61 | The total of an empty cart is 0, and the total is non-negative when prices and quantities are. |
| `CartView.TotalAppend` | app/components/Cart.tsx:61 | The total of a concatenation is the sum of the totals. |
| `CartView.TotalSingle` | app/components/Cart.tsx:61 | One line contributes its price times its quantity. |
| `CartView.AfterRemove` | app/components/Cart.tsx:48-59 | On a failed response the list is unchanged. On an ok response it holds exactly the items whose id differs. |
| `CartView.AfterRemoveAppend` | app/components/Cart.tsx:53-55 | Removal commutes with concatenation and keeps or drops each single item, so the kept items stay in their order. |
| `CartView.TotalAfterRemove` | app/components/Cart.tsx:53-61 | After removal the total drops by the total of the removed items. |
| `CartView.ShowsCheckout` | app/components/Cart.tsx:125 | The footer is shown exactly when the cart has a line, so a hidden footer means a total of 0. |
| `Promotions.StoredDate` | app/api/admin/promotions/create/route.ts:30-31 | A blank date is stored as null and any other as its timestamp. |
| `Promotions.FormWeekday` | app/api/admin/promotions/create/route.ts:15 | A missing weekday field is NaN, and a present one is `parseInt` of it. |
| `Promotions.PromotionTable.Create` | app/api/admin/promotions/create/route.ts:6-41 | A non-ADMIN session gives 401 and an empty message 400, with no insert. A weekday that parses to NaN, when the column refuses NaN (`nanAccepted` false), gives 500 "Failed to create promotion" with no insert. Otherwise exactly one promotion is added with: the message; the parsed `dayOfWeek`, NaN as null; an empty `daysOfWeek`; `active` exactly when the field is "on"; nulls for blank dates; creation time `now`. The answer redirects to the promotions page. |
| `Promotions.PromotionTable.Toggle` | app/api/admin/promotions/toggle/route.ts:7-30 | A non-ADMIN session gives 401, and a missing or unknown id 500, with no change. Otherwise only that promotion's `active` changes, to whether the form value is "true". |
| `Promotions.PromotionTable.Delete` | app/api/admin/promotions/delete/route.ts:8-29 | A non-ADMIN session gives 401, and a missing or unknown id 500, with no change. Otherwise exactly that promotion is removed. |
| `Promotions.PromotionTable.Listed` | check-promotions.ts:17 | `findMany` lists every promotion of the table and nothing else. |
| `PromotionBanner.TodayEnd` | app/components/PromotionBanner.tsx:10-14 | The day's end is 23:59:59.999 after its start, and now lies between them. |
| `PromotionBanner.WindowIsOverlap` | app/components/PromotionBanner.tsx:22-40 | The four OR branches are equivalent to: start null or at most the day's end, and end null or at least the day's start. |
| `PromotionBanner.SelectNewest` | app/components/PromotionBanner.tsx:16-43 | Nothing is chosen exactly when nothing matches. Otherwise the choice matches and no match has a later `createdAt`. |
| `PromotionBanner.TodaysPromotion` | app/components/PromotionBanner.tsx:5-44 | No banner exactly when no promotion matches. The chosen one is active, lists today's weekday and overlaps today, and it is the newest match. |
| `PromotionBanner.SameDayBoundsMatch` | app/components/PromotionBanner.tsx:10-40 | A promotion starting later today, or one that ended earlier today, still matches. |
| `PromotionBanner.CreatedPromotionsNeverMatch` | app/components/PromotionBanner.tsx:19-21 | A promotion with an empty `daysOfWeek`, as the create form stores, never matches. |
| `PromotionBanner.NoNewerMatch` | app/components/PromotionBanner.tsx:42 | Whenever some promotion matches, a banner is shown, and it is at least as new as that match. |
| `PromotionDebug.DateMatchesCases` | check-promotions.ts:65-69 | With no bounds it is true; with only a start, start ≤ now; with only an end, end ≥ now; with both, start ≤ now ≤ end. |
| `PromotionDebug.ScriptWindowIsDateMatches` | check-promotions.ts:39-44 | The script's query window is `dateMatches` at the instant `today`. |
| `PromotionDebug.ScriptMatchImpliesBanner` | check-promotions.ts:33-47 | Whatever the script's query finds, the banner's query matches too. |
| `PromotionDebug.EndedEarlierToday` | check-promotions.ts:41-43 | A promotion whose end fell earlier today is selected by the banner but not by the script. |
| `PromotionDebug.Diagnose` | check-promotions.ts:62-69 | The flags say, one by one: the promotion is inactive, its `daysOfWeek` lacks today's weekday, and `dateMatches` holds at the instant. All three pass exactly when the script's query matches it. |
| `PromotionDebug.Report` | check-promotions.ts:33-73 | The query finds nothing exactly when no promotion matches at the instant. Otherwise it finds the newest match, which the banner also shows. When it finds nothing, there is one diagnosis per promotion in order, and each fails at least one check. |
| `PromotionDebug.CheckPromotions` | check-promotions.ts:7-74 | The same report over every promotion of the table as `findMany` lists it. The found promotion is a match in the table and no match is newer. Nothing is found exactly when no promotion of the table matches. |
| `Signup.View` | app/api/auth/signup/route.ts:47-54 | The response shows the user's id, name, email and role, and has no password field. |
| `Signup.StoredRole` | app/api/auth/signup/route.ts:40 | The stored role is `admin` exactly when the request's role is `admin`, and `user` otherwise. |
| `Signup.SignupRoleIsNeverAdmin` | app/api/auth/signup/route.ts:40 | A session carrying a role stored by signup fails the `ADMIN` check. |
| `Signup.EnumColumnRefusesSignup` | app/api/auth/signup/route.ts:40 | Neither role that signup stores is one of the enum names `USER`, `ADMIN`, `SUPER_ADMIN` used elsewhere in the code. |
| `Signup.UserTable.SignUp` | app/api/auth/signup/route.ts:9-64 | A missing name, email or password gives 400, and an existing email gives 400 "User already exists", both with no insert. A normalised role the column refuses gives 500 with no insert. Otherwise one user is added with the hashed password and the normalised role, and emails stay unique. |
| `School.Duration` | app/components/SchoolTab.tsx:45-47 | The duration is one of the four values, and it is `12 weeks` exactly for the levels other than the three named. |
| `School.DurationByLevel` | app/components/SchoolTab.tsx:45-47 | The levels map as follows: Beginner to 4 weeks, Intermediate to 6, Advanced to 8, and any other level to 12. |
| `School.WithDurations` | app/components/SchoolTab.tsx:43-48 | The mapping keeps length and order and every field except the duration, which is derived from the level. |
| `School.WithDurationsIdempotent` | app/components/SchoolTab.tsx:43-48 | Deriving durations twice equals deriving them once. |
| `Header.BeforeAt` | app/components/Header.tsx:32 | `split('@')[0]` is the longest prefix without `@`: it ends at the first `@` or at the end of the text. |
| `Header.DisplayName` | app/components/Header.tsx:32 | The name is never empty. It is the session name if non-empty, otherwise the email's part before `@` if non-empty, otherwise `User`. |
| `Header.LocalPart` | app/components/Header.tsx:32 | An address `local@domain` with no `@` in `local` yields `local`. |
| `Header.AdminFlagIsExact` | app/components/Header.tsx:31 | The admin flag holds exactly when the role equals `ADMIN`, so a lower-case `admin` role does not pass. |

## Left out

- Signup.UserTable.SignUp: the type of the role column is a parameter, because the database schema is not part of this model. The model does not decide whether real signups succeed or fail with 500.

- Amounts are integers. `Math.ceil` on the initiation amount is not modelled.
  A callback amount sent as text is read with `parseInt` rules, so fractions,
  exponents and `Infinity` in that text are not covered.
- The gateway HTTP calls (token fetch, STK push), the base64 credentials, the
  push password and its timestamp are not modelled. They become the
  parameters `configured`, `token`, `push` and `ack` of
  `Payments.PaymentTable.Initiate`.
- The rest of the initiation response is not modelled: the spread of the
  gateway's body and the `details` text of errors.
- `createdAt` and `updatedAt` of payments are not modelled. They are clock
  values that no handler decides on.
- Database failures other than the unique index, a missing record, a
  refused signup role and a refused NaN weekday are not modelled: connection
  errors and malformed ObjectId strings. After them each handler answers from
  its `catch`.
- Promotions.PromotionTable.Create: whether the `dayOfWeek` column takes the
  NaN of an unparsable weekday is the parameter `nanAccepted`, because the
  database schema is not part of this model. When it does, NaN is stored as
  null. When it does not, the create answers 500 with no insert. The admin
  form sends no weekday field, so every create through it takes one of these
  two paths.
- The cart that initiation stores is modelled as text, not as the array of
  cart lines the client sends. An empty array is truthy in JavaScript and is
  stored as sent; the model has only the empty string as a falsy cart.
- Response joins are not modelled: the course `include` of enrollment
  creation and of a user's enrollment list, and the user and course
  `include` of the admin's pending list. The behaviour with an unknown course
  id and the `createdAt` selected by the check are not modelled either.
- The text of reject's success redirect is not modelled. It names the user
  and the course from joined tables; the model answers `RejectedNotice`.
- next-auth session handling is not modelled. The session, with its role, is
  a parameter.
- bcrypt's salting is not modelled: the hash is a plain function parameter.
- Reading form date strings with `new Date` is not modelled, including
  invalid dates. A date field arrives as blank or as a timestamp.
- Local-time `Date` arithmetic is not modelled: `getDay` and `setHours`, and
  days that are not 24 hours long. The clock's weekday and midnight are
  given.
- `Promotions.FormWeekday` does not model `parseInt` reading a `0x` prefix
  as hexadecimal. Only decimal digits are read.
- The debug script's text output, its listing of all promotions and its file
  write are I/O and are not modelled.
- Concurrency between initiation, callback and poll is not modelled.
- In the cart drawer, fetching the cart, the checkout navigation and
  currency formatting are not modelled.
