# Anti-fraud decision engine — a Dafny model

This project models the core of a payment anti-fraud service. The service
classifies each card transaction as ALLOWED, MANUAL_PROCESSING or PROHIBITED.
It then moves its two amount thresholds (`maxAllowed`, `maxManual`) in
response to human feedback on past verdicts. Around that engine sit the
blacklists of stolen card numbers and suspicious IP addresses, the format
checks (Luhn checksum, dotted-quad IPv4), the region enumeration and the
user table.

Each service becomes a module of pure functions over an immutable state.
Every state-changing operation returns `Step(next, out)`: the next state, plus either the
response or the kind of exception the service throws. The exception kinds
are:

- `BadRequest`: `IllegalArgumentException`, HTTP 400.
- `NotFound`: the not-found exceptions.
- `Conflict`: the conflict exceptions.
- `Unprocessable`: feedback equal to the original verdict.

| file | module | models |
|---|---|---|
| base.dfy | `Base` | `Option`, `Result`, `Step`, the error kinds |
| text.dfy | `Text` | digits, ASCII upper-casing, `String.join`, splitting on a character |
| seqs.dfy | `Seqs` | `filter`, `distinct` and `count` of a stream |
| order.dfy | `Order` | `String.compareTo` and `Collections.sort` of a duplicate-free list |
| validation.dfy | `Validation` | `ValidationUtil.isValidLuhn` (a loop proved against a recursive sum) and `isValidIpV4` |
| region.dfy | `Regions` | the `Region` enum, `isValidCode`, `fromCode` |
| stolen_cards.dfy | `StolenCards` | `StolenCardService` |
| suspicious_ips.dfy | `SuspiciousIps` | `SuspiciousIpService` |
| users.dfy | `Users` | `UserService` |
| decision.dfy | `Decision` | the signals, the verdict, the `info` string, `getAmountResult` |
| limits.dfy | `Limits` | the thresholds and `adjustLimits` |
| transactions.dfy | `Transactions` | `validateTransaction`, `addFeedback`, `getTransactionHistoryByNumber` |

The stored transactions form a sequence in insertion order. The identity
column is modelled as "the n-th stored transaction has id n".

The correlation history is the derived query `findByNumberAndDateBetween`.
It is computed from that sequence as a `Between` (SQL `BETWEEN`), inclusive
at both ends. The repository's comment calls the end exclusive, but the
code follows the derived-query semantics, and so does the model.

Each correlation count is proved equal to the cardinality of a set: the
distinct other IPs, or the distinct other regions, in the window.

The `info` string is built in three steps:

1. the source collects the reasons into a `HashSet`;
2. it sorts them with `Collections.sort`;
3. it joins them with `", "`.

The model sorts by insertion. It proves that a strictly sorted list is
determined by its elements, so `info` does not depend on the iteration
order of the set.

Feedback moves the thresholds. A stricter correction lowers a bound by
(x + amount)/5, a fifth of the way toward -amount: `ceil(0.8x - 0.2amount)`. A looser correction moves a
bound a fifth of the way toward the amount: `ceil(0.8x + 0.2amount)`. So a
looser correction raises a bound below the amount and lowers one above it.
For example, (200, 1500) with MANUAL_PROCESSING corrected to ALLOWED at
amount 100 becomes (180, 1500).

## Model

| member | source | states |
|---|---|---|
| Validation.IsValidLuhn | src/antifraud/util/ValidationUtil.java:24-43 | the right-to-left loop accepts exactly the non-null, non-empty all-digit strings whose Luhn sum (every second digit from the right doubled, 9 subtracted above 9) is a multiple of 10 |
| Validation.Contribution | src/antifraud/util/ValidationUtil.java:32-38 | a digit contributes at most 9; a doubled digit contributes twice itself less 9 when that exceeds 9, which is what `(n % 10) + 1` computes |
| Validation.SingleDigitErrorDetected | src/antifraud/util/ValidationUtil.java:24-43 | changing any one digit of a valid card number makes it invalid |
| Validation.LuhnExamples | src/antifraud/util/ValidationUtil.java:24-43 | "18" passes, "19" fails, the empty string fails |
| Validation.OctetPatternIsOctet | src/antifraud/util/ValidationUtil.java:13-14 | the octet alternative of the pattern accepts exactly the strings of one to three ASCII digits with value at most 255 |
| Validation.IsValidIpV4 | src/antifraud/util/ValidationUtil.java:16-21 | null is rejected, and a string is accepted iff it is four octets (one to three digits, value at most 255, leading zeros allowed) joined by dots |
| Validation.QuadFieldsAreDottedQuads | src/antifraud/util/ValidationUtil.java:13-14 | the anchored pattern, read as "split on dots, four fields, each matching the octet alternative", accepts exactly the dotted quads |
| Validation.QuadFieldsAreOctets | src/antifraud/util/ValidationUtil.java:13-14 | every string the pattern accepts is four octets joined by dots |
| Validation.OctetsAreQuadFields | src/antifraud/util/ValidationUtil.java:13-14 | every four octets joined by dots are accepted by the pattern |
| Regions.IsValidCode | src/antifraud/model/Region.java:27-30 | null is invalid, and a code is valid iff it is exactly one of the seven names EAP, ECA, HIC, LAC, MENA, SA, SSA, case-sensitively |
| Regions.ValidCodes | src/antifraud/model/Region.java:10-30 | some constant's name equals a string iff it is one of the seven names |
| Regions.FromCode | src/antifraud/model/Region.java:38-44 | a region is returned iff the code is valid, and then the code is that region's name; null gives empty |
| Regions.NameRoundTrip | src/antifraud/model/Region.java:38-44 | `fromCode(r.name())` is `r` for every region |
| Regions.LowerCaseRejected | src/antifraud/model/Region.java:27-44 | "eap", "Mena" and null are rejected by both operations |
| StolenCards.AddStolenCard | src/antifraud/service/StolenCardService.java:29-40 | succeeds iff the number passes Luhn and is not listed, adding exactly it; a bad number is a bad request, a listed one a conflict, and errors change nothing |
| StolenCards.DeleteStolenCard | src/antifraud/service/StolenCardService.java:43-54 | succeeds iff the number passes Luhn and is listed, removing exactly it with the status message; otherwise bad request or not found, changing nothing |
| StolenCards.AddThenDelete | src/antifraud/service/StolenCardService.java:29-63 | adding then deleting a fresh valid number restores the set; in between it is reported stolen |
| StolenCards.IsCardStolen | src/antifraud/service/StolenCardService.java:60-63 | for a valid number, the query answers yes exactly when an add would be a conflict and a delete would succeed |
| StolenCards.QueryIgnoresFormat | src/antifraud/service/StolenCardService.java:60-63 | the membership query applies no format check |
| SuspiciousIps.AddSuspiciousIp | src/antifraud/service/SuspiciousIpService.java:28-38 | succeeds iff the address is a dotted quad and not listed, adding exactly it; bad request or conflict otherwise, changing nothing |
| SuspiciousIps.DeleteSuspiciousIp | src/antifraud/service/SuspiciousIpService.java:41-51 | succeeds iff the address is a dotted quad and listed, removing exactly it; bad request or not found otherwise, changing nothing |
| SuspiciousIps.AddThenDelete | src/antifraud/service/SuspiciousIpService.java:28-60 | adding then deleting a fresh valid address restores the set; in between it is reported suspicious |
| SuspiciousIps.IsIpSuspicious | src/antifraud/service/SuspiciousIpService.java:57-60 | for a valid address, the query answers yes exactly when an add would be a conflict and a delete would succeed |
| SuspiciousIps.QueryIgnoresFormat | src/antifraud/service/SuspiciousIpService.java:57-60 | the membership query applies no format check |
| Users.Find | src/antifraud/repository/UserRepository.java:13 | on a well-keyed table, a user is found iff some stored username equals the given one ignoring case |
| Users.RegisterUser | src/antifraud/service/UserService.java:33-57 | a name taken in any letter case is a conflict; otherwise the new user gets the next id and the encoded password, the first user of an empty table is an unlocked administrator, every later one a locked merchant |
| Users.DeleteUser | src/antifraud/service/UserService.java:66-70 | an unknown name is not found; otherwise exactly that account disappears and every other stays |
| Users.AssignableRole | src/antifraud/service/UserService.java:79-92 | only MERCHANT and SUPPORT, in any letter case, can be assigned; never ADMINISTRATOR |
| Users.ChangeUserRole | src/antifraud/service/UserService.java:74-101 | succeeds iff the user exists, the role is assignable and differs from the current one; else not found, then an unassignable role (bad request), then the current role (conflict), changing nothing; on success only that user's role changes |
| Users.ChangeUserAccess | src/antifraud/service/UserService.java:104-130 | succeeds iff the user exists, is not the administrator and the operation is LOCK or UNLOCK in any case; else not found, then the administrator (bad request), then an unknown operation (bad request), changing nothing; on success only the lock flag changes and the status names the user |
| Users.RegisterPreservesInvariants | src/antifraud/service/UserService.java:33-57 | registration keeps every user under its case-folded name and at most one administrator |
| Users.DeletePreservesInvariants | src/antifraud/service/UserService.java:66-70 | deletion keeps the same invariants |
| Users.ChangeRolePreservesInvariants | src/antifraud/service/UserService.java:74-101 | a role change keeps them (the administrator role is never assigned) |
| Users.ChangeAccessPreservesInvariants | src/antifraud/service/UserService.java:104-130 | a lock change keeps them |
| Users.RegisterIgnoresCase | src/antifraud/service/UserService.java:33-37 | after registering a name, the same name in another letter case is a conflict |
| Decision.ParseVerdict | src/antifraud/service/TransactionService.java:154-159 | `valueOf(toUpperCase())`: a verdict is returned only if its name equals the upper-cased input, and none when no name does |
| Decision.ParseVerdictName | src/antifraud/service/TransactionService.java:154-159 | every spelling of a verdict name, in any letter case, parses to that verdict |
| Decision.ComputeSignals | src/antifraud/service/TransactionService.java:89-96 | the two amount signals exclude each other; the prohibited one holds iff amount > `maxManual` and, for ordered thresholds, one of them holds iff amount > `maxAllowed`; the blacklist answers pass through; a correlation count of exactly 2 is the manual signal, 3 or more the prohibited one, so at most 1 gives none |
| Decision.AmountResult | src/antifraud/service/TransactionService.java:225-233 | ALLOWED iff the amount is at most `maxAllowed`; for ordered thresholds the verdict's severity is the number of bounds the amount exceeds |
| Decision.AmountSignalsAgree | src/antifraud/service/TransactionService.java:225-233 | for ordered thresholds the amount signals name the same zone as `getAmountResult` |
| Decision.Decide | src/antifraud/service/TransactionService.java:99-105 | the prohibited-first severity chain yields the most severe tier reached by any single check |
| Decision.ReasonList | src/antifraud/service/TransactionService.java:111-121 | no reason is collected twice; for PROHIBITED, and for MANUAL_PROCESSING when that is the verdict reached, a check's token is collected iff the check reached that tier |
| Decision.Info | src/antifraud/service/TransactionService.java:107-129 | info is "none" iff the verdict is ALLOWED; a non-empty joined list never reads "none" |
| Decision.InfoListsWinningTier | src/antifraud/service/TransactionService.java:107-128 | info is "none" iff ALLOWED; otherwise it is the sorted, ", "-joined tokens of exactly the checks at the verdict's tier; "unknown" is unreachable |
| Order.Sort | src/antifraud/service/TransactionService.java:122-123 | the sorted reasons are a strictly increasing permutation of the reasons |
| Order.SortedUnique | src/antifraud/service/TransactionService.java:122-124 | two strictly sorted lists with the same elements are equal, so set iteration order cannot change `info` |
| Seqs.DistinctCount | src/antifraud/service/TransactionService.java:85-86 | `distinct().count()` is the number of different elements |
| Limits.Tighten | src/antifraud/service/TransactionService.java:198-201 | `ceil(0.8x - 0.2amount)` is the least integer at or above (4x - amount)/5 and never exceeds x for x + amount >= 0 |
| Limits.Loosen | src/antifraud/service/TransactionService.java:205 | `ceil(0.8x + 0.2amount)` is the least integer at or above (4x + amount)/5 and lies between x and the amount |
| Limits.Clamp | src/antifraud/service/TransactionService.java:218-221 | the result is ordered (1 <= maxAllowed < maxManual), each bound is raised only as far as needed, and an ordered pair is left alone |
| Limits.AdjustLimits | src/antifraud/service/TransactionService.java:188-222 | the thresholds stay ordered; for a feedback different from the verdict, a bound is recomputed iff the correction crosses it (rounding up may leave it where it was), down by (x + amount)/5, a fifth of the way toward -amount, for a stricter feedback and a fifth of the way toward the amount for a looser one (so a looser feedback lowers a bound that lies above the amount), then the clamp applies and may raise either bound |
| Limits.AdjustExample | src/antifraud/service/TransactionService.java:188-222 | (200, 1500) with ALLOWED corrected to PROHIBITED at amount 300 becomes (100, 1140); MANUAL_PROCESSING to ALLOWED gives (220, 1500) at amount 300 and (180, 1500) at amount 100; a crossed bound can stay put: ALLOWED to MANUAL_PROCESSING at amount 1 leaves (1, 10) unchanged |
| Limits.StricterNeverRaises | src/antifraud/service/TransactionService.java:196-208 | a stricter correction never raises either bound of an ordered pair |
| Limits.LooserNeverLowers | src/antifraud/service/TransactionService.java:203-215 | a looser correction for an amount at or above both bounds never lowers either bound |
| Transactions.Window | src/antifraud/service/TransactionService.java:81-82 | the history holds exactly the stored transactions of the card within the hour up to and including the request time |
| Transactions.IpCorrelation | src/antifraud/service/TransactionService.java:86 | the IP count is the number of distinct IPs other than the request's among the window |
| Transactions.RegionCorrelation | src/antifraud/service/TransactionService.java:85 | the region count is the number of distinct regions other than the request's among the window |
| Transactions.ValidateTransaction | src/antifraud/service/TransactionService.java:53-141 | an unparsable date, then an unknown region, is a bad request changing nothing; otherwise PROHIBITED iff amount > maxManual, listed IP, stolen card, or 3+ other IPs or regions; MANUAL_PROCESSING iff not that and some manual-tier condition; info as above; exactly one record with the next id and empty feedback is appended, thresholds and blacklists unchanged |
| Transactions.InitialInv | src/antifraud/service/TransactionService.java:26-27 | the initial thresholds (200, 1500) are ordered and the empty store has identity ids |
| Transactions.ValidatePreservesInv | src/antifraud/service/TransactionService.java:131-135 | saving a transaction keeps ordered thresholds and identity ids |
| Transactions.FindTx | src/antifraud/service/TransactionService.java:147-148 | a position is returned only for a record with that id, and none when no record has it |
| Transactions.FindTxIndices | src/antifraud/service/TransactionService.java:147-148 | under identity ids, exactly the ids 1..n are found, the id n at position n - 1 |
| Transactions.AddFeedback | src/antifraud/service/TransactionService.java:146-169 | succeeds iff the id is stored, the record has no feedback, the value names a verdict in some letter case and that verdict differs from the record's result; else not found, then existing feedback (conflict), then a value that is no verdict name in any case (bad request), then the original verdict (unprocessable), each changing nothing; otherwise only that record gains the upper-cased verdict name as feedback and the thresholds are adjusted with its amount |
| Transactions.FeedbackPreservesInv | src/antifraud/service/TransactionService.java:146-169 | feedback keeps ordered thresholds and identity ids |
| Transactions.SecondFeedbackConflicts | src/antifraud/service/TransactionService.java:150-152 | once feedback has been recorded, any further feedback for that transaction is a conflict |
| Transactions.CardHistory | src/antifraud/repository/TransactionRepository.java:29 | the card's history holds exactly the stored transactions with that number, ids increasing |
| Transactions.TransactionHistoryByNumber | src/antifraud/service/TransactionService.java:176-185 | succeeds iff the number passes Luhn and some stored transaction has it; a number failing Luhn is a bad request, a number with no transactions is not found, otherwise the card's whole history in id order |
| Transactions.InitialAmountOnly | src/antifraud/service/TransactionService.java:89-128 | on the initial state only the amount can raise a signal: the verdict is the `getAmountResult` zone and info is "amount" unless ALLOWED ("none"); 201 is MANUAL_PROCESSING and 1501 PROHIBITED |

## Left out

- Limits.AdjustLimits: the source computes `(1 - 0.2)·x ± 0.2·amount` in `double`. The model uses the exact rational `(4x ± amount)/5`. When the exact value is an integer, rounding error can push the double just above it, and `Math.ceil` then returns one more. Example: maxAllowed 1, amount 71, MANUAL_PROCESSING corrected to ALLOWED. `0.2·71` rounds to the double above 14.2, the sum to the double above 15, so the source stores 16 where the exact value is 15. Amounts or thresholds above 2^53 also lose integer precision in the conversion to `double`, and there the source can differ from the exact value by more than one.
- Limits.Tighten: the `(long)` cast and `long` overflow of the thresholds are not modelled; integers are unbounded.
- Limits.Loosen: the `(long)` cast and `long` overflow of the thresholds are not modelled; integers are unbounded.
- Validation.IsValidLuhn: the `int` sum could overflow only past about 238 million digits; the model's sum is unbounded.
- Case-insensitive matching (`toUpperCase`, `equalsIgnoreCase`, `findByUsernameIgnoreCase`) is modelled for ASCII letters only. Java's Unicode special cases are not modelled: dotless ı, long ſ, `ß` upper-casing to `SS`, the Kelvin sign. `feedbackValue.toUpperCase()` also uses the default locale. Under a Turkish locale "prohibited" becomes "PROHİBİTED" (dotted capital İ), which names no verdict and is rejected; the model upper-cases as the root locale does.
- Date parsing with `yyyy-MM-dd'T'HH:mm:ss` is an input: the request carries the parsed time in seconds, or none when the date does not parse.
- `minusHours(1)` is 3600 seconds; calendar and time-zone effects are not modelled.
- The IPv4 and Luhn checks the controller runs before `validateTransaction` are not repeated in the model of the service. The model of the service accepts any IP and card number, as the service itself does.
- Bean validation of requests (`@NotEmpty`, `@Min(1)`, `@Pattern`) runs before the services and is not modelled.
- BCrypt password hashing is the function parameter `encode`.
- Persistence is not modelled: blacklist entity ids, repository calls, `@Transactional` rollback and concurrent requests.
- Logging (`System.out.printf`) is not modelled.
- `getTransactionHistory`, `listUsers`, `listStolenCards` and `listSuspiciousIps` are left out: each only returns a whole table sorted by id.
- `convertToUserResponse` is a field copy into a response object, and HTTP status mapping and controllers are outside the model.
