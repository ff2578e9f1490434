# Personal-finance platform core: transaction stream, transaction service, user service

This project models the core of a personal-finance platform built from two Spring services.

The **transaction service** validates transactions and saves them to a relational store. It indexes
each one as a search document, then publishes it to two Kafka topics: `transaction-events` carries the
entity, and `transaction-analytics` carries creation, update and deletion events.

A **Kafka Streams processor** reads `transaction-events` and splits the stream into expense and income
branches; everything else is dropped. It sends a fraud alert with a risk level for each suspicious
expense. It keeps three tumbling-window aggregates:
- daily spending per user;
- 30-day income per user;
- 30-day spending per user and category.

The last one raises a budget alert once the window's total passes one million.

The **user service** does registration, login, profile update, soft delete, activation and
deactivation, password change and a case-insensitive search. Every change sends a user event.

Modelling choices:
- Money is whole cents (`Cents = int`). The source's `BigDecimal` thresholds are multiplied by 100, and
  `BigDecimal` division with HALF_UP rounding is written out as `StreamRules.RoundHalfUp`.
- An exception is a `Failure` of a `Result`. The state it leaves is the state the source leaves:
  - the relational store is rolled back by `@Transactional`;
  - search-index writes and Kafka sends stay.
- Clocks, generated ids, the password encoder and the token generator are parameters.
- The streams runtime is modelled as one record at a time:
  - `Windowing.Advance` is the write to the state store;
  - `StreamProcessor.Process` runs the three aggregations over a stream of records.

  `Windowing.Mirrors` is the invariant that each state store holds the fold of its window's records.

Modules: `Wrappers` (Option, Result), `Text` (lower-casing, containment, Java `String.join` and
`String.split` with a one-character delimiter), `Transactions` (the entity), `StringListConverter`,
`Windowing`, `StreamRules`, `StreamProcessor`, `TransactionService`, `CategoryRanking` (the top-N
category selection) and `UserService`.

## Model

Source paths are relative to the repository root.

| member | source | states |
|---|---|---|
| StringListConverter.ToDatabaseColumn | transaction-service/src/main/java/com/finance/transaction/config/StringListConverter.java:12-17 | a null list is stored as an empty array; any other list is stored element for element |
| StringListConverter.ToEntityAttribute | transaction-service/src/main/java/com/finance/transaction/config/StringListConverter.java:20-25 | a null or empty array reads back as null; any other array reads back as the same list |
| StringListConverter.EntityRoundTrip | transaction-service/src/main/java/com/finance/transaction/config/StringListConverter.java:12-25 | a non-empty list survives a write and a read unchanged |
| StringListConverter.EmptyListComesBackNull | transaction-service/src/main/java/com/finance/transaction/config/StringListConverter.java:12-25 | an empty list and a null list both read back as null, so the round trip is lossy exactly there |
| StringListConverter.ColumnRoundTrip | transaction-service/src/main/java/com/finance/transaction/config/StringListConverter.java:12-25 | any stored array survives a read and a write unchanged |
| StreamRules.Classify | transaction-service/src/main/java/com/finance/transaction/stream/TransactionStreamsProcessor.java:49-55 | the expense branch takes exactly type "EXPENSE", the income branch exactly "INCOME", and the default branch everything else, null included |
| StreamRules.ClassifyIsCaseSensitive | transaction-service/src/main/java/com/finance/transaction/stream/TransactionStreamsProcessor.java:51-53 | the branch predicates use exact `equals`, so "expense", "Income" and a null type go to the default branch |
| StreamRules.RiskLevelOf | transaction-service/src/main/java/com/finance/transaction/stream/TransactionStreamsProcessor.java:206-218 | CRITICAL iff the amount is above 50,000,000; HIGH iff it is above 10,000,000 and at most 50,000,000; MEDIUM iff above 5,000,000 and at most 10,000,000; LOW otherwise |
| StreamRules.RiskLevelMonotone | transaction-service/src/main/java/com/finance/transaction/stream/TransactionStreamsProcessor.java:206-218 | a larger amount never gets a lower risk level |
| StreamRules.RiskLevelSamples | transaction-service/src/main/java/com/finance/transaction/stream/TransactionStreamsProcessor.java:209-216 | the thresholds are strict: exactly 50,000,000 is HIGH and exactly 10,000,000 is MEDIUM |
| StreamRules.AmountTriggeredRisk | transaction-service/src/main/java/com/finance/transaction/stream/TransactionStreamsProcessor.java:188-218 | a transaction flagged only for its amount is always HIGH or CRITICAL |
| StreamRules.SuspicionBoundary | transaction-service/src/main/java/com/finance/transaction/stream/TransactionStreamsProcessor.java:188-194 | with no description, a transaction is suspicious iff its amount is strictly above 10,000,000 |
| StreamRules.MissingFirstChar | transaction-service/src/main/java/com/finance/transaction/stream/TransactionStreamsProcessor.java:196-201 | a word whose first letter does not occur in a text is not contained in it |
| StreamRules.FlaggedWordAnywhere | transaction-service/src/main/java/com/finance/transaction/stream/TransactionStreamsProcessor.java:196-201 | a description flags the transaction when "test", "fake" or "dummy" appears in it in any letter case and at any position |
| StreamRules.MixedCaseWord | transaction-service/src/main/java/com/finance/transaction/stream/TransactionStreamsProcessor.java:197-200 | the description is lower-cased before the match, so "TeSt" is a flagged word |
| StreamRules.UnflaggedWithoutInitials | transaction-service/src/main/java/com/finance/transaction/stream/TransactionStreamsProcessor.java:196-201 | a description with none of the letters t, f, d in either case never flags a transaction |
| StreamRules.FlaggedOccurs | transaction-service/src/main/java/com/finance/transaction/stream/TransactionStreamsProcessor.java:196-201 | a description is flagged iff "test", "fake" or "dummy" occurs at some position of its lower-cased text |
| StreamRules.IsSuspicious | transaction-service/src/main/java/com/finance/transaction/stream/TransactionStreamsProcessor.java:188-204 | a transaction is suspicious iff its amount is above 10,000,000 or its description is present and one of the three words occurs somewhere in it, lower-cased |
| StreamRules.FraudAlertFor | transaction-service/src/main/java/com/finance/transaction/stream/TransactionStreamsProcessor.java:66-78 | the alert carries the transaction's user, id and amount; an amount above the suspicion threshold gives HIGH or CRITICAL |
| StreamRules.DescriptionOnlyAlertIsLow | transaction-service/src/main/java/com/finance/transaction/stream/TransactionStreamsProcessor.java:66-78 | an alert raised for a small amount, which can only be the description's doing, is rated LOW |
| StreamRules.MinOf | transaction-service/src/main/java/com/finance/transaction/stream/TransactionStreamsProcessor.java:254-255 | the running minimum is one of the amounts and no amount is smaller |
| StreamRules.MaxOf | transaction-service/src/main/java/com/finance/transaction/stream/TransactionStreamsProcessor.java:253 | the running maximum is one of the amounts and no amount is larger |
| StreamRules.SumConcat | transaction-service/src/main/java/com/finance/transaction/stream/TransactionStreamsProcessor.java:242-257 | totals add up over the concatenation of two runs of records |
| StreamRules.SumPermutation | transaction-service/src/main/java/com/finance/transaction/stream/TransactionStreamsProcessor.java:242-257 | the total does not depend on the order of the amounts |
| StreamRules.MinMaxPermutation | transaction-service/src/main/java/com/finance/transaction/stream/TransactionStreamsProcessor.java:253-255 | neither extreme depends on the order of the amounts |
| StreamRules.RoundHalfUp | transaction-service/src/main/java/com/finance/transaction/stream/TransactionStreamsProcessor.java:252 | division rounded HALF_UP to scale 2, that is to whole cents: the quotient is within half a cent of the exact one, ties rounded away from zero |
| StreamRules.UpdateSpending | transaction-service/src/main/java/com/finance/transaction/stream/TransactionStreamsProcessor.java:242-257 | one step of the daily aggregate: count and total grow by one expense, the mean is the new total over the new count rounded half up, the maximum is the larger of the old maximum and the amount, the minimum is the amount for the first expense and otherwise the smaller of the two, and `categories` is passed through |
| StreamRules.SpendingFoldTotals | transaction-service/src/main/java/com/finance/transaction/stream/TransactionStreamsProcessor.java:231-257 | folding a window from the empty aggregate counts its records and totals their amounts; the category map stays empty |
| StreamRules.SpendingFoldExtremes | transaction-service/src/main/java/com/finance/transaction/stream/TransactionStreamsProcessor.java:231-257 | for a non-empty window the fold's min and max are the least and greatest amounts, the minimum being taken from the first record rather than from the initial 0 |
| StreamRules.SpendingFold | transaction-service/src/main/java/com/finance/transaction/stream/TransactionStreamsProcessor.java:114-138 | the daily summary of a non-empty window holds its count, total, min, max and the HALF_UP average of its amounts |
| StreamRules.SpendingOrderIndependent | transaction-service/src/main/java/com/finance/transaction/stream/TransactionStreamsProcessor.java:242-257 | two windows with the same amounts in any order have the same spending summary |
| StreamRules.UpdateIncome | transaction-service/src/main/java/com/finance/transaction/stream/TransactionStreamsProcessor.java:220-229 | one step of the income aggregate: the count grows by one, the total by the amount, and `sources` is passed through |
| StreamRules.IncomeFold | transaction-service/src/main/java/com/finance/transaction/stream/TransactionStreamsProcessor.java:90-97 | the income aggregate of a window is the total and count of its incomes, with an empty source map |
| StreamRules.UpdateBudget | transaction-service/src/main/java/com/finance/transaction/stream/TransactionStreamsProcessor.java:156-163 | one step of the budget aggregate: the count grows by one and the spend by the amount |
| StreamRules.BudgetFold | transaction-service/src/main/java/com/finance/transaction/stream/TransactionStreamsProcessor.java:149-164 | the budget aggregate of a window is the total and count of its expenses |
| StreamRules.BudgetKey | transaction-service/src/main/java/com/finance/transaction/stream/TransactionStreamsProcessor.java:145-146 | the key is the user id, then the first ':' of the key, then the category |
| StreamRules.SplitBudgetKeyAsWritten | transaction-service/src/main/java/com/finance/transaction/stream/TransactionStreamsProcessor.java:173-177 | a key without ':' throws; a key throws only when every piece after the first is empty; otherwise the result is the first two pieces between colons, neither holding ':' |
| StreamRules.BudgetKeyPieces | transaction-service/src/main/java/com/finance/transaction/stream/TransactionStreamsProcessor.java:145-146 | the composed key splits at ':' into the user id followed by the category's own pieces |
| StreamRules.SplitAsWrittenExactIff | transaction-service/src/main/java/com/finance/transaction/stream/TransactionStreamsProcessor.java:172-177 | the source's split gives back the user and category exactly iff the category is non-empty and contains no ':' |
| StreamRules.SplitAsWrittenThrowsOnEmptyCategory | transaction-service/src/main/java/com/finance/transaction/stream/TransactionStreamsProcessor.java:172-177 | with an empty category the split has one piece, and reading the second throws |
| StreamRules.SplitAsWrittenCutsAtColon | transaction-service/src/main/java/com/finance/transaction/stream/TransactionStreamsProcessor.java:172-177 | for a category "a:b" (with b non-empty and neither part containing ':'), the source's split reports category "a" |
| StreamRules.SplitAsWrittenTruncatesCategory | transaction-service/src/main/java/com/finance/transaction/stream/TransactionStreamsProcessor.java:172-177 | the category "food:lunch" comes back as "food" |
| StreamRules.SplitAtFirst | transaction-service/src/main/java/com/finance/transaction/stream/TransactionStreamsProcessor.java:172-177 | it fails iff the delimiter is absent; otherwise the head is delimiter-free and head, delimiter, tail rebuild the input |
| StreamRules.SplitAtFirstAfterFree | transaction-service/src/main/java/com/finance/transaction/stream/TransactionStreamsProcessor.java:172-177 | splitting at the first delimiter returns the delimiter-free head and the whole tail |
| StreamRules.SplitBudgetKeyRoundTrip | transaction-service/src/main/java/com/finance/transaction/stream/TransactionStreamsProcessor.java:145-146 | the corrected split recovers every user id and category from the composed key, including empty categories and categories with ':' |
| Windowing.WindowHoldsTimestamp | transaction-service/src/main/java/com/finance/transaction/stream/TransactionStreamsProcessor.java:88 | a record is assigned to window n iff its timestamp lies in [n·size, (n+1)·size) |
| Windowing.RecordJoinsOneWindow | transaction-service/src/main/java/com/finance/transaction/stream/TransactionStreamsProcessor.java:119-120 | a new record extends only its own group's window, and only if its branch filter keeps it |
| Windowing.WholeStreamInOneWindow | transaction-service/src/main/java/com/finance/transaction/stream/TransactionStreamsProcessor.java:147-148 | when every record is kept and falls in one window, that window holds the whole stream in order |
| Windowing.Advance | transaction-service/src/main/java/com/finance/transaction/stream/TransactionStreamsProcessor.java:89-97 | the state-store write applies the aggregator to the record's own window only, leaving every other window as it was; a filtered-out record changes nothing |
| Windowing.AdvanceMirrors | transaction-service/src/main/java/com/finance/transaction/stream/TransactionStreamsProcessor.java:147-164 | after each write, every window's stored aggregate is still the fold of that window's records |
| Windowing.EmptyMirrors | transaction-service/src/main/java/com/finance/transaction/stream/TransactionStreamsProcessor.java:91-95 | an empty store is the initializer of every window of the empty stream |
| StreamProcessor.Step | transaction-service/src/main/java/com/finance/transaction/stream/TransactionStreamsProcessor.java:86-182 | one record updates each state store so that every store still holds the fold of its windows, and the record's outputs are exactly its declarative ones |
| StreamProcessor.Process | transaction-service/src/main/java/com/finance/transaction/stream/TransactionStreamsProcessor.java:41-186 | the outputs for each record equal the declarative ones: the alerts and summaries computed from the folds of that record's windows over the stream so far |
| StreamProcessor.StoresGiveExpected | transaction-service/src/main/java/com/finance/transaction/stream/TransactionStreamsProcessor.java:83-186 | state stores that hold the folds of the stream so far produce exactly the declarative outputs |
| StreamProcessor.Outputs | transaction-service/src/main/java/com/finance/transaction/stream/TransactionStreamsProcessor.java:41-186 | a record gets a fraud alert iff it is a suspicious expense, an income summary iff it is an income, a daily summary iff it is an expense, and a budget alert iff it is an expense with a category whose window spend is above 1,000,000; the budget alert names the record's own user and category |
| StreamProcessor.AsWrittenAlertAgrees | transaction-service/src/main/java/com/finance/transaction/stream/TransactionStreamsProcessor.java:168-182 | the source's `split(":")` sends the same budget alert as the corrected split iff no alert is due or the category is non-empty and free of ':'; otherwise it throws or names a shortened category |
| StreamProcessor.BudgetAlertAsWrittenAgrees | transaction-service/src/main/java/com/finance/transaction/stream/TransactionStreamsProcessor.java:140-186 | for a record whose category is non-empty and free of ':', the alert the source computes from the record's window is exactly the declarative one |
| StreamProcessor.OwnWindowEndsWithRecord | transaction-service/src/main/java/com/finance/transaction/stream/TransactionStreamsProcessor.java:89-97 | the window a kept record is aggregated into ends with that record |
| StreamProcessor.TransfersSendNothing | transaction-service/src/main/java/com/finance/transaction/stream/TransactionStreamsProcessor.java:49-55 | a record that is neither an expense nor an income produces no output at all |
| StreamProcessor.IncomeSendsOnlySummary | transaction-service/src/main/java/com/finance/transaction/stream/TransactionStreamsProcessor.java:57-61 | an income produces an income summary and nothing else |
| StreamProcessor.FraudAlertIff | transaction-service/src/main/java/com/finance/transaction/stream/TransactionStreamsProcessor.java:63-79 | a fraud alert is sent iff the record is a suspicious expense; it carries that record's data |
| StreamProcessor.IncomeSummaryMeans | transaction-service/src/main/java/com/finance/transaction/stream/TransactionStreamsProcessor.java:83-112 | the income summary reports the record's user, the total and count of the incomes in its 30-day window, and that window's start |
| StreamProcessor.DailySummaryMeans | transaction-service/src/main/java/com/finance/transaction/stream/TransactionStreamsProcessor.java:114-138 | the daily summary reports the record's user, the count, total, extremes and average of the expenses in its day, and that day's start |
| StreamProcessor.BudgetAlertIff | transaction-service/src/main/java/com/finance/transaction/stream/TransactionStreamsProcessor.java:140-186 | a budget alert is sent iff the 30-day total for the record's user and category is above 1,000,000; it names that user, category and total |
| StreamProcessor.SumOfEqual | transaction-service/src/main/java/com/finance/transaction/stream/TransactionStreamsProcessor.java:150-164 | n equal amounts total n times the amount |
| StreamProcessor.RepeatedExpenseAlerts | transaction-service/src/main/java/com/finance/transaction/stream/TransactionStreamsProcessor.java:140-186 | with repeated equal expenses in one window, the k-th one alerts iff k times the amount exceeds the threshold, and every later one alerts too |
| StreamProcessor.FifthQuarterMillionAlerts | transaction-service/src/main/java/com/finance/transaction/stream/TransactionStreamsProcessor.java:168-171 | four expenses of 250,000 (exactly the threshold) raise no alert; the fifth does |
| TransactionService.FailedChecks | transaction-service/src/main/java/com/finance/transaction/service/TransactionService.java:238-255 | each of the four checks is reported iff it fails, in check order (amount, user, account, date); none is reported iff the transaction is valid |
| TransactionService.ValidationErrorsIff | transaction-service/src/main/java/com/finance/transaction/service/TransactionService.java:238-255 | a check's message is in the list iff that check fails; the list is empty iff the transaction is valid |
| TransactionService.Validate | transaction-service/src/main/java/com/finance/transaction/service/TransactionService.java:238-260 | validation succeeds iff the amount is positive and user, account and date are present; otherwise it throws a "Validation failed: " message |
| TransactionService.RejectionNamesEveryError | transaction-service/src/main/java/com/finance/transaction/service/TransactionService.java:256-259 | the rejection message contains every failed check's message |
| TransactionService.TwoErrorsInOrder | transaction-service/src/main/java/com/finance/transaction/service/TransactionService.java:238-260 | all failed checks are reported, joined by ", ", not only the first |
| TransactionService.Save | transaction-service/src/main/java/com/finance/transaction/entity/Transaction.java:63-69 | an insert gets the fresh id (when none is given) and a creation time of now; a merge into a stored row returns the request's own creation time, null included; every save sets the update time; no other field changes |
| TransactionService.StoredRow | transaction-service/src/main/java/com/finance/transaction/entity/Transaction.java:63-65 | the row written by a save is the returned entity, except that a merge keeps the row's old creation time, since the column is not updatable |
| TransactionService.SavedValidIsAdmitted | transaction-service/src/main/java/com/finance/transaction/service/TransactionService.java:53-60 | a saved transaction is admitted (valid, with an id and a creation time) iff the request was valid and was not a merge without a creation time |
| TransactionService.TimeOfDayOf | transaction-service/src/main/java/com/finance/transaction/service/TransactionService.java:286-292 | MORNING iff the hour is in [6, 12); AFTERNOON iff in [12, 18); EVENING iff in [18, 22); NIGHT otherwise |
| TransactionService.TimeOfDayBoundaries | transaction-service/src/main/java/com/finance/transaction/service/TransactionService.java:286-292 | each bucket starts at its lower bound inclusive; 22 and 23 are NIGHT |
| TransactionService.MapToDocument | transaction-service/src/main/java/com/finance/transaction/service/TransactionService.java:262-284 | mapping throws iff the id, date or creation time is null; otherwise every field is copied and month, year and time of day are derived from the date and creation time |
| TransactionService.TagList | transaction-service/src/main/java/com/finance/transaction/service/TransactionService.java:423-424 | null or empty tags give no tags; a comma-free string is one tag; no tag contains a comma |
| TransactionService.TagListRoundTrip | transaction-service/src/main/java/com/finance/transaction/service/TransactionService.java:445-446 | comma-free tags whose last tag is non-empty, joined by commas, split back to the same list |
| TransactionService.TrailingEmptyTagsDropped | transaction-service/src/main/java/com/finance/transaction/service/TransactionService.java:423-424 | trailing empty tags are lost in the split |
| TransactionService.CommasOnlyGiveNoTags | transaction-service/src/main/java/com/finance/transaction/service/TransactionService.java:423-424 | a tags string of commas alone yields an empty list |
| TransactionService.PublishCreation | transaction-service/src/main/java/com/finance/transaction/service/TransactionService.java:294-305 | two messages keyed by the user id, the first carrying the entity; a null user id throws |
| TransactionService.PublishUpdate | transaction-service/src/main/java/com/finance/transaction/service/TransactionService.java:307-315 | one analytics message keyed by the user id; a null user id throws |
| TransactionService.PublishDeletion | transaction-service/src/main/java/com/finance/transaction/service/TransactionService.java:317-325 | only analytics messages keyed by the user id |
| TransactionService.Create | transaction-service/src/main/java/com/finance/transaction/service/TransactionService.java:53-75 | an invalid transaction changes nothing and throws the validation message; a valid merge without a creation time throws NullPointerException in the mapping and changes nothing; any other valid one is saved (a merged row keeping its old creation time), returned admitted, indexed under its id and published |
| TransactionService.Update | transaction-service/src/main/java/com/finance/transaction/service/TransactionService.java:204-219 | without validation: a null date, or a merge without a creation time, throws NullPointerException in the mapping and changes nothing; a null user id throws after indexing, so the store and topics are unchanged but the document stays; otherwise it saves (a merged row keeping its old creation time), indexes and publishes |
| TransactionService.MergeKeepsStoredCreation | transaction-service/src/main/java/com/finance/transaction/service/TransactionService.java:204-219 | after a successful update or create of a stored id, the returned entity has the request's creation time while the row keeps its stored one; all other row fields are the returned entity's |
| TransactionService.Delete | transaction-service/src/main/java/com/finance/transaction/service/TransactionService.java:224-234 | the row and the document are gone, every other row is unchanged, and a deletion event is appended |
| TransactionService.StreamInputAppend | transaction-service/src/main/java/com/finance/transaction/service/TransactionService.java:294-305 | the entities on the events topic accumulate in send order |
| TransactionService.PublishCreationFeeds | transaction-service/src/main/java/com/finance/transaction/service/TransactionService.java:294-305 | the two messages of a creation put exactly the saved transaction, and nothing else, on the events topic |
| TransactionService.CreateFeedsStream | transaction-service/src/main/java/com/finance/transaction/service/TransactionService.java:53-75 | a creation adds exactly the saved transaction to the stream processor's input, and nothing when it throws; that input keeps holding only admitted transactions |
| TransactionService.UpdateLeavesStream | transaction-service/src/main/java/com/finance/transaction/service/TransactionService.java:204-219 | an update, whether it succeeds or throws, adds nothing to the stream processor's input |
| TransactionService.DeleteLeavesStream | transaction-service/src/main/java/com/finance/transaction/service/TransactionService.java:224-234 | a deletion adds nothing to the stream processor's input |
| CategoryRanking.Insert | transaction-service/src/main/java/com/finance/transaction/service/TransactionService.java:456 | inserting into a descending run keeps it descending and a permutation of the old run plus the new entry |
| CategoryRanking.SortByTotalDesc | transaction-service/src/main/java/com/finance/transaction/service/TransactionService.java:456 | the result is ordered by descending total and is a permutation of the entries |
| CategoryRanking.TopCategories | transaction-service/src/main/java/com/finance/transaction/service/TransactionService.java:454-465 | a negative limit throws; otherwise min(limit, n) entries, largest first, drawn from the input |
| CategoryRanking.TopCategoriesKeepsLargest | transaction-service/src/main/java/com/finance/transaction/service/TransactionService.java:454-457 | no entry left out has a larger total than any entry kept |
| CategoryRanking.LargeLimitKeepsAll | transaction-service/src/main/java/com/finance/transaction/service/TransactionService.java:454-457 | with a limit at least the number of entries, all entries are returned |
| UserService.IndexWhere | user-service/src/main/java/com/finance/user/service/UserService.java:80-81 | a repository lookup finds the first user that matches, and finds none iff no user matches |
| UserService.IndexOfIdFinds | user-service/src/main/java/com/finance/user/service/UserService.java:139-140 | with unique ids, the lookup by a stored user's id finds that user |
| UserService.IndexOfEmailFinds | user-service/src/main/java/com/finance/user/service/UserService.java:80-81 | with unique emails, the lookup by a stored user's email finds that user |
| UserService.CreateUser | user-service/src/main/java/com/finance/user/service/UserService.java:45-75 | a taken email is reported before a taken username and changes nothing; otherwise exactly one active user is appended with the encoded password, and USER_CREATED is sent |
| UserService.CreateUserKeepsWellFormed | user-service/src/main/java/com/finance/user/service/UserService.java:49-57 | registration keeps ids, emails and usernames unique |
| UserService.Login | user-service/src/main/java/com/finance/user/service/UserService.java:77-100 | an unknown email or a wrong password fails with "Invalid email or password"; the right password on an inactive account fails with "Account is deactivated"; the right password on an active account succeeds with a Bearer token for that user |
| UserService.WrongPasswordLooksLikeUnknownEmail | user-service/src/main/java/com/finance/user/service/UserService.java:80-85 | a wrong password for a known email fails exactly as an unknown email does |
| UserService.RegisteredUserCanLogIn | user-service/src/main/java/com/finance/user/service/UserService.java:45-100 | a newly registered user can log in with their password and gets their own id |
| UserService.Patched | user-service/src/main/java/com/finance/user/service/UserService.java:142-150 | only the non-null request fields replace the profile fields; identity, credentials and the active flag are untouched |
| UserService.PatchedIdempotent | user-service/src/main/java/com/finance/user/service/UserService.java:142-150 | applying an update twice is the same as once, and an all-null update changes nothing |
| UserService.UpdateUser | user-service/src/main/java/com/finance/user/service/UserService.java:134-158 | an unknown id throws "User not found" and changes nothing; otherwise the user is patched in place and USER_UPDATED is sent |
| UserService.SetActive | user-service/src/main/java/com/finance/user/service/UserService.java:160-173 | an unknown id throws; otherwise only the target's active flag changes and one event is appended |
| UserService.DeleteUser | user-service/src/main/java/com/finance/user/service/UserService.java:160-173 | an unknown id throws "User not found" and changes nothing; otherwise the user stays in place, inactive, others are untouched, and USER_DELETED is sent |
| UserService.DeactivateUser | user-service/src/main/java/com/finance/user/service/UserService.java:280-290 | an unknown id throws "User not found" and changes nothing; otherwise the user stays in place, inactive, others are untouched, and USER_DEACTIVATED is sent |
| UserService.ActivateUser | user-service/src/main/java/com/finance/user/service/UserService.java:268-278 | an unknown id throws "User not found" and changes nothing; otherwise the user stays in place, active, others are untouched, and USER_ACTIVATED is sent |
| UserService.DeleteIsSoft | user-service/src/main/java/com/finance/user/service/UserService.java:160-173 | after deletion the user is still stored under its id, inactive, and can no longer log in |
| UserService.ActivationIdempotent | user-service/src/main/java/com/finance/user/service/UserService.java:268-290 | deactivating or activating twice leaves the table as once; reactivating a previously active user restores the table |
| UserService.ChangePassword | user-service/src/main/java/com/finance/user/service/UserService.java:175-191 | an unknown id or a wrong current password throws and changes nothing; on success only the hash changes and PASSWORD_CHANGED is sent |
| UserService.NewPasswordLogsIn | user-service/src/main/java/com/finance/user/service/UserService.java:175-191 | after a password change an active user logs in with the new password |
| UserService.Matches | user-service/src/main/java/com/finance/user/service/UserService.java:250-253 | a user matches iff the lower-cased query occurs at some position of the lower-cased username, full name or email |
| UserService.Throws | user-service/src/main/java/com/finance/user/service/UserService.java:250-253 | the filter throws for a user iff the full name is null and the lower-cased query does not occur in the lower-cased username |
| UserService.SearchUsers | user-service/src/main/java/com/finance/user/service/UserService.java:246-256 | the search throws iff some user it reaches has a null full name and no username match |
| UserService.SearchFindsExactlyMatches | user-service/src/main/java/com/finance/user/service/UserService.java:249-255 | the result holds the response of every matching user and of no other |
| UserService.SearchKeepsOrder | user-service/src/main/java/com/finance/user/service/UserService.java:246-256 | the result follows the repository's order: searching two runs of users concatenates their results |
| UserService.SearchIgnoresQueryCase | user-service/src/main/java/com/finance/user/service/UserService.java:251-253 | the query is lower-cased first, so its letter case does not matter |
| Text.ToLower | transaction-service/src/main/java/com/finance/transaction/stream/TransactionStreamsProcessor.java:196 | lower-casing keeps the length, maps each character and leaves no upper-case letter |
| Text.ToLowerIdempotent | user-service/src/main/java/com/finance/user/service/UserService.java:247-253 | lower-casing twice is lower-casing once |
| Text.ContainsIff | transaction-service/src/main/java/com/finance/transaction/stream/TransactionStreamsProcessor.java:197-200 | `contains` holds iff the word occurs at some position |
| Text.JoinPieces | transaction-service/src/main/java/com/finance/transaction/stream/TransactionStreamsProcessor.java:173 | the pieces of a split, joined with the delimiter, rebuild the string |
| Text.PiecesJoin | transaction-service/src/main/java/com/finance/transaction/stream/TransactionStreamsProcessor.java:145-146 | delimiter-free parts, joined and split again, come back unchanged |
| Text.SplitOn | transaction-service/src/main/java/com/finance/transaction/service/TransactionService.java:424 | without the delimiter the split is the whole string; with it, the split is the raw pieces with trailing empty pieces removed and no piece holds the delimiter |
| Text.SplitOnJoin | transaction-service/src/main/java/com/finance/transaction/service/TransactionService.java:424 | delimiter-free parts with a non-empty last part round-trip through join and split |
| Text.SplitOnDropsTrailingEmpty | transaction-service/src/main/java/com/finance/transaction/service/TransactionService.java:424 | empty trailing parts vanish in the split |

## Left out

- Kafka runtime details are not modelled: record caching, emission frequency, the zero grace period and late-record dropping. Windows are aligned to epoch zero as in Kafka. A record is modelled as emitting each downstream output once, immediately after its own update.
- Record timestamps are a field of each record. `LocalDateTime.now()` and `UUID.randomUUID()` are parameters.
- The JSON serdes and the ObjectMapper are not modelled. Null record keys are not modelled; the stream key is taken as given.
- The `period` and `date` fields of the summaries and alerts hold the window start as epoch milliseconds, not as an `Instant`.
- The income and spending aggregates are modelled as records, not the source's `Map<String, Object>`. Key order and the JSON form of the maps are not modelled.
- StreamProcessor.Process: the processor uses the corrected budget-key split (`StreamRules.SplitBudgetKey`), not the source's `split(":")`; see Findings.
- StreamProcessor.Outputs: its budget alert uses the corrected split, so it always names the record's own user and category. `StreamProcessor.Expected`, `StreamProcessor.StoresGiveExpected` and `StreamProcessor.Step` inherit this choice. The source throws for the empty category and names "food" for "food:lunch"; `StreamProcessor.AsWrittenAlertAgrees` states exactly when the two agree.
- StreamProcessor.BudgetAlertIff: states the alert of the corrected split. It holds of the source only for categories that are non-empty and free of ':' (`StreamProcessor.BudgetAlertAsWrittenAgrees`); for the empty category the source throws and for "food:lunch" it names "food" (`StreamProcessor.AsWrittenAlertAgrees`).
- StreamProcessor.RepeatedExpenseAlerts: holds of the source only when the category is non-empty and free of ':', for the reason above; with the empty category the source throws where this lemma promises an alert.
- StreamProcessor.FifthQuarterMillionAlerts: holds of the source only when the category is non-empty and free of ':', for the reason above; with the empty category the fifth expense makes the source throw instead of alerting.
- The search document's `dayOfWeek` field is not modelled, because it needs a calendar. Month, year and time of day are modelled.
- JPA details are not modelled: `@Version` optimistic locking, `isNew` detection, bean validation at persist and flush, NOT NULL constraints at commit, and Hibernate's exact timestamp timing. `Save` stamps creation and update times at save time.
- TransactionService.Save: a request that names an id with no stored row is modelled as an insert. Spring Data decides between insert and merge from the `@Version` field, and Hibernate then either inserts or rejects such a request; that choice is not modelled.
- The user's `createdAt` and `updatedAt` timestamps are not modelled, so `UserResponse` omits the two fields that `mapToUserResponse` copies.
- The Spring cache annotations and `evictUserCaches` are not modelled. They have no observable effect on the modelled results.
- JWT creation is a function parameter (`token`). BCrypt is an abstract encoder whose soundness (`matches(p, encode(p))`) is a ghost predicate.
- Lower-casing is ASCII only. Java's `toLowerCase()` also maps non-ASCII letters under the default locale.
- CategoryRanking.TopCategories: category totals are whole numbers, not `double`, so NaN and rounding are not modelled.
- CategoryRanking.SortByTotalDesc: the order among equal totals follows the input sequence. In the source, ties follow HashMap iteration order, which is unspecified.
- The `User` entity and `UserRepository` are not part of this model. The user table is a sequence in the repository's `findAll` order, and uniqueness of ids, emails and usernames is an invariant (`WellFormed`), not a database constraint.
- UserService.SearchUsers: it does not model the null email or username fields that the database forbids; only a null full name is modelled.
- `deleteById` on a missing id is not an error in Spring Data 3, and `TransactionService.Delete` models it so. The read-only queries (cash flow, spending patterns, user statistics and paging) are not part of this model.

## Findings

| source | as written | input that shows it | evidently intended | confidence | as-written member | corrected member |
|---|---|---|---|---|---|---|
| transaction-service/src/main/java/com/finance/transaction/stream/TransactionStreamsProcessor.java:172-177 | the budget key `userId + ":" + categoryId` is split back with `split(":")`, taking pieces 0 and 1 | category "" (the key "u:" splits into one piece, and reading piece 1 throws ArrayIndexOutOfBoundsException); category "food:lunch" (the alert reports category "food") | split at the first ':' only, so that every category is recovered | not executed | StreamRules.SplitAsWrittenTruncatesCategory | StreamRules.SplitBudgetKeyRoundTrip |
