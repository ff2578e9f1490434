/** The transaction entity of the transaction service and the value types it is built from.
    Amounts are integer cents: the `amount` column has scale 2, so every stored amount is a whole
    number of cents (transaction-service/src/main/java/com/finance/transaction/entity/Transaction.java).
 */
module Transactions {
  import opened Wrappers

  predicate IsUuidChar(c: char)
  {
    '0' <= c <= '9' || 'a' <= c <= 'f' || c == '-'
  }

  /** A `java.util.UUID`, identified with its canonical text form (`toString()`): 36 characters,
      lower-case hexadecimal digits and dashes. */
  type Uuid = s: string | |s| == 36 && forall i :: 0 <= i < |s| ==> IsUuidChar(s[i])
    witness "00000000-0000-0000-0000-000000000000"

  /** The text form of a UUID never contains a colon. */
  lemma UuidHasNoColon(u: Uuid)
    ensures ':' !in u
  {
  }

  /** An amount of money in cents. */
  type Cents = int

  type Month = m: int | 1 <= m <= 12 witness 1
  type DayOfMonth = d: int | 1 <= d <= 31 witness 1
  type Hour = h: int | 0 <= h < 24
  type Minute = m: int | 0 <= m < 60

  /** A `java.time.LocalDate`. */
  datatype LocalDate = LocalDate(year: int, month: Month, day: DayOfMonth)

  /** A `java.time.LocalDateTime`, to the second. */
  datatype LocalDateTime = LocalDateTime(date: LocalDate, hour: Hour, minute: Minute, second: Minute)

  /** The `transactions` row. Every reference-typed field of the entity may be null, so each is an
      Option; `kind` is the entity's `type` column ("EXPENSE", "INCOME", ... as free text). */
  datatype Transaction = Transaction(
    id: Option<Uuid>,
    userId: Option<Uuid>,
    accountId: Option<Uuid>,
    categoryId: Option<string>,
    amount: Option<Cents>,
    kind: Option<string>,
    description: Option<string>,
    transactionDate: Option<LocalDate>,
    createdAt: Option<LocalDateTime>,
    updatedAt: Option<LocalDateTime>,
    tags: Option<string>,
    location: Option<string>,
    receiptUrl: Option<string>,
    isRecurring: Option<bool>,
    recurringPattern: Option<string>)

  /** The four conditions the transaction service checks before a creation; `kind` is not among them. */
  predicate Valid(t: Transaction)
  {
    && t.amount.Some? && t.amount.value > 0
    && t.userId.Some?
    && t.accountId.Some?
    && t.transactionDate.Some?
  }

  /** A transaction as the creation path publishes it: validated, then saved (so it has an id and a
      creation time). */
  predicate Admitted(t: Transaction)
  {
    Valid(t) && t.id.Some? && t.createdAt.Some?
  }

  /** What the stream processor consumes from the transaction-events topic. */
  type CreatedTxn = t: Transaction | Admitted(t)
    witness Transaction(
      Some("00000000-0000-0000-0000-000000000000"), Some("00000000-0000-0000-0000-000000000000"),
      Some("00000000-0000-0000-0000-000000000000"), None, Some(1), None, None,
      Some(LocalDate(1970, 1, 1)), Some(LocalDateTime(LocalDate(1970, 1, 1), 0, 0, 0)), None,
      None, None, None, Some(false), None)
}
