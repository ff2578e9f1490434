/** The write path of the transaction service: validation, the save to the relational store, the search
    document, and the messages sent to the two topics. The store, the search index and the topics form
    one immutable system state; each operation returns the next state together with its result.
    A Java exception is a `Failure`, and the state it leaves is the state the source leaves: the
    relational store is rolled back by the surrounding transaction, while search-index writes and sent
    messages are not transactional and stay.
 */
module TransactionService {
  import opened Wrappers
  import opened Text
  import opened Transactions

  // ---------------------------------------------------------------- validation

  const AmountError := "Amount must be positive"
  const UserError := "User ID is required"
  const AccountError := "Account ID is required"
  const DateError := "Transaction date is required"

  /** The four checks of `validateTransaction`, in the order it makes them. */
  datatype Check = AmountCheck | UserCheck | AccountCheck | DateCheck

  function Position(c: Check): nat
  {
    match c
    case AmountCheck => 0
    case UserCheck => 1
    case AccountCheck => 2
    case DateCheck => 3
  }

  function CheckMessage(c: Check): string
  {
    match c
    case AmountCheck => AmountError
    case UserCheck => UserError
    case AccountCheck => AccountError
    case DateCheck => DateError
  }

  /** Whether a check fails for a transaction. */
  predicate Fails(c: Check, t: Transaction)
  {
    match c
    case AmountCheck => t.amount.None? || t.amount.value <= 0
    case UserCheck => t.userId.None?
    case AccountCheck => t.accountId.None?
    case DateCheck => t.transactionDate.None?
  }

  /** The checks that fail, in check order. */
  function FailedChecks(t: Transaction): (fs: seq<Check>)
    ensures AmountCheck in fs <==> Fails(AmountCheck, t)
    ensures UserCheck in fs <==> Fails(UserCheck, t)
    ensures AccountCheck in fs <==> Fails(AccountCheck, t)
    ensures DateCheck in fs <==> Fails(DateCheck, t)
    ensures forall i :: 0 <= i < |fs| - 1 ==> Position(fs[i]) < Position(fs[i + 1])
    ensures fs == [] <==> Valid(t)
  {
    (if Fails(AmountCheck, t) then [AmountCheck] else [])
    + (if Fails(UserCheck, t) then [UserCheck] else [])
    + (if Fails(AccountCheck, t) then [AccountCheck] else [])
    + (if Fails(DateCheck, t) then [DateCheck] else [])
  }

  /** No two checks share a message. */
  lemma MessagesDistinct(c: Check, d: Check)
    ensures CheckMessage(c) == CheckMessage(d) <==> c == d
  {
    if c != d {
      assert |CheckMessage(c)| != |CheckMessage(d)|;
    }
  }

  /** `validateTransaction` collects one message per failed check; it does not stop at the first. */
  function ValidationErrors(t: Transaction): seq<string>
  {
    var fs := FailedChecks(t);
    seq(|fs|, i requires 0 <= i < |fs| => CheckMessage(fs[i]))
  }

  /** A message is in the list exactly when its check fails, and the list is empty exactly when the
      transaction is valid. */
  lemma ValidationErrorsIff(t: Transaction, c: Check)
    ensures CheckMessage(c) in ValidationErrors(t) <==> Fails(c, t)
    ensures ValidationErrors(t) == [] <==> Valid(t)
  {
    var fs := FailedChecks(t);
    var errs := ValidationErrors(t);
    if CheckMessage(c) in errs {
      var i :| 0 <= i < |errs| && errs[i] == CheckMessage(c);
      MessagesDistinct(c, fs[i]);
    }
    if Fails(c, t) {
      var i :| 0 <= i < |fs| && fs[i] == c;
      assert errs[i] == CheckMessage(c);
    }
  }

  /** The exception `validateTransaction` throws, or success. */
  function Validate(t: Transaction): (r: Result<(), string>)
    ensures r.Success? <==> Valid(t)
    ensures r.Failure? ==> IsPrefix("Validation failed: ", r.error)
  {
    var errs := ValidationErrors(t);
    if errs == [] then Success(())
    else
      var message := "Validation failed: " + Join(errs, ", ");
      assert message[..|"Validation failed: "|] == "Validation failed: ";
      Failure(message)
  }

  /** The rejection message names every failed check. */
  lemma RejectionNamesEveryError(t: Transaction, e: string)
    requires e in ValidationErrors(t)
    ensures Validate(t).Failure? && Contains(Validate(t).error, e)
  {
    var errs := ValidationErrors(t);
    var k :| 0 <= k < |errs| && errs[k] == e;
    JoinContainsPart(errs, ", ", k);
    ContainsAfterPrefix("Validation failed: ", Join(errs, ", "), e);
  }

  /** A transaction with neither an amount nor a date gets both messages, in check order. */
  lemma TwoErrorsInOrder(t: Transaction)
    requires t.amount.None? && t.userId.Some? && t.accountId.Some? && t.transactionDate.None?
    ensures Validate(t) == Failure("Validation failed: " + AmountError + ", " + DateError)
  {
    assert FailedChecks(t) == [AmountCheck] + [DateCheck];
    var errs := ValidationErrors(t);
    assert errs[0] == AmountError && errs[1] == DateError;
    assert errs == [AmountError, DateError];
    assert errs[1..] == [DateError];
    assert Join(errs, ", ") == AmountError + ", " + DateError;
    assert Validate(t).error == "Validation failed: " + Join(errs, ", ");
    assert "Validation failed: " + (AmountError + ", " + DateError)
        == "Validation failed: " + AmountError + ", " + DateError;
  }

  // ---------------------------------------------------------------- the relational store

  /** Whether a save merges into an existing row rather than inserting: the transaction names a stored id. */
  predicate Merges(store: map<Uuid, Transaction>, t: Transaction)
  {
    t.id.Some? && t.id.value in store
  }

  /** `transactionRepository.save`: a transaction without a stored id is inserted, under a freshly
      generated id when it has none, and gets the creation time now. One with a stored id is merged:
      the returned entity carries every field of the request, its creation time included, even when
      that is null; the row keeps its old creation time (see `StoredRow`). The update time is stamped on
      every save. */
  function Save(store: map<Uuid, Transaction>, t: Transaction, freshId: Uuid, now: LocalDateTime): (saved: Transaction)
    ensures saved.id == if t.id.Some? then t.id else Some(freshId)
    ensures saved.updatedAt == Some(now)
    ensures Merges(store, t) ==> saved.createdAt == t.createdAt
    ensures !Merges(store, t) ==> saved.createdAt == Some(now)
    ensures saved == t.(id := saved.id, createdAt := saved.createdAt, updatedAt := saved.updatedAt)
  {
    var id := if t.id.Some? then t.id.value else freshId;
    var created := if Merges(store, t) then t.createdAt else Some(now);
    t.(id := Some(id), createdAt := created, updatedAt := Some(now))
  }

  /** The row a save leaves in the store: the returned entity, except that a merge keeps the stored
      creation time, because the column is left out of the UPDATE statement. */
  function StoredRow(store: map<Uuid, Transaction>, t: Transaction, saved: Transaction): (row: Transaction)
    ensures row == saved.(createdAt := row.createdAt)
    ensures Merges(store, t) ==> row.createdAt == store[t.id.value].createdAt
    ensures !Merges(store, t) ==> row == saved
  {
    if Merges(store, t) then saved.(createdAt := store[t.id.value].createdAt) else saved
  }

  /** A merge of a request without a creation time returns an entity without one. */
  predicate LosesCreationTime(store: map<Uuid, Transaction>, t: Transaction)
  {
    Merges(store, t) && t.createdAt.None?
  }

  /** A saved transaction is what the creation path publishes, an admitted transaction, exactly when the
      request was valid and the save did not return a null creation time. */
  lemma SavedValidIsAdmitted(store: map<Uuid, Transaction>, t: Transaction, freshId: Uuid, now: LocalDateTime)
    ensures Admitted(Save(store, t, freshId, now)) <==> Valid(t) && !LosesCreationTime(store, t)
  {
  }

  // ---------------------------------------------------------------- the search document

  datatype TimeOfDay = Morning | Afternoon | Evening | Night

  function TimeOfDayName(b: TimeOfDay): string
  {
    match b
    case Morning => "MORNING"
    case Afternoon => "AFTERNOON"
    case Evening => "EVENING"
    case Night => "NIGHT"
  }

  /** `getTimeOfDay`: the hour buckets [6, 12), [12, 18), [18, 22) and the rest of the day. */
  function TimeOfDayOf(hour: Hour): (b: TimeOfDay)
    ensures b == Morning <==> 6 <= hour < 12
    ensures b == Afternoon <==> 12 <= hour < 18
    ensures b == Evening <==> 18 <= hour < 22
    ensures b == Night <==> hour < 6 || 22 <= hour
  {
    if 6 <= hour < 12 then Morning
    else if 12 <= hour < 18 then Afternoon
    else if 18 <= hour < 22 then Evening
    else Night
  }

  /** Each bucket is a contiguous run of hours; 22 and 23 are night, not evening. */
  lemma TimeOfDayBoundaries()
    ensures TimeOfDayOf(5) == Night && TimeOfDayOf(6) == Morning
    ensures TimeOfDayOf(11) == Morning && TimeOfDayOf(12) == Afternoon
    ensures TimeOfDayOf(17) == Afternoon && TimeOfDayOf(18) == Evening
    ensures TimeOfDayOf(21) == Evening && TimeOfDayOf(22) == Night && TimeOfDayOf(0) == Night
  {
  }

  /** The search-index document of a transaction. The day-of-week field is not part of this model. */
  datatype Document = Document(
    id: string,
    userId: Option<Uuid>,
    accountId: Option<Uuid>,
    categoryId: Option<string>,
    amount: Option<Cents>,
    kind: Option<string>,
    description: Option<string>,
    transactionDate: LocalDate,
    createdAt: LocalDateTime,
    updatedAt: Option<LocalDateTime>,
    tags: Option<string>,
    location: Option<string>,
    receiptUrl: Option<string>,
    isRecurring: Option<bool>,
    recurringPattern: Option<string>,
    monthOfYear: Month,
    year: int,
    timeOfDay: TimeOfDay)

  /** `mapToDocument`. None stands for the NullPointerException raised by a null id, a null transaction
      date or a null creation time. */
  function MapToDocument(t: Transaction): (d: Option<Document>)
    ensures d.None? <==> t.id.None? || t.transactionDate.None? || t.createdAt.None?
    ensures d.Some? ==>
              && d.value.id == t.id.value
              && d.value.userId == t.userId && d.value.accountId == t.accountId
              && d.value.categoryId == t.categoryId && d.value.amount == t.amount
              && d.value.kind == t.kind && d.value.description == t.description
              && Some(d.value.transactionDate) == t.transactionDate
              && Some(d.value.createdAt) == t.createdAt && d.value.updatedAt == t.updatedAt
              && d.value.tags == t.tags && d.value.location == t.location
              && d.value.receiptUrl == t.receiptUrl && d.value.isRecurring == t.isRecurring
              && d.value.recurringPattern == t.recurringPattern
              && d.value.monthOfYear == t.transactionDate.value.month
              && d.value.year == t.transactionDate.value.year
              && d.value.timeOfDay == TimeOfDayOf(t.createdAt.value.hour)
  {
    if t.id.None? || t.transactionDate.None? || t.createdAt.None? then None
    else
      var date := t.transactionDate.value;
      Some(Document(t.id.value, t.userId, t.accountId, t.categoryId, t.amount, t.kind, t.description,
                    date, t.createdAt.value, t.updatedAt, t.tags, t.location, t.receiptUrl,
                    t.isRecurring, t.recurringPattern, date.month, date.year,
                    TimeOfDayOf(t.createdAt.value.hour)))
  }

  // ---------------------------------------------------------------- tags

  /** The tag list of the response DTOs: a null or empty tags string gives no tags; any other string
      is split at commas, with trailing empty pieces dropped. */
  function TagList(tags: Option<string>): (r: seq<string>)
    ensures tags.None? || tags.value == "" ==> r == []
    ensures tags.Some? && tags.value != "" && ',' !in tags.value ==> r == [tags.value]
    ensures forall i :: 0 <= i < |r| ==> ',' !in r[i]
  {
    if tags.None? || tags.value == "" then [] else SplitOn(tags.value, ',')
  }

  /** Tags joined with commas come back as the same list, provided none contains a comma and the last
      one is not empty. */
  lemma TagListRoundTrip(parts: seq<string>)
    requires |parts| >= 1 && parts[|parts| - 1] != ""
    requires forall i :: 0 <= i < |parts| ==> ',' !in parts[i]
    ensures TagList(Some(Join(parts, [',']))) == parts
  {
    var s := Join(parts, [',']);
    SplitOnJoin(parts, ',');
  }

  /** Trailing commas are lost: tags followed by `n` empty tags come back without them. */
  lemma TrailingEmptyTagsDropped(parts: seq<string>, n: nat)
    requires |parts| >= 1 && parts[|parts| - 1] != ""
    requires forall i :: 0 <= i < |parts| ==> ',' !in parts[i]
    ensures TagList(Some(Join(parts + seq(n, _ => ""), [',']))) == parts
  {
    SplitOnDropsTrailingEmpty(parts, ',', n);
    SplitOnJoin(parts, ',');
    if n == 0 {
      assert parts + seq(n, _ => "") == parts;
    }
  }

  /** Commas alone give no tags at all. */
  lemma CommasOnlyGiveNoTags()
    ensures TagList(Some(",")) == []
  {
    assert Pieces(",", ',') == ["", ""];
    assert ","[0] == ',';
  }

  // ---------------------------------------------------------------- messages and system state

  const EventsTopic := "transaction-events"
  const AnalyticsTopic := "transaction-analytics"

  /** The analytics events; the timestamp they carry is not modelled. */
  datatype TransactionEvent =
    | Created(transactionId: Option<Uuid>, userId: Uuid, amount: Option<Cents>, kind: Option<string>)
    | Updated(transactionId: Option<Uuid>, userId: Uuid)
    | Deleted(transactionId: Option<Uuid>, userId: Uuid)

  function EventType(e: TransactionEvent): string
  {
    match e
    case Created(_, _, _, _) => "TRANSACTION_CREATED"
    case Updated(_, _) => "TRANSACTION_UPDATED"
    case Deleted(_, _) => "TRANSACTION_DELETED"
  }

  datatype Payload = Entity(txn: Transaction) | Event(event: TransactionEvent)

  /** One send: topic, record key, value. */
  datatype Message = Message(topic: string, key: string, payload: Payload)

  /** The relational store (by id), the search index (by id text) and everything sent so far. */
  datatype Sys = Sys(store: map<Uuid, Transaction>, index: map<string, Document>, topics: seq<Message>)

  /** The state after an operation, and what the operation returned or threw. */
  datatype Outcome = Outcome(sys: Sys, result: Result<Transaction, string>)

  const NullPointer := "NullPointerException"

  /** `publishTransactionEvent`: the entity to the events topic, then a creation event to the analytics
      topic, both keyed by the user id. None: the user id is null. */
  function PublishCreation(t: Transaction): (msgs: Option<seq<Message>>)
    ensures msgs.None? <==> t.userId.None?
    ensures msgs.Some? ==> |msgs.value| == 2 && msgs.value[0].payload == Entity(t)
    ensures msgs.Some? ==> forall m :: m in msgs.value ==> m.key == t.userId.value
  {
    if t.userId.None? then None
    else
      var key := t.userId.value;
      Some([Message(EventsTopic, key, Entity(t)),
            Message(AnalyticsTopic, key, Event(Created(t.id, key, t.amount, t.kind)))])
  }

  /** `publishTransactionUpdateEvent`: one update event to the analytics topic. */
  function PublishUpdate(t: Transaction): (msgs: Option<seq<Message>>)
    ensures msgs.None? <==> t.userId.None?
    ensures msgs.Some? ==> forall m :: m in msgs.value ==> m.topic == AnalyticsTopic && m.key == t.userId.value
  {
    if t.userId.None? then None
    else Some([Message(AnalyticsTopic, t.userId.value, Event(Updated(t.id, t.userId.value)))])
  }

  /** `publishTransactionDeletionEvent`: one deletion event to the analytics topic. */
  function PublishDeletion(transactionId: Uuid, userId: Uuid): (msgs: seq<Message>)
    ensures forall m :: m in msgs ==> m.topic == AnalyticsTopic && m.key == userId
  {
    [Message(AnalyticsTopic, userId, Event(Deleted(Some(transactionId), userId)))]
  }

  // ---------------------------------------------------------------- the three operations

  /** `createTransaction`: validate, save, index, publish, in that order. A valid request naming a stored
      id without a creation time throws in the mapping, and the save is rolled back. */
  function Create(sys: Sys, t: Transaction, freshId: Uuid, now: LocalDateTime): (o: Outcome)
    ensures !Valid(t) ==> o == Outcome(sys, Failure("Validation failed: " + Join(ValidationErrors(t), ", ")))
    ensures Valid(t) && LosesCreationTime(sys.store, t) ==> o == Outcome(sys, Failure(NullPointer))
    ensures Valid(t) && !LosesCreationTime(sys.store, t) ==> o.result.Success? && Admitted(o.result.value)
    ensures o.result.Success? ==>
              var saved := o.result.value;
              && saved == Save(sys.store, t, freshId, now)
              && o.sys.store == sys.store[saved.id.value := StoredRow(sys.store, t, saved)]
              && o.sys.index == sys.index[saved.id.value := MapToDocument(saved).value]
              && o.sys.topics == sys.topics + PublishCreation(saved).value
  {
    match Validate(t)
    case Failure(message) => Outcome(sys, Failure(message))
    case Success(_) =>
      var saved := Save(sys.store, t, freshId, now);
      match MapToDocument(saved)
      case None => Outcome(sys, Failure(NullPointer))
      case Some(doc) =>
        var msgs := PublishCreation(saved).value;
        Outcome(Sys(sys.store[saved.id.value := StoredRow(sys.store, t, saved)], sys.index[doc.id := doc], sys.topics + msgs),
              Success(saved))
  }

  /** `updateTransaction`: save, index, publish, with no validation. A null transaction date, or a merge
      that returns a null creation time, throws in the mapping (nothing changes); a null user id throws
      while publishing (the store is rolled back, the new document stays in the index). */
  function Update(sys: Sys, t: Transaction, freshId: Uuid, now: LocalDateTime): (o: Outcome)
    ensures t.transactionDate.None? ==> o == Outcome(sys, Failure(NullPointer))
    ensures LosesCreationTime(sys.store, t) ==> o == Outcome(sys, Failure(NullPointer))
    ensures t.transactionDate.Some? && !LosesCreationTime(sys.store, t) && t.userId.None? ==>
              var saved := Save(sys.store, t, freshId, now);
              && o.result == Failure(NullPointer) && o.sys.store == sys.store && o.sys.topics == sys.topics
              && o.sys.index == sys.index[saved.id.value := MapToDocument(saved).value]
    ensures t.transactionDate.Some? && !LosesCreationTime(sys.store, t) && t.userId.Some? ==>
              o.result == Success(Save(sys.store, t, freshId, now))
    ensures o.result.Success? ==>
              o.sys.store == sys.store[o.result.value.id.value := StoredRow(sys.store, t, o.result.value)]
              && o.sys.index == sys.index[o.result.value.id.value := MapToDocument(o.result.value).value]
              && o.sys.topics == sys.topics + PublishUpdate(o.result.value).value
  {
    var saved := Save(sys.store, t, freshId, now);
    match MapToDocument(saved)
    case None => Outcome(sys, Failure(NullPointer))
    case Some(doc) =>
      var index := sys.index[doc.id := doc];
      match PublishUpdate(saved)
      case None => Outcome(sys.(index := index), Failure(NullPointer))
      case Some(msgs) =>
        Outcome(Sys(sys.store[saved.id.value := StoredRow(sys.store, t, saved)], index, sys.topics + msgs), Success(saved))
  }

  /** A successful create or update of a stored id returns the request's creation time but leaves the
      row's creation time as it was; every other field of the row is the returned one. */
  lemma MergeKeepsStoredCreation(sys: Sys, t: Transaction, freshId: Uuid, now: LocalDateTime)
    requires Merges(sys.store, t)
    ensures var o := Update(sys, t, freshId, now);
            o.result.Success? ==>
              && o.result.value.createdAt == t.createdAt
              && o.sys.store[t.id.value].createdAt == sys.store[t.id.value].createdAt
              && o.sys.store[t.id.value] == o.result.value.(createdAt := sys.store[t.id.value].createdAt)
    ensures var o := Create(sys, t, freshId, now);
            o.result.Success? ==>
              && o.result.value.createdAt == t.createdAt
              && o.sys.store[t.id.value].createdAt == sys.store[t.id.value].createdAt
              && o.sys.store[t.id.value] == o.result.value.(createdAt := sys.store[t.id.value].createdAt)
  {
  }

  /** `deleteTransaction`: remove the row and the document (a missing one is no error), then publish. */
  function Delete(sys: Sys, transactionId: Uuid, userId: Uuid): (next: Sys)
    ensures transactionId !in next.store && transactionId !in next.index
    ensures forall id :: id in sys.store && id != transactionId ==> id in next.store && next.store[id] == sys.store[id]
    ensures forall id :: id in next.store ==> id in sys.store
    ensures next.topics == sys.topics + PublishDeletion(transactionId, userId)
  {
    Sys(sys.store - {transactionId}, sys.index - {transactionId}, sys.topics + PublishDeletion(transactionId, userId))
  }

  // ---------------------------------------------------------------- what reaches the stream processor

  /** The transactions sent to the events topic, the stream processor's input, in send order. */
  function StreamInput(topics: seq<Message>): (s: seq<Transaction>)
    ensures |s| <= |topics|
  {
    if topics == [] then []
    else
      var m := topics[|topics| - 1];
      StreamInput(topics[..|topics| - 1])
      + (if m.topic == EventsTopic && m.payload.Entity? then [m.payload.txn] else [])
  }

  lemma {:induction false} StreamInputAppend(a: seq<Message>, b: seq<Message>)
    ensures StreamInput(a + b) == StreamInput(a) + StreamInput(b)
    decreases |b|
  {
    if b == [] {
      assert a + b == a;
    } else {
      assert (a + b)[..|a + b| - 1] == a + b[..|b| - 1];
      StreamInputAppend(a, b[..|b| - 1]);
    }
  }

  /** Every message on the events topic carries the entity, validated and saved. */
  predicate EventsAdmitted(topics: seq<Message>)
  {
    forall i :: 0 <= i < |topics| && topics[i].topic == EventsTopic ==>
      topics[i].payload.Entity? && Admitted(topics[i].payload.txn)
  }

  /** The messages of one creation carry exactly that transaction to the stream processor. */
  lemma PublishCreationFeeds(saved: Transaction)
    requires Admitted(saved)
    ensures EventsAdmitted(PublishCreation(saved).value)
    ensures StreamInput(PublishCreation(saved).value) == [saved]
  {
    var msgs := PublishCreation(saved).value;
    assert msgs[..1] == [msgs[0]];
    assert msgs[..0] == [];
  }

  /** The events topic keeps carrying only admitted transactions when admitted messages are appended. */
  lemma EventsAdmittedAppend(a: seq<Message>, b: seq<Message>)
    requires EventsAdmitted(a) && EventsAdmitted(b)
    ensures EventsAdmitted(a + b)
  {
    assert forall i :: |a| <= i < |a + b| ==> (a + b)[i] == b[i - |a|];
  }

  /** A successful creation adds exactly the saved transaction to the stream input; one that throws adds
      nothing. Either way the events topic keeps carrying only admitted transactions. */
  lemma CreateFeedsStream(sys: Sys, t: Transaction, freshId: Uuid, now: LocalDateTime)
    requires EventsAdmitted(sys.topics)
    ensures var o := Create(sys, t, freshId, now);
            && EventsAdmitted(o.sys.topics)
            && StreamInput(o.sys.topics)
               == StreamInput(sys.topics)
                  + (if Valid(t) && !LosesCreationTime(sys.store, t) then [Save(sys.store, t, freshId, now)] else [])
  {
    if Valid(t) && !LosesCreationTime(sys.store, t) {
      var saved := Save(sys.store, t, freshId, now);
      var msgs := PublishCreation(saved).value;
      assert Create(sys, t, freshId, now).sys.topics == sys.topics + msgs;
      PublishCreationFeeds(saved);
      StreamInputAppend(sys.topics, msgs);
      EventsAdmittedAppend(sys.topics, msgs);
    }
  }

  /** Updates never reach the stream processor: its input and its invariant are unchanged, whether the
      update succeeds or throws. */
  lemma UpdateLeavesStream(sys: Sys, t: Transaction, freshId: Uuid, now: LocalDateTime)
    requires EventsAdmitted(sys.topics)
    ensures var o := Update(sys, t, freshId, now);
            EventsAdmitted(o.sys.topics) && StreamInput(o.sys.topics) == StreamInput(sys.topics)
  {
    var o := Update(sys, t, freshId, now);
    if o.result.Success? {
      var msgs := PublishUpdate(o.result.value).value;
      StreamInputAppend(sys.topics, msgs);
      assert msgs[..0] == [];
    }
  }

  /** Deletions never reach the stream processor either. */
  lemma DeleteLeavesStream(sys: Sys, transactionId: Uuid, userId: Uuid)
    requires EventsAdmitted(sys.topics)
    ensures var next := Delete(sys, transactionId, userId);
            EventsAdmitted(next.topics) && StreamInput(next.topics) == StreamInput(sys.topics)
  {
    var msgs := PublishDeletion(transactionId, userId);
    StreamInputAppend(sys.topics, msgs);
    assert msgs[..0] == [];
  }
}
