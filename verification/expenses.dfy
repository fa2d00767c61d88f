/** The three ledger routes of Backend/routes/expenses.js, each a pure
    function over the store. `caller` is the `req.userId` that the token gate
    bound before the route runs. */
module Expenses {

  import opened Common
  import opened ExpenseModel

  // ---------------------------------------------------------------- create

  /** A POST body after the schema has cast it: the four fields the client
      sends, plus any `userId` a client may have slipped in. */
  datatype Body = Body(
    title: string,
    amount: int,
    category: string,
    date: Timestamp,
    userId: Option<UserId>)

  /** The store after an insert, and the inserted record (the 201 payload). */
  datatype Created = Created(store: Store, record: Expense)

  /** POST /expenses. The body is spread first and `userId` is set after it,
      so the caller's identity always wins over anything the body says; the
      store assigns the id. */
  function Create(s: Store, caller: UserId, body: Body): (c: Created)
    ensures c.record.userId == caller
    ensures c.record.title == body.title && c.record.amount == body.amount
    ensures c.record.category == body.category && c.record.date == body.date
    ensures c.store.records == s.records + [c.record]
    ensures Valid(s) ==> Valid(c.store)
    ensures Valid(s) ==> forall e :: e in s.records ==> e.id != c.record.id
  {
    var record := Expense(s.nextId, caller, body.title, body.amount, body.category, body.date);
    Created(Store(s.records + [record], s.nextId + 1), record)
  }

  /** Whatever `userId` the body carries has no effect on what is stored. */
  lemma CreateIgnoresBodyOwner(s: Store, caller: UserId, body: Body, claimed: Option<UserId>)
    ensures Create(s, caller, body.(userId := claimed)) == Create(s, caller, body)
  {
  }

  // ---------------------------------------------------------------- query

  /** The GET query string after date parsing: `None` stands for a parameter
      that is absent or empty. */
  datatype QueryParams = QueryParams(
    category: Option<string>,
    startDate: Option<Timestamp>,
    endDate: Option<Timestamp>)

  /** `category` is truthy: present and not the empty string. */
  predicate CategoryGiven(q: QueryParams) {
    q.category.Some? && q.category.value != ""
  }

  /** Both date bounds are present. */
  predicate RangeGiven(q: QueryParams) {
    q.startDate.Some? && q.endDate.Some?
  }

  /** The `$gte`/`$lte` condition on `date`. */
  datatype DateRange = DateRange(gte: Timestamp, lte: Timestamp)

  /** The filter document handed to the store's find. */
  datatype FindFilter = FindFilter(userId: UserId, category: Option<string>, date: Option<DateRange>)

  /** Builds the filter: always the owner, the category only when it is
      truthy, the date range only when both bounds are there. */
  function BuildFilter(caller: UserId, q: QueryParams): (f: FindFilter)
    ensures f.userId == caller
    ensures f.category.Some? <==> CategoryGiven(q)
    ensures f.category.Some? ==> f.category == q.category
    ensures f.date.Some? <==> RangeGiven(q)
    ensures f.date.Some? ==> f.date.value == DateRange(q.startDate.value, q.endDate.value)
  {
    var category := match q.category
      case Some(c) => if c != "" then Some(c) else None
      case None => None;
    var date := match (q.startDate, q.endDate)
      case (Some(lo), Some(hi)) => Some(DateRange(lo, hi))
      case _ => None;
    FindFilter(caller, category, date)
  }

  /** A record satisfies a filter document: every field the document names
      matches, by equality or by the inclusive range. */
  predicate Matches(f: FindFilter, e: Expense) {
    && e.userId == f.userId
    && (f.category.Some? ==> e.category == f.category.value)
    && (f.date.Some? ==> f.date.value.gte <= e.date <= f.date.value.lte)
  }

  /** The store's find: the matching records, in store order. */
  function Find(rs: seq<Expense>, f: FindFilter): seq<Expense> {
    Filter(rs, e => Matches(f, e))
  }

  /** GET /expenses. Every record returned belongs to the caller and passes
      the requested category and inclusive date range; every stored record
      that does so is returned; none is returned twice. */
  function Query(s: Store, caller: UserId, q: QueryParams): (r: seq<Expense>)
    ensures forall e :: e in r ==> e in s.records && e.userId == caller
    ensures CategoryGiven(q) ==> forall e :: e in r ==> e.category == q.category.value
    ensures RangeGiven(q) ==> forall e :: e in r ==> q.startDate.value <= e.date <= q.endDate.value
    ensures forall e ::
      && e in s.records
      && e.userId == caller
      && (CategoryGiven(q) ==> e.category == q.category.value)
      && (RangeGiven(q) ==> q.startDate.value <= e.date <= q.endDate.value)
      ==> e in r
    ensures Valid(s) ==> UniqueIds(r)
  {
    var f := BuildFilter(caller, q);
    FilterKeepsUniqueIds(s.records, e => Matches(f, e));
    Find(s.records, f)
  }

  /** With no truthy category and no complete range, the caller gets back
      each of their own records exactly as often as it is stored, and
      nothing else. */
  lemma QueryWithoutFilterIsOwnLedger(s: Store, caller: UserId, q: QueryParams)
    requires !CategoryGiven(q) && !RangeGiven(q)
    ensures forall e :: multiset(Query(s, caller, q))[e]
                     == (if e.userId == caller then multiset(s.records)[e] else 0)
  {
    var f := BuildFilter(caller, q);
    FilterMultiset(s.records, e => Matches(f, e));
  }

  /** A single date bound is ignored: the query answers as if neither bound
      had been sent. */
  lemma OneBoundIsIgnored(s: Store, caller: UserId, q: QueryParams)
    requires !RangeGiven(q)
    ensures Query(s, caller, q) == Query(s, caller, q.(startDate := None, endDate := None))
  {
  }

  /** An empty `category` is the same as none. */
  lemma EmptyCategoryIsIgnored(s: Store, caller: UserId, q: QueryParams)
    requires q.category == Some("")
    ensures Query(s, caller, q) == Query(s, caller, q.(category := None))
  {
  }

  /** Order is the store's insertion order: after an insert, a query returns
      what it returned before, followed by the new record when it qualifies. */
  lemma {:induction false} QueryAfterCreate(s: Store, caller: UserId, body: Body, who: UserId, q: QueryParams)
    ensures var c := Create(s, caller, body);
      Query(c.store, who, q) == Query(s, who, q) + Find([c.record], BuildFilter(who, q))
  {
    var c := Create(s, caller, body);
    var f := BuildFilter(who, q);
    FilterAppend(s.records, [c.record], e => Matches(f, e));
  }

  /** Ownership isolation: a record created by one user never shows up in a
      query by another user, whatever the filter, and another user's ledger
      is exactly what it was before. */
  lemma {:induction false} CreateIsInvisibleToOthers(s: Store, a: UserId, b: UserId, body: Body, q: QueryParams)
    requires a != b
    ensures var c := Create(s, a, body);
      && c.record !in Query(c.store, b, q)
      && Query(c.store, b, q) == Query(s, b, q)
  {
    var c := Create(s, a, body);
    QueryAfterCreate(s, a, body, b, q);
    assert Find([c.record], BuildFilter(b, q)) == [];
  }

  // ---------------------------------------------------------------- delete

  /** The delete condition: this id and this owner. */
  function Target(caller: UserId, id: RecordId): Expense -> bool {
    (e: Expense) => e.id == id && e.userId == caller
  }

  /** DELETE /expenses/:id. Removes the first record with that id AND owned
      by the caller, if there is one; otherwise changes nothing. */
  function Delete(s: Store, caller: UserId, id: RecordId): (s': Store)
    ensures s'.nextId == s.nextId
    ensures multiset(s'.records) <= multiset(s.records)
    ensures forall e :: e in s.records && !(e.id == id && e.userId == caller) ==> e in s'.records
    ensures |s'.records| >= |s.records| - 1
    ensures Valid(s) ==> Valid(s')
    ensures Valid(s) ==> forall e :: e in s'.records ==> !(e.id == id && e.userId == caller)
  {
    DeleteRemovesTarget(s.records, caller, id);
    s.(records := RemoveFirst(s.records, Target(caller, id)))
  }

  /** With unique ids, removing the first match removes every match and
      keeps ids unique. */
  lemma DeleteRemovesTarget(rs: seq<Expense>, caller: UserId, id: RecordId)
    ensures UniqueIds(rs) ==> UniqueIds(RemoveFirst(rs, Target(caller, id)))
    ensures UniqueIds(rs) ==> forall e :: e in RemoveFirst(rs, Target(caller, id)) ==> !(e.id == id && e.userId == caller)
  {
    match FirstMatch(rs, Target(caller, id))
    case None =>
    case Some(i) =>
      if UniqueIds(rs) {
        assert RemoveFirst(rs, Target(caller, id)) == rs[..i] + rs[i + 1..];
        SpliceKeepsUniqueIds(rs, i);
      }
  }

  /** Ownership isolation for deletes: whatever one user deletes, another
      user's view of the ledger, under every filter, stays exactly as it was. */
  lemma DeleteIsInvisibleToOthers(s: Store, a: UserId, b: UserId, id: RecordId, q: QueryParams)
    requires a != b
    ensures Query(Delete(s, a, id), b, q) == Query(s, b, q)
  {
    var rs := s.records;
    match FirstMatch(rs, Target(a, id))
    case None =>
    case Some(i) =>
      assert Delete(s, a, id).records == rs[..i] + rs[i + 1..];
      var f := BuildFilter(b, q);
      FilterSkipsRejected(rs, i, e => Matches(f, e));
  }

  /** Deleting twice is deleting once. */
  lemma DeleteIsIdempotent(s: Store, caller: UserId, id: RecordId)
    requires Valid(s)
    ensures Delete(Delete(s, caller, id), caller, id) == Delete(s, caller, id)
  {
  }

  /** When no record has this id and the caller as owner (the id is unknown,
      or the record belongs to someone else) a delete changes nothing at all. */
  lemma DeleteWithoutTargetIsNoop(s: Store, caller: UserId, id: RecordId)
    requires forall e :: e in s.records ==> !(e.id == id && e.userId == caller)
    ensures Delete(s, caller, id) == s
  {
  }

  /** In particular a record owned by someone else is untouchable. */
  lemma DeleteOfForeignRecordIsNoop(s: Store, caller: UserId, other: Expense)
    requires Valid(s)
    requires other in s.records && other.userId != caller
    ensures Delete(s, caller, other.id) == s
  {
  }

  /** When the caller owns the record, exactly that record goes and every
      other record stays. */
  lemma DeleteOfOwnRecordRemovesIt(s: Store, caller: UserId, mine: Expense)
    requires Valid(s)
    requires mine in s.records && mine.userId == caller
    ensures mine !in Delete(s, caller, mine.id).records
    ensures |Delete(s, caller, mine.id).records| == |s.records| - 1
    ensures forall e :: e in s.records && e != mine ==> e in Delete(s, caller, mine.id).records
  {
  }
}
