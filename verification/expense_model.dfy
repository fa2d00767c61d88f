/** The expense record of Backend/models/Expense.js and the collection that
    holds the records, modelled as an ordered sequence in insertion order. */
module ExpenseModel {

  import opened Common

  /** The identity a verified token carries (`decoded.id`). */
  type UserId = string

  /** The store-assigned record id (Mongo's `_id`). */
  type RecordId = nat

  /** Milliseconds since the Unix epoch, as a JavaScript `Date` holds them. */
  type Timestamp = int

  /** One stored expense: the store's id plus the five schema fields. Amounts
      are whole units rather than floating-point numbers. */
  datatype Expense = Expense(
    id: RecordId,
    userId: UserId,
    title: string,
    amount: int,
    category: string,
    date: Timestamp)

  /** The collection: its records in insertion order and the next id it hands out. */
  datatype Store = Store(records: seq<Expense>, nextId: RecordId)

  /** No two positions of `rs` hold records with the same id. */
  predicate UniqueIds(rs: seq<Expense>) {
    forall i, j :: 0 <= i < j < |rs| ==> rs[i].id != rs[j].id
  }

  /** The store invariant: ids are unique and every id is below the next one
      to be assigned, so a newly assigned id is always fresh. */
  predicate Valid(s: Store) {
    && UniqueIds(s.records)
    && forall e :: e in s.records ==> e.id < s.nextId
  }

  /** The empty collection. */
  const EmptyStore := Store([], 0)

  /** Taking out the record at position `i` keeps ids unique, and no record
      left carries the removed record's id. */
  lemma SpliceKeepsUniqueIds(rs: seq<Expense>, i: nat)
    requires UniqueIds(rs) && i < |rs|
    ensures UniqueIds(rs[..i] + rs[i + 1..])
    ensures forall e :: e in rs[..i] + rs[i + 1..] ==> e.id != rs[i].id
  {
    var r := rs[..i] + rs[i + 1..];
    assert forall k :: 0 <= k < |r| ==> r[k] == rs[if k < i then k else k + 1];
  }

  /** Keeping some of the records keeps their ids unique. */
  lemma {:induction false} FilterKeepsUniqueIds(rs: seq<Expense>, p: Expense -> bool)
    ensures UniqueIds(rs) ==> UniqueIds(Filter(rs, p))
  {
    if |rs| > 0 && UniqueIds(rs) {
      var tail := rs[1..];
      assert UniqueIds(tail) by {
        forall i, j | 0 <= i < j < |tail| ensures tail[i].id != tail[j].id {
          assert tail[i] == rs[i + 1] && tail[j] == rs[j + 1];
        }
      }
      FilterKeepsUniqueIds(tail, p);
      if p(rs[0]) {
        var r := Filter(rs, p);
        assert r == [rs[0]] + Filter(tail, p);
        forall j | 0 < j < |r| ensures r[0].id != r[j].id {
          assert r[j] in tail;
          var k :| 0 <= k < |tail| && tail[k] == r[j];
          assert rs[k + 1] == r[j];
        }
      }
    }
  }
}
