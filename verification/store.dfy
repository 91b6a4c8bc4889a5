/**
 The persistent state the request handlers read and write, and the shape of
 their replies.

 The database is an in-memory value: the set of registered users, the balance
 table, the expense table in insertion order, and the next expense id the
 database will hand out. Each request handler is one atomic transition from a
 state to a reply carrying the next state.
 */
module Store {
  import opened Common
  import opened Calendar
  import opened Ledger
  import opened Split

  /** An expense row with its payer rows nested in it (`include: {payers: true}`). */
  datatype Expense = Expense(
    id: nat,
    tag: string,
    amount: int,
    note: string,
    isSplitted: bool,
    payers: seq<Payer>,
    createdAt: Instant)

  datatype State = State(
    users: set<UserId>,
    ledger: Balances,
    expenses: seq<Expense>,
    nextId: nat)

  /** The HTTP statuses the modelled handlers return: 200, 400, 401, 403
      and 404. */
  datatype Status = Ok | BadRequest | Unauthorized | Forbidden | NotFound

  /** A handler's reply (`status`, the JSON `data` field) and the state the
      request leaves behind. */
  datatype Reply<T> = Reply(status: Status, data: Option<T>, next: State)

  /** The reply of a read-only handler, which leaves the state alone. */
  datatype ReadReply<T> = ReadReply(status: Status, data: Option<T>)

  /** Every stored expense id was handed out before `nextId`, so the id the
      database hands out next is fresh. */
  predicate IdsBelowNext(st: State)
  {
    forall i :: 0 <= i < |st.expenses| ==> st.expenses[i].id < st.nextId
  }

  /** `findUnique({where: {id}})`: the stored expense with id `id`, if any. */
  function FindExpense(es: seq<Expense>, id: nat): (r: Option<Expense>)
    ensures r.Some? ==> r.value in es && r.value.id == id
    ensures r.None? ==> forall i :: 0 <= i < |es| ==> es[i].id != id
  {
    if es == [] then None
    else if es[0].id == id then Some(es[0])
    else FindExpense(es[1..], id)
  }

  /** `expense.delete({where: {id}})` with its payer rows: the table without
      the expense(s) carrying `id`, the others kept in order. */
  function RemoveExpense(es: seq<Expense>, id: nat): (r: seq<Expense>)
    ensures forall i :: 0 <= i < |r| ==> r[i].id != id
    ensures forall e :: e in es && e.id != id ==> e in r
    ensures forall e :: e in r ==> e in es
    ensures |r| <= |es|
  {
    if es == [] then []
    else if es[0].id == id then RemoveExpense(es[1..], id)
    else [es[0]] + RemoveExpense(es[1..], id)
  }

  /** Removing an id that no expense carries leaves the table as it was. */
  lemma {:induction false} RemoveAbsentId(es: seq<Expense>, id: nat)
    requires forall i :: 0 <= i < |es| ==> es[i].id != id
    ensures RemoveExpense(es, id) == es
    decreases |es|
  {
    if es != [] {
      RemoveAbsentId(es[1..], id);
      assert es == [es[0]] + es[1..];
    }
  }
}
