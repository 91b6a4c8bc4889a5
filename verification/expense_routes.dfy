/**
 The expense create and delete request handlers as atomic state transitions.

 The caller is the session's user id (`None` when there is no session). The
 create handler stores whatever tag and amount it is sent: it validates
 neither. The delete handler makes no creator check and keys its reversal on
 the caller, not on the expense's first payer; `DeleteByCreator` is the
 corrected handler that refuses non-creators.
 */
module ExpenseRoutes {
  import opened Common
  import opened Calendar
  import opened Ledger
  import opened Split
  import opened Store

  /** The JSON body of a create request; `payers` may be omitted. */
  datatype CreateBody = CreateBody(tag: string, amount: int, note: Option<string>, payers: Option<seq<Payer>>)

  /** An omitted or empty payer list becomes the caller paying the whole
      amount; a non-empty one is used as sent. */
  function EffectivePayers(caller: UserId, body: CreateBody): (ps: seq<Payer>)
    ensures |ps| >= 1
    ensures body.payers.Some? && |body.payers.value| > 0 ==> ps == body.payers.value
    ensures body.payers.None? || |body.payers.value| == 0 ==> ps == [Payer(caller, body.amount)]
  {
    if body.payers.Some? && |body.payers.value| > 0 then body.payers.value
    else [Payer(caller, body.amount)]
  }

  /** POST /api/expenses/create. */
  function Create(st: State, caller: Option<UserId>, body: CreateBody, now: Instant): (r: Reply<Expense>)
    ensures caller.None? ==> r == Reply(Unauthorized, None, st)
    ensures caller.Some? ==>
      && r.status == Ok
      && r.data.Some?
      && var e := r.data.value;
      && e.id == st.nextId
      && e.tag == body.tag
      && e.amount == body.amount
      && e.note == (if body.note.Some? then body.note.value else "")
      && e.createdAt == now
      && |e.payers| >= 1
      && (e.isSplitted <==> |e.payers| > 1)
      && r.next.expenses == st.expenses + [e]
      && r.next.nextId == st.nextId + 1
      && r.next.users == st.users
      && r.next.ledger.Keys == st.ledger.Keys + (if e.isSplitted then TouchedRows(caller.value, e.payers) else {})
      && forall a, b :: Get(r.next.ledger, a, b) ==
           Get(st.ledger, a, b) + (if e.isSplitted then SplitDelta(caller.value, e.payers, a, b) else 0)
  {
    if caller.None? then Reply(Unauthorized, None, st)
    else
      var c := caller.value;
      var ps := EffectivePayers(c, body);
      var e := Expense(st.nextId, body.tag, body.amount,
                       if body.note.Some? then body.note.value else "",
                       |ps| > 1, ps, now);
      var ledger := if |ps| > 1 then ApplySplit(st.ledger, c, ps) else st.ledger;
      Reply(Ok, Some(e), State(st.users, ledger, st.expenses + [e], st.nextId + 1))
  }

  /** The stored payer list is the request's, unchanged and in order, when it
      is non-empty, and otherwise the caller alone with the full amount; the
      expense is split exactly when that list has more than one entry. */
  lemma CreateStoresPayers(st: State, c: UserId, body: CreateBody, now: Instant)
    ensures var e := Create(st, Some(c), body, now).data.value;
      && (body.payers.Some? && |body.payers.value| > 0 ==> e.payers == body.payers.value)
      && (body.payers.None? || |body.payers.value| == 0 ==>
            e.payers == [Payer(c, body.amount)] && !e.isSplitted)
      && (e.isSplitted <==> body.payers.Some? && |body.payers.value| > 1)
  {
  }

  /** For a split expense and a payer `f` other than the caller, the caller's
      row against `f` grows by `f`'s amount and `f`'s row against the caller
      shrinks by it; both rows exist afterwards. */
  lemma CreateMovesPayerBalances(st: State, c: UserId, body: CreateBody, now: Instant, f: UserId)
    requires f != c
    ensures var r := Create(st, Some(c), body, now);
      var e := r.data.value;
      e.isSplitted ==>
        && Get(r.next.ledger, c, f) == Get(st.ledger, c, f) + AmountFor(e.payers, f)
        && Get(r.next.ledger, f, c) == Get(st.ledger, f, c) - AmountFor(e.payers, f)
        && ((exists p :: p in e.payers && p.userId == f) ==> (c, f) in r.next.ledger && (f, c) in r.next.ledger)
  {
    var r := Create(st, Some(c), body, now);
    var e := r.data.value;
    if e.isSplitted {
      SplitDeltaCharacterized(c, e.payers, c, f);
      SplitDeltaCharacterized(c, e.payers, f, c);
      if p :| p in e.payers && p.userId == f {
        assert (c, f) in TouchedRows(c, e.payers);
        assert (f, c) in TouchedRows(c, e.payers);
      }
    }
  }

  /** A row that did not exist before is created holding exactly the delta. */
  lemma CreateNewRowHoldsDelta(st: State, c: UserId, body: CreateBody, now: Instant, f: UserId)
    requires f != c
    requires (c, f) !in st.ledger && (f, c) !in st.ledger
    ensures var r := Create(st, Some(c), body, now);
      var e := r.data.value;
      (e.isSplitted && (c, f) in r.next.ledger && (f, c) in r.next.ledger) ==>
        r.next.ledger[(c, f)] == AmountFor(e.payers, f) && r.next.ledger[(f, c)] == -AmountFor(e.payers, f)
  {
    CreateMovesPayerBalances(st, c, body, now, f);
  }

  /** A non-split expense leaves the balance table exactly as it was, and no
      expense ever changes a pair that does not involve the caller. */
  lemma CreateFrame(st: State, c: UserId, body: CreateBody, now: Instant)
    ensures var r := Create(st, Some(c), body, now);
      && (!r.data.value.isSplitted ==> r.next.ledger == st.ledger)
      && forall a, b :: a != c && b != c ==> Get(r.next.ledger, a, b) == Get(st.ledger, a, b)
  {
    var r := Create(st, Some(c), body, now);
    forall a, b | a != c && b != c
      ensures Get(r.next.ledger, a, b) == Get(st.ledger, a, b)
    {
      SplitDeltaCharacterized(c, r.data.value.payers, a, b);
    }
  }

  /** Creating an expense keeps the balance table anti-symmetric. */
  lemma CreatePreservesAntiSymmetry(st: State, caller: Option<UserId>, body: CreateBody, now: Instant)
    requires AntiSymmetric(st.ledger)
    ensures AntiSymmetric(Create(st, caller, body, now).next.ledger)
  {
    if caller.Some? {
      var ps := EffectivePayers(caller.value, body);
      if |ps| > 1 {
        ApplySplitPreservesAntiSymmetry(st.ledger, caller.value, ps);
      }
    }
  }

  /** Creating an expense keeps every stored id below the next one. */
  lemma CreatePreservesIds(st: State, caller: Option<UserId>, body: CreateBody, now: Instant)
    requires IdsBelowNext(st)
    ensures IdsBelowNext(Create(st, caller, body, now).next)
  {
  }

  /** DELETE /api/expenses/delete?id=, as written: any signed-in caller may
      delete any expense, and the reversal is keyed on the caller. */
  function Delete(st: State, caller: Option<UserId>, id: Option<nat>): (r: Reply<()>)
    ensures caller.None? ==> r == Reply(Unauthorized, None, st)
    ensures caller.Some? && id.None? ==> r == Reply(BadRequest, None, st)
    ensures caller.Some? && id.Some? && FindExpense(st.expenses, id.value).None? ==> r == Reply(NotFound, None, st)
    ensures caller.Some? && id.Some? && FindExpense(st.expenses, id.value).Some? ==>
      && var e := FindExpense(st.expenses, id.value).value;
      && r.status == Ok
      && r.next.users == st.users
      && r.next.nextId == st.nextId
      && (forall i :: 0 <= i < |r.next.expenses| ==> r.next.expenses[i].id != id.value)
      && (forall x :: x in st.expenses && x.id != id.value ==> x in r.next.expenses)
      && (forall x :: x in r.next.expenses ==> x in st.expenses)
      && r.next.ledger.Keys == st.ledger.Keys + (if |e.payers| > 1 then TouchedRows(caller.value, e.payers) else {})
      && forall a, b :: Get(r.next.ledger, a, b) ==
           Get(st.ledger, a, b) - (if |e.payers| > 1 then SplitDelta(caller.value, e.payers, a, b) else 0)
  {
    if caller.None? then Reply(Unauthorized, None, st)
    else if id.None? then Reply(BadRequest, None, st)
    else
      var found := FindExpense(st.expenses, id.value);
      if found.None? then Reply(NotFound, None, st)
      else
        var e := found.value;
        var ledger := if |e.payers| > 1 then ReverseSplit(st.ledger, caller.value, e.payers) else st.ledger;
        Reply(Ok, None, State(st.users, ledger, RemoveExpense(st.expenses, id.value), st.nextId))
  }

  /** Deleting never makes an id reusable: the ids left are still below the
      next one handed out. */
  lemma DeletePreservesIds(st: State, caller: Option<UserId>, id: Option<nat>)
    requires IdsBelowNext(st)
    ensures IdsBelowNext(Delete(st, caller, id).next)
  {
  }

  /** Deleting keeps the balance table anti-symmetric, whoever deletes. */
  lemma DeletePreservesAntiSymmetry(st: State, caller: Option<UserId>, id: Option<nat>)
    requires AntiSymmetric(st.ledger)
    ensures AntiSymmetric(Delete(st, caller, id).next.ledger)
  {
    if caller.Some? && id.Some? {
      var found := FindExpense(st.expenses, id.value);
      if found.Some? && |found.value.payers| > 1 {
        ReverseSplitPreservesAntiSymmetry(st.ledger, caller.value, found.value.payers);
      }
    }
  }

  /** No creator check: every signed-in caller deletes any existing expense. */
  lemma DeleteSucceedsForAnyCaller(st: State, c: UserId, id: nat)
    requires FindExpense(st.expenses, id).Some?
    ensures Delete(st, Some(c), Some(id)).status == Ok
  {
  }

  /** When a signed-in caller who is not one of its payers deletes a split
      expense, the reversal's upserts create a balance row, both ways,
      between the caller and every payer, so those payers join the
      caller's friend rows. */
  lemma OutsiderDeleteCreatesRows(st: State, c: UserId, id: nat, i: nat)
    requires FindExpense(st.expenses, id).Some?
    requires var e := FindExpense(st.expenses, id).value;
      |e.payers| > 1 && i < |e.payers| && forall j :: 0 <= j < |e.payers| ==> e.payers[j].userId != c
    ensures var e := FindExpense(st.expenses, id).value;
      var l := Delete(st, Some(c), Some(id)).next.ledger;
      (c, e.payers[i].userId) in l && (e.payers[i].userId, c) in l
  {
    var e := FindExpense(st.expenses, id).value;
    assert e.payers[i] in e.payers;
  }

  /** Creating an expense and deleting it again as the same caller, with
      nothing in between, restores every balance and the expense table. */
  lemma CreateThenDeleteRestores(st: State, c: UserId, body: CreateBody, now: Instant)
    requires IdsBelowNext(st)
    ensures var r1 := Create(st, Some(c), body, now);
      var r2 := Delete(r1.next, Some(c), Some(r1.data.value.id));
      && r2.status == Ok
      && SameBalances(r2.next.ledger, st.ledger)
      && r2.next.expenses == st.expenses
  {
    var r1 := Create(st, Some(c), body, now);
    var e := r1.data.value;
    FindAppended(st.expenses, e);
    RemoveAbsentId(st.expenses, e.id);
    RemoveAppended(st.expenses, e);
  }

  lemma {:induction false} FindAppended(es: seq<Expense>, e: Expense)
    requires forall i :: 0 <= i < |es| ==> es[i].id != e.id
    ensures FindExpense(es + [e], e.id) == Some(e)
    decreases |es|
  {
    if es == [] {
    } else {
      assert (es + [e])[1..] == es[1..] + [e];
      FindAppended(es[1..], e);
    }
  }

  lemma {:induction false} RemoveAppended(es: seq<Expense>, e: Expense)
    ensures RemoveExpense(es + [e], e.id) == RemoveExpense(es, e.id)
    decreases |es|
  {
    if es == [] {
      assert RemoveExpense([e], e.id) == RemoveExpense([], e.id);
    } else {
      assert (es + [e])[1..] == es[1..] + [e];
      RemoveAppended(es[1..], e);
    }
  }

  /** The first payer of an expense, whom the listing view treats as its
      creator; an expense without payers has none. */
  function Creator(e: Expense): (r: Option<UserId>)
    ensures r.None? <==> e.payers == []
    ensures r.Some? ==> exists i :: 0 <= i < |e.payers| && e.payers[i].userId == r.value
  {
    if |e.payers| > 0 then Some(e.payers[0].userId) else None
  }

  /** The caller is the creator of the expense they post exactly when they
      send no payers or list themselves first, which is what the form does. */
  lemma CreatedByCaller(st: State, c: UserId, body: CreateBody, now: Instant)
    ensures var e := Create(st, Some(c), body, now).data.value;
      Creator(e) == Some(c) <==> body.payers.None? || |body.payers.value| == 0 || body.payers.value[0].userId == c
  {
    CreateStoresPayers(st, c, body, now);
  }

  /** Corrected delete: only the expense's creator may delete it (403
      otherwise, nothing changed), and the reversal is keyed on the creator. */
  function DeleteByCreator(st: State, caller: Option<UserId>, id: Option<nat>): (r: Reply<()>)
    ensures caller.None? ==> r == Reply(Unauthorized, None, st)
    ensures caller.Some? && id.None? ==> r == Reply(BadRequest, None, st)
    ensures caller.Some? && id.Some? && FindExpense(st.expenses, id.value).None? ==> r == Reply(NotFound, None, st)
    ensures caller.Some? && id.Some? && FindExpense(st.expenses, id.value).Some? ==>
      && var e := FindExpense(st.expenses, id.value).value;
      && (Creator(e) != caller ==> r == Reply(Forbidden, None, st))
      && (Creator(e) == caller ==> r == Delete(st, caller, id))
  {
    if caller.None? then Reply(Unauthorized, None, st)
    else if id.None? then Reply(BadRequest, None, st)
    else
      var found := FindExpense(st.expenses, id.value);
      if found.None? then Reply(NotFound, None, st)
      else if Creator(found.value) != caller then Reply(Forbidden, None, st)
      else Delete(st, caller, id)
  }

  /** With the corrected handler, an expense the caller created (the caller is
      its first payer) is undone exactly by the caller's delete, and nobody
      else's delete changes anything. */
  lemma DeleteByCreatorRestores(st: State, c: UserId, d: UserId, body: CreateBody, now: Instant)
    requires IdsBelowNext(st)
    requires body.payers.None? || |body.payers.value| == 0 || body.payers.value[0].userId == c
    ensures var r1 := Create(st, Some(c), body, now);
      var r2 := DeleteByCreator(r1.next, Some(c), Some(r1.data.value.id));
      var r3 := DeleteByCreator(r1.next, Some(d), Some(r1.data.value.id));
      && r2.status == Ok
      && SameBalances(r2.next.ledger, st.ledger)
      && r2.next.expenses == st.expenses
      && (d != c ==> r3.status == Forbidden && r3.next == r1.next)
  {
    var r1 := Create(st, Some(c), body, now);
    FindAppended(st.expenses, r1.data.value);
    CreateThenDeleteRestores(st, c, body, now);
  }

  /** As written, a split expense deleted by a payer `d` who did not create it
      is not undone: with a third payer `f` owed a non-zero share, the
      creator's balance against `f` keeps that share. */
  lemma NonCreatorDeleteLeavesBalance(st: State, c: UserId, d: UserId, f: UserId, body: CreateBody, now: Instant)
    requires IdsBelowNext(st)
    requires c != d && f != c && f != d
    requires var ps := EffectivePayers(c, body); |ps| > 1 && AmountFor(ps, f) != 0
    ensures var r1 := Create(st, Some(c), body, now);
      var r2 := Delete(r1.next, Some(d), Some(r1.data.value.id));
      && r2.status == Ok
      && Get(r2.next.ledger, c, f) == Get(st.ledger, c, f) + AmountFor(r1.data.value.payers, f)
      && Get(r2.next.ledger, c, f) != Get(st.ledger, c, f)
  {
    var r1 := Create(st, Some(c), body, now);
    var e := r1.data.value;
    FindAppended(st.expenses, e);
    SplitDeltaCharacterized(c, e.payers, c, f);
    SplitDeltaCharacterized(d, e.payers, c, f);
  }

  /** A concrete instance: `a` splits 90.00 three ways with `b` and `c`; `b`
      deletes it; `a` is still owed 30.00 by `c`. */
  lemma NonCreatorDeleteExample()
    ensures var st := State({"a", "b", "c"}, map[], [], 0);
      var body := CreateBody("Food", 9000, None, Some([Payer("a", 3000), Payer("b", 3000), Payer("c", 3000)]));
      var r1 := Create(st, Some("a"), body, Instant(2025, 1, 15, 0));
      var r2 := Delete(r1.next, Some("b"), Some(0));
      r2.status == Ok && Get(r2.next.ledger, "a", "c") == 3000
  {
    var st := State({"a", "b", "c"}, map[], [], 0);
    var ps := [Payer("a", 3000), Payer("b", 3000), Payer("c", 3000)];
    var body := CreateBody("Food", 9000, None, Some(ps));
    assert AmountFor(ps, "c") == 3000 by {
      assert ps[1..] == [Payer("b", 3000), Payer("c", 3000)];
      assert ps[1..][1..] == [Payer("c", 3000)];
    }
    NonCreatorDeleteLeavesBalance(st, "a", "b", "c", body, Instant(2025, 1, 15, 0));
  }
}
