/**
 The friend request handlers: settle, add friend, and the friend listing.

 Settle overwrites both directions of a pair with 0; add-friend creates
 missing rows at 0 and leaves existing ones alone. The listing returns every
 row the caller appears in, from the caller's side, with the stored amount
 copied as it is (never negated), so a friend with rows in both directions
 appears twice.
 */
module FriendRoutes {
  import opened Common
  import opened Ledger
  import opened Store

  /** POST /api/friends/settle with body `{friendId}`. Unlike add-friend,
      the handler does not check for a missing `friendId`; that request
      fails in the catch-all 500 path, so only a given id is modelled. */
  function Settle(st: State, caller: Option<UserId>, friendId: UserId): (r: Reply<()>)
    ensures caller.None? ==> r == Reply(Unauthorized, None, st)
    ensures caller.Some? ==>
      && r.status == Ok
      && r.next.users == st.users
      && r.next.expenses == st.expenses
      && r.next.nextId == st.nextId
      && r.next.ledger.Keys == st.ledger.Keys + {(caller.value, friendId), (friendId, caller.value)}
      && r.next.ledger[(caller.value, friendId)] == 0
      && r.next.ledger[(friendId, caller.value)] == 0
      && forall a, b :: (a, b) != (caller.value, friendId) && (a, b) != (friendId, caller.value) ==>
           Get(r.next.ledger, a, b) == Get(st.ledger, a, b)
  {
    if caller.None? then Reply(Unauthorized, None, st)
    else
      var u := caller.value;
      var ledger := ResetRow(ResetRow(st.ledger, u, friendId), friendId, u);
      Reply(Ok, None, st.(ledger := ledger))
  }

  /** Settling leaves the stored expenses and the id counter alone. */
  lemma SettlePreservesIds(st: State, caller: Option<UserId>, friendId: UserId)
    requires IdsBelowNext(st)
    ensures IdsBelowNext(Settle(st, caller, friendId).next)
  {
  }

  /** Settling twice leaves the same state as settling once. */
  lemma SettleIdempotent(st: State, caller: Option<UserId>, friendId: UserId)
    ensures var once := Settle(st, caller, friendId);
      Settle(once.next, caller, friendId) == once
  {
    var once := Settle(st, caller, friendId);
    if caller.Some? {
      var twice := Settle(once.next, caller, friendId);
      assert twice.next.ledger == once.next.ledger;
    }
  }

  /** Settling keeps the balance table anti-symmetric. */
  lemma SettlePreservesAntiSymmetry(st: State, caller: Option<UserId>, friendId: UserId)
    requires AntiSymmetric(st.ledger)
    ensures AntiSymmetric(Settle(st, caller, friendId).next.ledger)
  {
    var l := Settle(st, caller, friendId).next.ledger;
    forall a, b
      ensures Get(l, a, b) == -Get(l, b, a)
    {
      assert Get(st.ledger, a, b) == -Get(st.ledger, b, a);
    }
  }

  /** POST /api/friends/addFriend with body `{friendId}` (absent or empty:
      `None` or `Some("")`). The reply data is `{userId, friendId}`. */
  function AddFriend(st: State, caller: Option<UserId>, friendId: Option<UserId>): (r: Reply<(UserId, UserId)>)
    ensures caller.None? ==> r == Reply(Unauthorized, None, st)
    ensures caller.Some? && (friendId.None? || friendId.value == "") ==> r == Reply(BadRequest, None, st)
    ensures (caller.Some? && friendId.Some? && friendId.value != "" &&
             (caller.value !in st.users || friendId.value !in st.users)) ==> r == Reply(NotFound, None, st)
    ensures r.status == Ok <==>
            caller.Some? && friendId.Some? && friendId.value != "" &&
            caller.value in st.users && friendId.value in st.users
    ensures r.status == Ok ==>
      && var u := caller.value;
      && var f := friendId.value;
      && r.data == Some((u, f))
      && r.next.users == st.users
      && r.next.expenses == st.expenses
      && r.next.nextId == st.nextId
      && r.next.ledger.Keys == st.ledger.Keys + {(u, f), (f, u)}
      && (forall k :: k in st.ledger ==> r.next.ledger[k] == st.ledger[k])
      && ((u, f) !in st.ledger ==> r.next.ledger[(u, f)] == 0)
      && ((f, u) !in st.ledger ==> r.next.ledger[(f, u)] == 0)
  {
    if caller.None? then Reply(Unauthorized, None, st)
    else if friendId.None? || friendId.value == "" then Reply(BadRequest, None, st)
    else
      var u := caller.value;
      var f := friendId.value;
      if u !in st.users || f !in st.users then Reply(NotFound, None, st)
      else
        var ledger := EnsureRow(EnsureRow(st.ledger, u, f), f, u);
        Reply(Ok, Some((u, f)), st.(ledger := ledger))
  }

  /** Adding a friend leaves the stored expenses and the id counter alone. */
  lemma AddFriendPreservesIds(st: State, caller: Option<UserId>, friendId: Option<UserId>)
    requires IdsBelowNext(st)
    ensures IdsBelowNext(AddFriend(st, caller, friendId).next)
  {
  }

  /** Adding a friend changes no balance (absent rows read 0 before and
      after), so it keeps anti-symmetry; doing it twice equals doing it once. */
  lemma AddFriendPreservesBalances(st: State, caller: Option<UserId>, friendId: Option<UserId>)
    ensures var once := AddFriend(st, caller, friendId);
      && SameBalances(once.next.ledger, st.ledger)
      && (AntiSymmetric(st.ledger) ==> AntiSymmetric(once.next.ledger))
      && AddFriend(once.next, caller, friendId) == once
  {
    var once := AddFriend(st, caller, friendId);
    forall a, b
      ensures Get(once.next.ledger, a, b) == Get(st.ledger, a, b)
    {
    }
  }

  /** One row of the `friend` table, with its database id. */
  datatype FriendRow = FriendRow(id: nat, owner: UserId, counterparty: UserId, amount: int)

  /** One entry of the listing: the other user, the row id, the row's amount. */
  datatype FriendEntry = FriendEntry(friend: UserId, rowId: nat, amount: int)

  /** The rows hold exactly the ledger: one row per key, with its amount. */
  ghost predicate Enumerates(rows: seq<FriendRow>, l: Balances)
  {
    && (forall i, j :: 0 <= i < j < |rows| ==>
          (rows[i].owner, rows[i].counterparty) != (rows[j].owner, rows[j].counterparty))
    && (forall i :: 0 <= i < |rows| ==>
          (rows[i].owner, rows[i].counterparty) in l && l[(rows[i].owner, rows[i].counterparty)] == rows[i].amount)
    && (forall k :: k in l ==> exists i :: 0 <= i < |rows| && (rows[i].owner, rows[i].counterparty) == k)
  }

  predicate Involves(row: FriendRow, u: UserId)
  {
    row.owner == u || row.counterparty == u
  }

  /** The rows `findMany({where: {OR: [{userId}, {friendId: userId}]}})`
      returns, in storage order. */
  function RowsOf(rows: seq<FriendRow>, u: UserId): (r: seq<FriendRow>)
    ensures forall x :: x in r <==> x in rows && Involves(x, u)
    ensures |r| <= |rows|
  {
    if rows == [] then []
    else (if Involves(rows[0], u) then [rows[0]] else []) + RowsOf(rows[1..], u)
  }

  /** Selecting keeps storage order: the rows of a concatenation are the
      rows of its first part followed by those of its second. */
  lemma {:induction false} RowsOfAppend(xs: seq<FriendRow>, ys: seq<FriendRow>, u: UserId)
    ensures RowsOf(xs + ys, u) == RowsOf(xs, u) + RowsOf(ys, u)
    decreases |xs|
  {
    if xs == [] {
      assert xs + ys == ys;
    } else {
      assert (xs + ys)[1..] == xs[1..] + ys;
      RowsOfAppend(xs[1..], ys, u);
    }
  }

  /** GET /api/friends/get: for each of the caller's rows, the other user
      and the row's amount as stored. */
  function ListFriends(caller: Option<UserId>, rows: seq<FriendRow>): (r: ReadReply<seq<FriendEntry>>)
    ensures caller.None? ==> r == ReadReply(Unauthorized, None)
    ensures caller.Some? ==>
      && r.status == Ok
      && r.data.Some?
      && var mine := RowsOf(rows, caller.value);
      && |r.data.value| == |mine|
      && forall i :: 0 <= i < |mine| ==>
           && r.data.value[i].rowId == mine[i].id
           && r.data.value[i].amount == mine[i].amount
           && (mine[i].owner == caller.value ==> r.data.value[i].friend == mine[i].counterparty)
           && (mine[i].owner != caller.value ==> r.data.value[i].friend == mine[i].owner)
  {
    if caller.None? then ReadReply(Unauthorized, None)
    else
      var u := caller.value;
      var mine := RowsOf(rows, u);
      ReadReply(Ok, Some(seq(|mine|, i requires 0 <= i < |mine| =>
        FriendEntry(if mine[i].owner == u then mine[i].counterparty else mine[i].owner, mine[i].id, mine[i].amount))))
  }

  /** Over an anti-symmetric table, a friend `f` with rows in both directions
      is listed twice for `u`: once with `B(u, f)` and once with its negation
      `B(f, u)`, because the amount is copied without regard to direction. */
  lemma ListFriendsShowsBothDirections(rows: seq<FriendRow>, l: Balances, u: UserId, f: UserId)
    requires Enumerates(rows, l)
    requires AntiSymmetric(l)
    requires u != f && (u, f) in l && (f, u) in l
    ensures var out := ListFriends(Some(u), rows).data.value;
      && (exists i :: 0 <= i < |out| && out[i].friend == f && out[i].amount == Get(l, u, f))
      && (exists i :: 0 <= i < |out| && out[i].friend == f && out[i].amount == -Get(l, u, f))
  {
    var i :| 0 <= i < |rows| && (rows[i].owner, rows[i].counterparty) == (u, f);
    var j :| 0 <= j < |rows| && (rows[j].owner, rows[j].counterparty) == (f, u);
    ListedRow(rows, u, i);
    ListedRow(rows, u, j);
    assert rows[i].amount == Get(l, u, f);
    assert rows[j].amount == Get(l, f, u) == -Get(l, u, f);
  }

  /** Each of the caller's rows is listed, with the other user and its amount. */
  lemma ListedRow(rows: seq<FriendRow>, u: UserId, k: nat)
    requires k < |rows| && Involves(rows[k], u)
    ensures var out := ListFriends(Some(u), rows).data.value;
      var other := if rows[k].owner == u then rows[k].counterparty else rows[k].owner;
      exists p :: 0 <= p < |out| && out[p] == FriendEntry(other, rows[k].id, rows[k].amount)
  {
    var mine := RowsOf(rows, u);
    assert rows[k] in mine;
    var p :| 0 <= p < |mine| && mine[p] == rows[k];
    assert ListFriends(Some(u), rows).data.value[p].rowId == rows[k].id;
  }

  /** After a settle, every entry the listing shows for that friend is 0. */
  lemma ListAfterSettleShowsZero(st: State, u: UserId, f: UserId, rows: seq<FriendRow>)
    requires Enumerates(rows, Settle(st, Some(u), f).next.ledger)
    ensures var out := ListFriends(Some(u), rows).data.value;
      forall i :: 0 <= i < |out| && out[i].friend == f ==> out[i].amount == 0
  {
    var l := Settle(st, Some(u), f).next.ledger;
    var out := ListFriends(Some(u), rows).data.value;
    var mine := RowsOf(rows, u);
    forall i | 0 <= i < |out| && out[i].friend == f
      ensures out[i].amount == 0
    {
      assert mine[i] in rows;
      var k :| 0 <= k < |rows| && rows[k] == mine[i];
      assert (rows[k].owner, rows[k].counterparty) in l;
    }
  }
}
