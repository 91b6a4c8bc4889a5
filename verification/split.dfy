/**
 The bilateral balance updates of a split expense.

 When `caller` records an expense with payer list `ps`, the create handler
 walks `ps` in order and, for every entry whose user is not the caller, adds
 the entry's amount to `(caller, user)` and subtracts it from
 `(user, caller)`. The delete handler walks the same list with the opposite
 signs. Both are modelled here, together with `SplitDelta`, an independent
 reference definition of the net change each pair sees.
 */
module Split {
  import opened Common
  import opened Ledger

  /** One participant share of an expense: a user and an amount in paise. */
  datatype Payer = Payer(userId: UserId, amount: int)

  /** What one payer entry adds to `B(a, b)` when `caller` applies it. */
  function PayerDelta(caller: UserId, p: Payer, a: UserId, b: UserId): int
  {
    if p.userId == caller then 0
    else if a == caller && b == p.userId then p.amount
    else if a == p.userId && b == caller then -p.amount
    else 0
  }

  /** Net change of `B(a, b)` when `caller` applies the whole payer list. */
  function SplitDelta(caller: UserId, ps: seq<Payer>, a: UserId, b: UserId): int
  {
    if ps == [] then 0 else PayerDelta(caller, ps[0], a, b) + SplitDelta(caller, ps[1..], a, b)
  }

  /** Total amount of the entries of `ps` that name user `f`. */
  function AmountFor(ps: seq<Payer>, f: UserId): int
  {
    if ps == [] then 0 else (if ps[0].userId == f then ps[0].amount else 0) + AmountFor(ps[1..], f)
  }

  /** The rows the update loop writes: both directions of every pair
      `(caller, p.userId)` with `p.userId != caller`. */
  function TouchedRows(caller: UserId, ps: seq<Payer>): set<Pair>
  {
    (set p | p in ps && p.userId != caller :: (caller, p.userId))
    + (set p | p in ps && p.userId != caller :: (p.userId, caller))
  }

  lemma TouchedRowsCons(caller: UserId, ps: seq<Payer>)
    requires ps != []
    ensures TouchedRows(caller, ps) ==
      (if ps[0].userId == caller then {} else {(caller, ps[0].userId), (ps[0].userId, caller)})
      + TouchedRows(caller, ps[1..])
  {
    assert ps == [ps[0]] + ps[1..];
    forall p | p in ps
      ensures p == ps[0] || p in ps[1..]
    {
    }
  }

  /** One iteration of the create handler's loop: two upserts for a payer
      other than the caller, nothing for the caller's own entry. */
  function ApplyPayer(l: Balances, caller: UserId, p: Payer): (r: Balances)
    ensures forall a, b :: Get(r, a, b) == Get(l, a, b) + PayerDelta(caller, p, a, b)
    ensures r.Keys == l.Keys + (if p.userId == caller then {} else {(caller, p.userId), (p.userId, caller)})
    ensures AntiSymmetric(l) ==> AntiSymmetric(r)
  {
    if p.userId == caller then l
    else
      MirroredDeltaPreservesAntiSymmetry(l, caller, p.userId, p.amount);
      AddDelta(AddDelta(l, caller, p.userId, p.amount), p.userId, caller, -p.amount)
  }

  /** One iteration of the delete handler's loop: the same upserts with the
      signs swapped. */
  function UndoPayer(l: Balances, caller: UserId, p: Payer): (r: Balances)
    ensures forall a, b :: Get(r, a, b) == Get(l, a, b) - PayerDelta(caller, p, a, b)
    ensures r.Keys == l.Keys + (if p.userId == caller then {} else {(caller, p.userId), (p.userId, caller)})
    ensures AntiSymmetric(l) ==> AntiSymmetric(r)
  {
    if p.userId == caller then l
    else
      MirroredDeltaPreservesAntiSymmetry(l, caller, p.userId, -p.amount);
      AddDelta(AddDelta(l, caller, p.userId, -p.amount), p.userId, caller, p.amount)
  }

  /** The create handler's loop over the payers (create/route.ts). */
  function ApplySplit(l: Balances, caller: UserId, ps: seq<Payer>): (r: Balances)
    ensures forall a, b :: Get(r, a, b) == Get(l, a, b) + SplitDelta(caller, ps, a, b)
    ensures r.Keys == l.Keys + TouchedRows(caller, ps)
    decreases |ps|
  {
    if ps == [] then l
    else
      TouchedRowsCons(caller, ps);
      ApplySplit(ApplyPayer(l, caller, ps[0]), caller, ps[1..])
  }

  /** The delete handler's reversal loop over the payers (delete/route.ts). */
  function ReverseSplit(l: Balances, caller: UserId, ps: seq<Payer>): (r: Balances)
    ensures forall a, b :: Get(r, a, b) == Get(l, a, b) - SplitDelta(caller, ps, a, b)
    ensures r.Keys == l.Keys + TouchedRows(caller, ps)
    decreases |ps|
  {
    if ps == [] then l
    else
      TouchedRowsCons(caller, ps);
      ReverseSplit(UndoPayer(l, caller, ps[0]), caller, ps[1..])
  }

  /** The caller's row against `f` moves by the amounts the payer list gives
      `f`, the row of `f` against the caller by their negation, and every
      other pair (including every pair not involving the caller) not at all. */
  lemma {:induction false} SplitDeltaCharacterized(caller: UserId, ps: seq<Payer>, a: UserId, b: UserId)
    ensures a == caller && b != caller ==> SplitDelta(caller, ps, a, b) == AmountFor(ps, b)
    ensures b == caller && a != caller ==> SplitDelta(caller, ps, a, b) == -AmountFor(ps, a)
    ensures (a != caller && b != caller) || a == b ==> SplitDelta(caller, ps, a, b) == 0
    decreases |ps|
  {
    if ps != [] {
      SplitDeltaCharacterized(caller, ps[1..], a, b);
    }
  }

  /** The net change is anti-symmetric, pair by pair. */
  lemma {:induction false} SplitDeltaAntiSymmetric(caller: UserId, ps: seq<Payer>, a: UserId, b: UserId)
    ensures SplitDelta(caller, ps, a, b) == -SplitDelta(caller, ps, b, a)
    decreases |ps|
  {
    if ps != [] {
      SplitDeltaAntiSymmetric(caller, ps[1..], a, b);
    }
  }

  /** Applying a split keeps `B(a, b) == -B(b, a)` for every pair. */
  lemma ApplySplitPreservesAntiSymmetry(l: Balances, caller: UserId, ps: seq<Payer>)
    requires AntiSymmetric(l)
    ensures AntiSymmetric(ApplySplit(l, caller, ps))
  {
    var r := ApplySplit(l, caller, ps);
    forall a, b
      ensures Get(r, a, b) == -Get(r, b, a)
    {
      SplitDeltaAntiSymmetric(caller, ps, a, b);
      assert Get(l, a, b) == -Get(l, b, a);
    }
  }

  /** Reversing a split keeps `B(a, b) == -B(b, a)` for every pair. */
  lemma ReverseSplitPreservesAntiSymmetry(l: Balances, caller: UserId, ps: seq<Payer>)
    requires AntiSymmetric(l)
    ensures AntiSymmetric(ReverseSplit(l, caller, ps))
  {
    var r := ReverseSplit(l, caller, ps);
    forall a, b
      ensures Get(r, a, b) == -Get(r, b, a)
    {
      SplitDeltaAntiSymmetric(caller, ps, a, b);
      assert Get(l, a, b) == -Get(l, b, a);
    }
  }

  /** Reversing with the same caller and payer list undoes an application. */
  lemma ReverseUndoesApply(l: Balances, caller: UserId, ps: seq<Payer>)
    ensures SameBalances(ReverseSplit(ApplySplit(l, caller, ps), caller, ps), l)
  {
  }
}
