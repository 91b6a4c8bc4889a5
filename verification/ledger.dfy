/**
 The balance store: one row per ordered pair of users, `(owner, counterparty)
 -> amount` in paise. A positive amount means the counterparty owes the owner;
 a negative one means the owner owes the counterparty. An absent row reads as 0.

 Every write the request handlers make is one of three Prisma `upsert`
 shapes, each modelled here as a map update.
 */
module Ledger {
  import opened Common

  type Pair = (UserId, UserId)

  /** The `friend` table keyed by `(userId, friendId)`. */
  type Balances = map<Pair, int>

  /** The balance of `owner` against `counterparty`; an absent row reads 0. */
  function Get(l: Balances, owner: UserId, counterparty: UserId): int
  {
    if (owner, counterparty) in l then l[(owner, counterparty)] else 0
  }

  /** Every pair reads the same in both maps (absent rows read as 0). */
  ghost predicate SameBalances(l1: Balances, l2: Balances)
  {
    forall a, b :: Get(l1, a, b) == Get(l2, a, b)
  }

  /** Each direction of a pair is the negation of the other. */
  ghost predicate AntiSymmetric(l: Balances)
  {
    forall a, b :: Get(l, a, b) == -Get(l, b, a)
  }

  /** `upsert({create: {amount: d}, update: {amount: {increment: d}}})`;
      a `decrement: d` with create value `-d` is `AddDelta(l, a, b, -d)`. */
  function AddDelta(l: Balances, a: UserId, b: UserId, d: int): (r: Balances)
    ensures r.Keys == l.Keys + {(a, b)}
    ensures Get(r, a, b) == Get(l, a, b) + d
    ensures (a, b) !in l ==> r[(a, b)] == d
    ensures forall x, y :: (x, y) != (a, b) ==> Get(r, x, y) == Get(l, x, y)
  {
    if (a, b) in l then l[(a, b) := l[(a, b)] + d] else l[(a, b) := d]
  }

  /** `upsert({create: {amount: 0}, update: {amount: 0}})`: the row ends at 0
      whatever it held, and is created if absent. */
  function ResetRow(l: Balances, a: UserId, b: UserId): (r: Balances)
    ensures r.Keys == l.Keys + {(a, b)}
    ensures r[(a, b)] == 0
    ensures forall x, y :: (x, y) != (a, b) ==> Get(r, x, y) == Get(l, x, y)
  {
    l[(a, b) := 0]
  }

  /** `upsert({create: {amount: 0}, update: {}})`: an existing row keeps its
      amount; an absent one is created at 0. */
  function EnsureRow(l: Balances, a: UserId, b: UserId): (r: Balances)
    ensures r.Keys == l.Keys + {(a, b)}
    ensures (a, b) in l ==> r == l
    ensures (a, b) !in l ==> r[(a, b)] == 0
    ensures SameBalances(r, l)
  {
    if (a, b) in l then l else l[(a, b) := 0]
  }

  /** Moving `d` from one direction of a pair to the other keeps the ledger
      anti-symmetric. */
  lemma MirroredDeltaPreservesAntiSymmetry(l: Balances, a: UserId, b: UserId, d: int)
    ensures AntiSymmetric(l) ==> AntiSymmetric(AddDelta(AddDelta(l, a, b, d), b, a, -d))
  {
    if AntiSymmetric(l) {
      var r := AddDelta(AddDelta(l, a, b, d), b, a, -d);
      forall x, y
        ensures Get(r, x, y) == -Get(r, y, x)
      {
        assert Get(l, x, y) == -Get(l, y, x);
      }
    }
  }
}
