/**
 The older expense list (components/UserExpenses.tsx). Its role label looks
 at the shares instead of the position: a personal expense is always the
 user's own, and a split one reads "splitter" when every share equals the
 first. Its `getUserAmount` and delete-button rule are the same as the newer
 list's and are reused from `ExpenseView`.
 */
module LegacyExpenseView {
  import opened Common
  import opened Split
  import opened Store
  import ExpenseView

  /** Every payer's amount equals the first payer's (`payers.every`), which
      is to say all shares are the same. */
  function EqualShares(ps: seq<Payer>): (equal: bool)
    requires |ps| > 0
    ensures equal <==> forall i, j :: 0 <= i < |ps| && 0 <= j < |ps| ==> ps[i].amount == ps[j].amount
  {
    forall i :: 0 <= i < |ps| ==> ps[i].amount == ps[0].amount
  }

  /** `getUserRole` of the older list. */
  function GetUserRole(e: Expense, user: UserId): (role: string)
    ensures !ExpenseView.IsExpenseSplit(e) ==> role == "owner"
    ensures ExpenseView.IsExpenseSplit(e) && (forall i :: 0 <= i < |e.payers| ==> e.payers[i].userId != user) ==>
      role == "unknown"
    ensures ExpenseView.IsExpenseSplit(e) && (exists i :: 0 <= i < |e.payers| && e.payers[i].userId == user) ==>
      && (role == "splitter" <==> EqualShares(e.payers))
      && (role == "payer" <==> !EqualShares(e.payers))
  {
    if !ExpenseView.IsExpenseSplit(e) then "owner"
    else if !(exists i :: 0 <= i < |e.payers| && e.payers[i].userId == user) then "unknown"
    else if EqualShares(e.payers) then "splitter"
    else "payer"
  }

  /** The two lists disagree on personal expenses: the older one calls every
      personal expense "owner", the newer one calls it "payer" for anyone
      who is not its first payer. */
  lemma ListsDisagreeOnPersonalExpenses(e: Expense, user: UserId)
    requires |e.payers| == 1 && e.payers[0].userId != user
    ensures GetUserRole(e, user) == "owner"
    ensures ExpenseView.GetUserRole(e, user) == "payer"
  {
  }

  /** An expense built by the split form gives everyone the same share, so
      the older list shows every participant, its creator included, as
      "splitter" and never as "payer". */
  lemma EqualSplitShowsSplitter(e: Expense, user: UserId, share: int)
    requires |e.payers| > 1
    requires forall i :: 0 <= i < |e.payers| ==> e.payers[i].amount == share
    requires exists i :: 0 <= i < |e.payers| && e.payers[i].userId == user
    ensures GetUserRole(e, user) == "splitter"
  {
  }
}
