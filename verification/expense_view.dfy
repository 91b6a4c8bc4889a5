/**
 How the expense list shows each expense to the signed-in user
 (components/expense/UserExpenses.tsx): the split test, the user's role and
 share, whether the delete button is offered, the header total, and the
 month label of the filter.
 */
module ExpenseView {
  import opened Common
  import opened Split
  import opened Store
  import opened Calendar
  import opened ExpenseRoutes

  /** `isExpenseSplit`: more than one payer. */
  predicate IsExpenseSplit(e: Expense)
  {
    |e.payers| > 1
  }

  /** The list's split test agrees with the `isSplitted` flag the create
      handler stores, so a card is shown as split exactly when its expense
      moved balances. */
  lemma SplitTestMatchesStoredFlag(st: State, c: UserId, body: CreateBody, now: Instant)
    ensures var e := Create(st, Some(c), body, now).data.value;
      IsExpenseSplit(e) <==> e.isSplitted
  {
  }

  /** The delete button is rendered only for the first payer, the creator
      the corrected delete handler checks for. Reading `payers[0]` needs at
      least one payer. */
  function CanDelete(e: Expense, user: UserId): (shown: bool)
    requires |e.payers| > 0
    ensures shown <==> Creator(e) == Some(user)
  {
    e.payers[0].userId == user
  }

  /** `getUserRole`: (split?) x (is the user the first payer?). Reading
      `payers[0]` needs at least one payer. */
  function GetUserRole(e: Expense, user: UserId): (role: string)
    requires |e.payers| > 0
    ensures role == "split-owner" <==> IsExpenseSplit(e) && CanDelete(e, user)
    ensures role == "split-splitter" <==> IsExpenseSplit(e) && !CanDelete(e, user)
    ensures role == "owner" <==> !IsExpenseSplit(e) && CanDelete(e, user)
    ensures role == "payer" <==> !IsExpenseSplit(e) && !CanDelete(e, user)
  {
    var isCreator := e.payers[0].userId == user;
    if IsExpenseSplit(e) then (if isCreator then "split-owner" else "split-splitter")
    else (if isCreator then "owner" else "payer")
  }

  /** `getUserAmount`: the amount of the first payer naming the user, or 0. */
  function GetUserAmount(ps: seq<Payer>, user: UserId): (a: int)
    ensures (forall i :: 0 <= i < |ps| ==> ps[i].userId != user) ==> a == 0
    ensures (exists i :: 0 <= i < |ps| && ps[i].userId == user) ==>
      exists i :: 0 <= i < |ps| && ps[i].userId == user && a == ps[i].amount &&
          (forall j :: 0 <= j < i ==> ps[j].userId != user)
  {
    if ps == [] then 0
    else if ps[0].userId == user then ps[0].amount
    else
      var a := GetUserAmount(ps[1..], user);
      assert forall i :: 0 < i < |ps| ==> ps[i] == ps[1..][i - 1];
      a
  }

  /** When the user appears at most once among the payers, the share shown is
      exactly what the ledger update credits or debits for that user. */
  lemma {:induction false} UserAmountIsLedgerAmount(ps: seq<Payer>, user: UserId)
    requires forall i, j :: 0 <= i < j < |ps| && ps[i].userId == user ==> ps[j].userId != user
    ensures GetUserAmount(ps, user) == AmountFor(ps, user)
    decreases |ps|
  {
    if ps != [] {
      UserAmountIsLedgerAmount(ps[1..], user);
      if ps[0].userId == user {
        NoneNamed(ps[1..], user);
      }
    }
  }

  lemma {:induction false} NoneNamed(ps: seq<Payer>, user: UserId)
    requires forall i :: 0 <= i < |ps| ==> ps[i].userId != user
    ensures AmountFor(ps, user) == 0
    decreases |ps|
  {
    if ps != [] {
      NoneNamed(ps[1..], user);
    }
  }

  /** The header total: `expenses.reduce((acc, e) => acc + getUserAmount(e), 0)`.
      It is 0 when the user pays into none of the expenses, and never
      negative when no share is. */
  function UserTotal(es: seq<Expense>, user: UserId): (total: int)
    ensures (forall i, j :: 0 <= i < |es| && 0 <= j < |es[i].payers| ==> es[i].payers[j].userId != user) ==> total == 0
    ensures (forall i, j :: 0 <= i < |es| && 0 <= j < |es[i].payers| ==> es[i].payers[j].amount >= 0) ==> total >= 0
  {
    if es == [] then 0
    else
      var init := es[..|es| - 1];
      assert forall i :: 0 <= i < |init| ==> init[i] == es[i];
      UserTotal(init, user) + GetUserAmount(es[|es| - 1].payers, user)
  }

  /** The header total is the sum of the shares shown on the cards. */
  lemma {:induction false} UserTotalIsSumOfShares(es: seq<Expense>, user: UserId)
    ensures UserTotal(es, user) == Sum(seq(|es|, i requires 0 <= i < |es| => GetUserAmount(es[i].payers, user)))
    decreases |es|
  {
    var shares := seq(|es|, i requires 0 <= i < |es| => GetUserAmount(es[i].payers, user));
    if es != [] {
      var init := es[..|es| - 1];
      UserTotalIsSumOfShares(init, user);
      assert shares[..|shares| - 1] == seq(|init|, i requires 0 <= i < |init| => GetUserAmount(init[i].payers, user));
    }
  }

  /** The header total of two lists shown one after the other adds up. */
  lemma {:induction false} UserTotalAppend(xs: seq<Expense>, ys: seq<Expense>, user: UserId)
    ensures UserTotal(xs + ys, user) == UserTotal(xs, user) + UserTotal(ys, user)
    decreases |ys|
  {
    if ys == [] {
      assert xs + ys == xs;
    } else {
      assert (xs + ys)[..|xs + ys| - 1] == xs + ys[..|ys| - 1];
      UserTotalAppend(xs, ys[..|ys| - 1], user);
    }
  }

  /** The month filter's options: value and label. */
  const Months: seq<(string, string)> := [
    ("1", "January"), ("2", "February"), ("3", "March"), ("4", "April"),
    ("5", "May"), ("6", "June"), ("7", "July"), ("8", "August"),
    ("9", "September"), ("10", "October"), ("11", "November"), ("12", "December"),
    ("all", "All Months")]

  function FindLabel(options: seq<(string, string)>, value: string): (r: Option<string>)
    ensures r.None? <==> forall i :: 0 <= i < |options| ==> options[i].0 != value
    ensures r.Some? ==> exists i :: 0 <= i < |options| && options[i].0 == value && r.value == options[i].1 &&
                                   (forall j :: 0 <= j < i ==> options[j].0 != value)
  {
    if options == [] then None
    else if options[0].0 == value then Some(options[0].1)
    else
      assert forall i :: 0 < i < |options| ==> options[i] == options[1..][i - 1];
      FindLabel(options[1..], value)
  }

  /** `getMonthName`: the option's label, or "All Months" for an unknown value. */
  function GetMonthName(value: string): (name: string)
    ensures (forall i :: 0 <= i < |Months| ==> Months[i].0 != value) ==> name == "All Months"
    ensures (exists i :: 0 <= i < |Months| && Months[i].0 == value) ==>
      exists i :: 0 <= i < |Months| && Months[i].0 == value && name == Months[i].1
    ensures exists i :: 0 <= i < |Months| && name == Months[i].1
  {
    var found := FindLabel(Months, value);
    if found.Some? then found.value else
      assert Months[12].1 == "All Months";
      "All Months"
  }

  /** A role is one of the two "owner" roles exactly when the delete button
      is shown. */
  lemma OwnerRolesShowDelete(e: Expense, user: UserId)
    requires |e.payers| > 0
    ensures GetUserRole(e, user) in {"split-owner", "owner"} <==> CanDelete(e, user)
  {
  }
}
