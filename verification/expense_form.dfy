/**
 The add-expense form: the friend-selection state, the client-side checks,
 and the payer list the form sends to the create handler.

 Amounts are in paise; the parsed amount is `None` when `parseFloat` yields
 NaN. `toFixed(2)` is modelled as rounding half up to whole paise.
 */
module ExpenseForm {
  import opened Common
  import opened Ledger
  import opened Split
  import opened Store
  import opened ExpenseRoutes

  /** The `selectedFriends` object: friend ids in insertion order, each with
      its checkbox flag. */
  type Selection = seq<(UserId, bool)>

  function Keys(s: Selection): seq<UserId>
  {
    seq(|s|, i requires 0 <= i < |s| => s[i].0)
  }

  ghost predicate DistinctKeys(s: Selection)
  {
    forall i, j :: 0 <= i < j < |s| ==> s[i].0 != s[j].0
  }

  /** `prev[id]`, with a missing key read as `false` (`!undefined` is true). */
  function Lookup(s: Selection, id: UserId): bool
  {
    if s == [] then false
    else if s[0].0 == id then s[0].1
    else Lookup(s[1..], id)
  }

  /** `handleFriendToggle(id)`: `{...prev, [id]: !prev[id]}`. An existing key
      keeps its position; a new key is appended, checked. */
  function Toggle(s: Selection, id: UserId): (r: Selection)
    ensures Lookup(r, id) == !Lookup(s, id)
    ensures forall k :: k != id ==> Lookup(r, k) == Lookup(s, k)
    ensures id in Keys(s) ==> Keys(r) == Keys(s)
    ensures id !in Keys(s) ==> Keys(r) == Keys(s) + [id]
    ensures DistinctKeys(s) ==> DistinctKeys(r)
  {
    if s == [] then [(id, true)]
    else if s[0].0 == id then
      assert Keys(s)[0] == id;
      KeysCons((id, !s[0].1), s[1..]);
      KeysCons(s[0], s[1..]);
      [(id, !s[0].1)] + s[1..]
    else
      var rest := Toggle(s[1..], id);
      assert s == [s[0]] + s[1..];
      KeysCons(s[0], s[1..]);
      KeysCons(s[0], rest);
      TailDistinct(s);
      ConsDistinct(s[0], rest);
      [s[0]] + rest
  }

  lemma KeysCons(h: (UserId, bool), s: Selection)
    ensures Keys([h] + s) == [h.0] + Keys(s)
  {
  }

  lemma TailDistinct(s: Selection)
    requires s != []
    ensures DistinctKeys(s) ==> DistinctKeys(s[1..]) && s[0].0 !in Keys(s[1..])
  {
    if DistinctKeys(s) {
      forall i, j | 0 <= i < j < |s[1..]|
        ensures s[1..][i].0 != s[1..][j].0
      {
        assert s[i + 1].0 != s[j + 1].0;
      }
      forall k | 0 <= k < |s[1..]|
        ensures Keys(s[1..])[k] != s[0].0
      {
        assert s[k + 1].0 != s[0].0;
      }
    }
  }

  lemma ConsDistinct(h: (UserId, bool), s: Selection)
    ensures DistinctKeys(s) && h.0 !in Keys(s) ==> DistinctKeys([h] + s)
  {
    if DistinctKeys(s) && h.0 !in Keys(s) {
      var r := [h] + s;
      forall i, j | 0 <= i < j < |r|
        ensures r[i].0 != r[j].0
      {
        if i == 0 {
          assert r[j].0 == Keys(s)[j - 1];
        }
      }
    }
  }

  /** The ids whose flag is set, in insertion order (`Object.entries` +
      `filter` + `map`). */
  function SelectedIds(s: Selection): (r: seq<UserId>)
    ensures forall k :: k in r ==> k in Keys(s)
    ensures DistinctKeys(s) ==> forall k :: k in r <==> k in Keys(s) && Lookup(s, k)
    ensures |r| <= |s|
  {
    if s == [] then []
    else
      assert Keys(s) == [s[0].0] + Keys(s[1..]);
      (if s[0].1 then [s[0].0] else []) + SelectedIds(s[1..])
  }

  /** After a successful split submission every key is kept and unchecked. */
  function ResetSelection(s: Selection): (r: Selection)
    ensures Keys(r) == Keys(s)
    ensures forall k :: !Lookup(r, k)
    ensures SelectedIds(r) == []
  {
    if s == [] then []
    else
      assert Keys(s) == [s[0].0] + Keys(s[1..]);
      [(s[0].0, false)] + ResetSelection(s[1..])
  }

  /** `parseFloat((amount / n).toFixed(2))` on paise: the nearest whole
      number of paise, halves rounded up. */
  function Share(amount: int, n: int): (r: int)
    requires n > 0
    ensures -n <= 2 * (amount - r * n) < n
  {
    var x := 2 * amount + n;
    var r := x / (2 * n);
    assert x == (2 * n) * r + x % (2 * n);
    assert 2 * (r * n) == (2 * n) * r;
    r
  }

  datatype FormInput = FormInput(
    tag: Option<string>,
    amount: Option<int>,
    note: string,
    split: bool,
    selection: Selection)

  /** Either an error shown in the form (nothing sent), or the body posted to
      the create handler together with the selection the form holds after the
      post succeeds. */
  datatype FormOutcome = Rejected(message: string) | Submitted(body: CreateBody, selection: Selection)

  const NoCategory: string := "Please select a category."
  const InvalidAmount: string := "Please enter a valid amount."
  const NoFriendSelected: string := "Please select at least one friend to split with."

  /** The payer entries for the selected friends, each with the same share. */
  function FriendPayers(ids: seq<UserId>, share: int): (ps: seq<Payer>)
    ensures |ps| == |ids|
    ensures forall i :: 0 <= i < |ps| ==> ps[i] == Payer(ids[i], share)
  {
    if ids == [] then [] else [Payer(ids[0], share)] + FriendPayers(ids[1..], share)
  }

  /** `addExpense`: the checks in order (category, then amount, then a friend
      in split mode) and the payer list. */
  function AddExpense(userId: UserId, input: FormInput): (out: FormOutcome)
    ensures out.Submitted? <==>
      && input.tag.Some? && input.tag.value != ""
      && input.amount.Some? && input.amount.value > 0
      && (input.split ==> SelectedIds(input.selection) != [])
    ensures out.Rejected? ==> out.message in {NoCategory, InvalidAmount, NoFriendSelected}
    ensures out.Submitted? ==>
      && out.body.tag == input.tag.value
      && out.body.amount == input.amount.value
      && out.body.note == Some(input.note)
      && out.body.payers.Some?
      && |out.body.payers.value| > 0
      && out.body.payers.value[0].userId == userId
      && (input.split <==> |out.body.payers.value| > 1)
  {
    if input.tag.None? || input.tag.value == "" then Rejected(NoCategory)
    else if input.amount.None? || input.amount.value <= 0 then Rejected(InvalidAmount)
    else
      var amount := input.amount.value;
      if input.split then
        var ids := SelectedIds(input.selection);
        if |ids| == 0 then Rejected(NoFriendSelected)
        else
          var share := Share(amount, |ids| + 1);
          var payers := [Payer(userId, share)] + FriendPayers(ids, share);
          Submitted(CreateBody(input.tag.value, amount, Some(input.note), Some(payers)),
                    ResetSelection(input.selection))
      else
        Submitted(CreateBody(input.tag.value, amount, Some(input.note), Some([Payer(userId, amount)])),
                  input.selection)
  }

  /** The form sends nothing unless a category is chosen (checked first), the
      amount is a number above 0, and, in split mode, a friend is selected. */
  lemma AddExpenseRejections(userId: UserId, input: FormInput)
    ensures (input.tag.None? || input.tag.value == "") ==> AddExpense(userId, input) == Rejected(NoCategory)
    ensures (input.tag.Some? && input.tag.value != "" && (input.amount.None? || input.amount.value <= 0)) ==>
      AddExpense(userId, input) == Rejected(InvalidAmount)
    ensures (input.tag.Some? && input.tag.value != "" && input.amount.Some? && input.amount.value > 0 &&
             input.split && SelectedIds(input.selection) == []) ==>
      AddExpense(userId, input) == Rejected(NoFriendSelected)
    ensures AddExpense(userId, input).Submitted? <==>
      && input.tag.Some? && input.tag.value != ""
      && input.amount.Some? && input.amount.value > 0
      && (input.split ==> SelectedIds(input.selection) != [])
  {
  }

  /** A split submission lists the user first and then the k selected
      friends, every one with the rounded share, whose n-fold sum is within
      half a paisa per participant of the total; the selection is reset. */
  lemma SplitSubmission(userId: UserId, input: FormInput)
    requires AddExpense(userId, input).Submitted? && input.split
    ensures var out := AddExpense(userId, input);
      var ids := SelectedIds(input.selection);
      var n := |ids| + 1;
      var ps := out.body.payers.value;
      var total := input.amount.value;
      && out.body.amount == total
      && out.body.tag == input.tag.value
      && |ps| == n
      && ps[0].userId == userId
      && (forall i :: 1 <= i < n ==> ps[i].userId == ids[i - 1])
      && (forall i :: 0 <= i < n ==> ps[i].amount == Share(total, n))
      && -n <= 2 * (total - Share(total, n) * n) < n
      && Keys(out.selection) == Keys(input.selection)
      && SelectedIds(out.selection) == []
  {
    var ids := SelectedIds(input.selection);
    var n := |ids| + 1;
    var share := Share(input.amount.value, n);
    SplitBody(userId, input);
    SplitResetsSelection(userId, input);
    var ps := [Payer(userId, share)] + FriendPayers(ids, share);
    var out := AddExpense(userId, input);
    assert out.body.payers.value == ps;
    assert Keys(out.selection) == Keys(input.selection);
    forall i | 1 <= i < n
      ensures ps[i] == Payer(ids[i - 1], share)
    {
      assert ps[i] == FriendPayers(ids, share)[i - 1];
    }
  }

  /** Outside split mode the only payer is the user with the whole amount,
      and the selection is left as it was. */
  lemma SingleSubmission(userId: UserId, input: FormInput)
    requires AddExpense(userId, input).Submitted? && !input.split
    ensures var out := AddExpense(userId, input);
      && out.body.payers == Some([Payer(userId, input.amount.value)])
      && out.selection == input.selection
  {
  }

  lemma {:induction false} FriendPayersAmountFor(ids: seq<UserId>, share: int, f: UserId)
    requires forall i, j :: 0 <= i < j < |ids| ==> ids[i] != ids[j]
    ensures AmountFor(FriendPayers(ids, share), f) == (if f in ids then share else 0)
    decreases |ids|
  {
    if ids != [] {
      var ps := FriendPayers(ids, share);
      assert ps[1..] == FriendPayers(ids[1..], share);
      FriendPayersAmountFor(ids[1..], share, f);
      assert f in ids <==> f == ids[0] || f in ids[1..];
    }
  }

  lemma {:induction false} SelectedIdsDistinct(s: Selection)
    requires DistinctKeys(s)
    ensures forall i, j :: 0 <= i < j < |SelectedIds(s)| ==> SelectedIds(s)[i] != SelectedIds(s)[j]
    decreases |s|
  {
    if s != [] {
      SelectedIdsDistinct(s[1..]);
      var rest := SelectedIds(s[1..]);
      assert Keys(s) == [s[0].0] + Keys(s[1..]);
      assert s[0].0 !in Keys(s[1..]) by {
        forall k | 0 <= k < |s[1..]|
          ensures Keys(s[1..])[k] != s[0].0
        {
          assert s[k + 1].0 != s[0].0;
        }
      }
      assert s[0].0 !in rest;
    }
  }

  /** Submitting a split from the form as the signed-in user credits the user
      with each selected friend's share, and debits the friend the same; the
      other pairs of the ledger do not move. */
  lemma SplitSubmissionMovesBalances(st: State, userId: UserId, input: FormInput, now: Calendar.Instant, f: UserId)
    requires AddExpense(userId, input).Submitted? && input.split
    requires DistinctKeys(input.selection) && userId !in Keys(input.selection)
    requires f != userId
    ensures var ids := SelectedIds(input.selection);
      var share := Share(input.amount.value, |ids| + 1);
      var r := Create(st, Some(userId), AddExpense(userId, input).body, now);
      && Get(r.next.ledger, userId, f) == Get(st.ledger, userId, f) + (if f in ids then share else 0)
      && Get(r.next.ledger, f, userId) == Get(st.ledger, f, userId) - (if f in ids then share else 0)
  {
    var ids := SelectedIds(input.selection);
    var share := Share(input.amount.value, |ids| + 1);
    var body := AddExpense(userId, input).body;
    SplitBody(userId, input);
    var ps := body.payers.value;
    assert ps[1..] == FriendPayers(ids, share);
    SelectedIdsDistinct(input.selection);
    FriendPayersAmountFor(ids, share, f);
    assert AmountFor(ps, f) == AmountFor(ps[1..], f);
    CreateStoresPayers(st, userId, body, now);
    CreateMovesPayerBalances(st, userId, body, now, f);
  }

  /** The body of a split submission: the user's share first, then the
      friends'. */
  lemma SplitBody(userId: UserId, input: FormInput)
    requires AddExpense(userId, input).Submitted? && input.split
    ensures var ids := SelectedIds(input.selection);
      var share := Share(input.amount.value, |ids| + 1);
      && |ids| > 0
      && AddExpense(userId, input).body.payers == Some([Payer(userId, share)] + FriendPayers(ids, share))
      && AddExpense(userId, input).body.amount == input.amount.value
      && AddExpense(userId, input).body.tag == input.tag.value
  {
  }

  /** A split submission resets the selection. */
  lemma SplitResetsSelection(userId: UserId, input: FormInput)
    requires AddExpense(userId, input).Submitted? && input.split
    ensures AddExpense(userId, input).selection == ResetSelection(input.selection)
  {
  }
}
