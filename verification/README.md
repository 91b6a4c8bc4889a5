# Spending Diary: the split-expense ledger, modelled in Dafny

Spending Diary is a personal and shared expense tracker. Its core is a
directed balance table `B(owner, counterparty)`: a positive amount means the
counterparty owes the owner. The request handlers that change the table are
modelled here as atomic transitions on an in-memory state:

- create expense;
- delete expense;
- settle;
- add friend.

So are the read handlers that present it:

- the friend listing;
- the caller's expense listing.

The client-side pieces that build and show expenses are modelled too:

- the add-expense form's checks and equal-split payer list;
- the role, share, total and delete-button rules of both expense lists;
- the group-by aggregations of the analytics endpoint (monthly buckets,
  trend tallies, category totals).

Amounts are whole paise (`int`), so every sum is exact. An absent balance
row reads as 0. A handler takes the state and the session's user id, and
returns a status, a payload and the next state. The caller is `None` when
there is no session.

Modules, one per file:

| file | module | what |
|---|---|---|
| common.dfy | `Common` | user ids, `Option`, integer sums, `Max` |
| calendar.dfy | `Calendar` | local dates and the `Date(year, monthIndex, day)` constructor |
| ledger.dfy | `Ledger` | the balance table, its upserts and anti-symmetry |
| split.dfy | `Split` | the per-payer balance loop of create and delete, and its reference `SplitDelta` |
| store.dfy | `Store` | expenses, the state, status codes, replies |
| expense_routes.dfy | `ExpenseRoutes` | create and delete handlers |
| friend_routes.dfy | `FriendRoutes` | settle, add-friend and friend-listing handlers |
| listing.dfy | `Listing` | the expense listing: filter, window, order, page of 50 |
| expense_form.dfy | `ExpenseForm` | the add-expense form |
| expense_view.dfy | `ExpenseView` | the expense list (newer component) |
| legacy_expense_view.dfy | `LegacyExpenseView` | the expense list (older component) |
| grouping.dfy | `Grouping` | group-by into an insertion-ordered record, proved against a per-key fold |
| analytics.dfy | `Analytics` | monthly buckets, trend tallies, category totals |

The program treats an expense's first payer as its creator. Both expense
lists show the delete button only to that user
(src/components/expense/UserExpenses.tsx:361,
src/components/UserExpenses.tsx:233). The delete handler itself has no such
check, and its reversal is keyed on the caller. The model follows the
handler as written, and adds a corrected handler that enforces the
creator-only rule (see Findings).

## Model

| member | source | states |
|---|---|---|
| ExpenseRoutes.EffectivePayers | src/app/api/expenses/create/route.ts:23-25 | A non-empty `payers` list is used unchanged. An absent or empty one becomes the caller alone with the whole amount. The result is never empty. |
| ExpenseRoutes.Create | src/app/api/expenses/create/route.ts:11-67 | No session gives 401 and no change. Otherwise the expense is appended with the next id and the body's tag, amount and note, unvalidated. It is split iff it has more than one payer. Every balance moves by exactly `SplitDelta` for a split expense and not at all otherwise. The rows afterwards are the old ones plus, for a split expense, both directions of every caller/other-payer pair. |
| ExpenseRoutes.CreateStoresPayers | src/app/api/expenses/create/route.ts:23-36 | The stored payer list is the request's, in order, or the caller with the full amount. `isSplitted` holds iff the request listed more than one payer. |
| ExpenseRoutes.CreateMovesPayerBalances | src/app/api/expenses/create/route.ts:46-66 | For a split expense and a payer `f` other than the caller: `B(caller, f)` grows by `f`'s amount, `B(f, caller)` shrinks by it, and both rows exist afterwards. |
| ExpenseRoutes.CreateNewRowHoldsDelta | src/app/api/expenses/create/route.ts:54-65 | Rows that did not exist are created holding `+amount` and `-amount`. |
| ExpenseRoutes.CreateFrame | src/app/api/expenses/create/route.ts:46-48 | A non-split expense leaves the table identical. No pair without the caller ever moves. |
| ExpenseRoutes.CreatePreservesAntiSymmetry | src/app/api/expenses/create/route.ts:53-65 | `B(a,b) == -B(b,a)` for all pairs before implies it after. |
| ExpenseRoutes.CreatePreservesIds | src/app/api/expenses/create/route.ts:28-43 | Every stored expense id stays below the next fresh id. |
| ExpenseRoutes.Delete | src/app/api/expenses/delete/route.ts:10-49 | 401 without a session, 400 without an id, and 404 for an unknown id, each with no change. Otherwise the expense is gone, all others stay, and no expense appears that was not stored before. Every balance moves by minus `SplitDelta` keyed on the caller when the expense has more than one payer. The rows afterwards are the old ones plus both directions of every caller/other-payer pair of such an expense. |
| ExpenseRoutes.DeletePreservesAntiSymmetry | src/app/api/expenses/delete/route.ts:28-46 | Anti-symmetry survives any delete, by any caller. |
| ExpenseRoutes.DeletePreservesIds | src/app/api/expenses/delete/route.ts:48-49 | After a delete, every stored expense id is still below the next fresh id. |
| ExpenseRoutes.DeleteSucceedsForAnyCaller | src/app/api/expenses/delete/route.ts:14-30 | No creator check: any signed-in caller deletes any existing expense with 200. |
| ExpenseRoutes.OutsiderDeleteCreatesRows | src/app/api/expenses/delete/route.ts:29-45 | A caller who is not a payer and deletes a split expense ends up with rows both ways to every payer. |
| ExpenseRoutes.Creator | src/components/expense/UserExpenses.tsx:150 | An expense has no creator iff it has no payers. A creator is always one of its payers. |
| ExpenseRoutes.CreatedByCaller | src/app/api/expenses/create/route.ts:23-25 | The caller is the stored expense's creator iff the request sent no payers, an empty list, or a list with the caller first. |
| ExpenseRoutes.CreateThenDeleteRestores | src/app/api/expenses/delete/route.ts:28-49 | Create followed by delete of that expense by the same caller restores every balance (absent rows reading 0) and the expense table. |
| ExpenseRoutes.NonCreatorDeleteLeavesBalance | src/app/api/expenses/delete/route.ts:29-30 | When a payer who is not the creator deletes a split expense, the creator's balance against a third payer keeps that payer's share. |
| ExpenseRoutes.NonCreatorDeleteExample | src/app/api/expenses/delete/route.ts:29-45 | A three-way 90.00 split by `a`, deleted by `b`, leaves `a` owed 30.00 by `c`. |
| ExpenseRoutes.DeleteByCreator | src/app/api/expenses/delete/route.ts:10-49 | Corrected delete. Same 401/400/404 paths. A caller who is not the first payer gets 403 and no change. The creator's delete is the handler's delete. |
| ExpenseRoutes.DeleteByCreatorRestores | src/app/api/expenses/delete/route.ts:28-49 | With the corrected delete, the creator's delete undoes the creation exactly. Anyone else's delete is refused and changes nothing. |
| Split.ApplyPayer | src/app/api/expenses/create/route.ts:48-65 | One loop iteration: the caller's own entry changes nothing. Another payer's entry adds `PayerDelta` to every pair and creates both rows. An anti-symmetric table stays anti-symmetric. |
| Split.UndoPayer | src/app/api/expenses/delete/route.ts:30-44 | One reversal iteration subtracts the same `PayerDelta`, creating absent rows. An anti-symmetric table stays anti-symmetric. |
| Split.ApplySplit | src/app/api/expenses/create/route.ts:46-67 | Each balance moves by the reference sum `SplitDelta`. The rows that exist afterwards are the old ones plus both directions of every caller/other-payer pair. |
| Split.ReverseSplit | src/app/api/expenses/delete/route.ts:28-46 | Each balance moves by minus `SplitDelta`, over the same rows. |
| Split.SplitDeltaCharacterized | src/app/api/expenses/create/route.ts:47-65 | The caller's row against `f` moves by the total amount the list gives `f`, and the mirror row by its negation. Pairs without the caller and diagonal pairs do not move. |
| Split.SplitDeltaAntiSymmetric | src/app/api/expenses/create/route.ts:54-65 | The net change to `(a,b)` is the negation of that to `(b,a)`. |
| Split.ApplySplitPreservesAntiSymmetry | src/app/api/expenses/create/route.ts:46-67 | Applying a split keeps the table anti-symmetric. |
| Split.ReverseSplitPreservesAntiSymmetry | src/app/api/expenses/delete/route.ts:28-46 | Reversing a split keeps the table anti-symmetric. |
| Split.ReverseUndoesApply | src/app/api/expenses/delete/route.ts:34-44 | Reversing with the same caller and payers restores every balance. |
| Ledger.AddDelta | src/app/api/expenses/create/route.ts:54-58 | Upsert with increment: the row exists afterwards and holds its old value (0 if absent) plus the delta. Nothing else changes. |
| Ledger.ResetRow | src/app/api/friends/settle/route.ts:18-22 | Upsert with value 0: the row exists and holds 0. Nothing else changes. |
| Ledger.EnsureRow | src/app/api/friends/addFriend/route.ts:32-36 | Upsert with empty update: an existing row is untouched, an absent one is created at 0, and no balance changes. |
| Ledger.MirroredDeltaPreservesAntiSymmetry | src/app/api/expenses/create/route.ts:54-65 | Adding `d` to `(a,b)` and `-d` to `(b,a)` keeps anti-symmetry. |
| FriendRoutes.Settle | src/app/api/friends/settle/route.ts:10-27 | 401 without a session. Otherwise both directions exist and hold 0, and every other pair, the users and the expenses are unchanged. |
| FriendRoutes.SettleIdempotent | src/app/api/friends/settle/route.ts:18-27 | Settling twice gives the same reply and state as settling once. |
| FriendRoutes.SettlePreservesAntiSymmetry | src/app/api/friends/settle/route.ts:18-27 | Settling keeps the table anti-symmetric. |
| FriendRoutes.SettlePreservesIds | src/app/api/friends/settle/route.ts:18-27 | After a settle, every stored expense id is still below the next fresh id. |
| FriendRoutes.AddFriend | src/app/api/friends/addFriend/route.ts:10-47 | 401 without a session, 400 for a missing or empty friend id, and 404 if either user is unknown, with no change. Success happens iff all checks pass. It returns `{userId, friendId}`, keeps existing rows' amounts and creates missing ones at 0. |
| FriendRoutes.AddFriendPreservesBalances | src/app/api/friends/addFriend/route.ts:32-41 | No balance changes, so anti-symmetry is kept. Repeating the request gives the same reply and state. |
| FriendRoutes.AddFriendPreservesIds | src/app/api/friends/addFriend/route.ts:32-41 | After adding a friend, every stored expense id is still below the next fresh id. |
| FriendRoutes.RowsOf | src/app/api/friends/get/route.ts:15-32 | Exactly the rows in which the caller is owner or counterparty. |
| FriendRoutes.RowsOfAppend | src/app/api/friends/get/route.ts:15-32 | The selection keeps storage order: the rows of a concatenation are the rows of its first part followed by those of its second. |
| FriendRoutes.ListFriends | src/app/api/friends/get/route.ts:11-47 | 401 without a session. Otherwise one entry per caller row, in the order `RowsOf` gives: the other user, the row id, and the row's amount as stored. |
| FriendRoutes.ListedRow | src/app/api/friends/get/route.ts:34-46 | Every row involving the caller appears in the listing with the other user and its amount. |
| FriendRoutes.ListFriendsShowsBothDirections | src/app/api/friends/get/route.ts:34-46 | Over an anti-symmetric table, a friend with rows both ways is listed twice: once with `B(u,f)` and once with `-B(u,f)`. |
| FriendRoutes.ListAfterSettleShowsZero | src/app/api/friends/get/route.ts:34-46 | After a settle with `f`, every listed entry for `f` shows 0. |
| Listing.TagFilter | src/app/api/expenses/userExpenses/route.ts:43-45 | A tag condition exists iff a non-empty tag other than "All" is given. |
| Listing.Select | src/app/api/expenses/userExpenses/route.ts:25-31 | Exactly the stored expenses naming the caller among their payers and passing the tag and date conditions. |
| Listing.SortNewestFirst | src/app/api/expenses/userExpenses/route.ts:49 | The result is ordered by `createdAt`, newest first, and is a permutation of the input. |
| Listing.ListExpenses | src/app/api/expenses/userExpenses/route.ts:11-54 | 401 without a session. Otherwise the newest page of the caller's matches: newest first, min(50, #matches) long, all matches when there are at most 50, and no match left off newer than one listed. Each entry is stored, names the caller, lies inside the handler's window and matches the tag filter. |
| Listing.PageIsNewestMatches | src/app/api/expenses/userExpenses/route.ts:49-50 | Sorting matches newest first and keeping the first 50 yields min(50, #matches) of them, newest first. It holds all matches when there are at most 50. No match left off is newer than one kept. |
| Listing.Page | src/app/api/expenses/userExpenses/route.ts:47-51 | The page of a query is the newest page of the stored expenses that match it. Every entry is a stored match. |
| Listing.DateWindow | src/app/api/expenses/userExpenses/route.ts:33-41 | Without a year there is no window. With a month 1..12 and a year, the window runs from midnight on the 1st to midnight on the month's last day, both included. With a year alone, it runs from midnight on 1 January to midnight on 31 December. |
| Listing.IntendedWindow | src/app/api/expenses/userExpenses/route.ts:33-41 | The corrected window runs from midnight on the 1st of the month to midnight on the 1st of the next month, excluded. For a year alone it runs from 1 January to the next 1 January, excluded. Without a year there is no window. |
| Listing.MonthWindowAsWritten | src/app/api/expenses/userExpenses/route.ts:33-36 | With month and year, an instant passes iff it lies in that month and not after midnight starting the month's last day. |
| Listing.MonthWindowMissesLastDay | src/app/api/expenses/userExpenses/route.ts:34-36 | Noon on 31 January 2025 is outside the January 2025 window. |
| Listing.YearWindowAsWritten | src/app/api/expenses/userExpenses/route.ts:37-40 | With a year alone, an instant passes iff it lies in that year and not after midnight starting 31 December. |
| Listing.MonthAloneIsNoWindow | src/app/api/expenses/userExpenses/route.ts:33-41 | A month without a year applies no date filter. |
| Listing.IntendedWindowIsWholePeriod | src/app/api/expenses/userExpenses/route.ts:33-41 | The corrected window keeps an instant iff it lies in the requested month, or in the requested year. |
| Listing.ListExpensesIntended | src/app/api/expenses/userExpenses/route.ts:11-54 | The listing with the corrected window. It is the newest page of the caller's matches, as for `ListExpenses`. Every entry names the caller, lies in the whole period and matches the tag. |
| Calendar.DaysInMonth | src/app/api/expenses/userExpenses/route.ts:35 | Month lengths: 31 for January, March, May, July, August, October and December; 30 for April, June, September and November; February 29 in a leap year and 28 otherwise. |
| Calendar.MakeDate | src/app/api/expenses/userExpenses/route.ts:34-39 | `new Date(y, monthIndex, day)` for day 0..31 is a real calendar date at midnight. Its month is `monthIndex` normalised, with the overflow carried into the year. An in-range day gives that day of that month. Day 0 gives the last day of the month before. A day past the month's end gives the excess as a day of the next month. |
| Calendar.MonthBounds | src/app/api/expenses/userExpenses/route.ts:34-35 | `Date(y, m-1, 1)` is the first of month `m` and `Date(y, m, 0)` its last day, including the December rollover. |
| Calendar.YearBounds | src/app/api/expenses/userExpenses/route.ts:38-39 | `Date(y, 0, 1)` is 1 January and `Date(y, 11, 31)` is 31 December. |
| ExpenseForm.Toggle | src/components/expense/AddExpenseForm.tsx:56-61 | Exactly the toggled id's flag flips (missing reads false). An existing key keeps its place and a new key is appended. Distinct keys stay distinct. |
| ExpenseForm.SelectedIds | src/components/expense/AddExpenseForm.tsx:88-90 | With distinct keys, an id is listed iff it is a key whose flag is set. |
| ExpenseForm.ResetSelection | src/components/expense/AddExpenseForm.tsx:125-132 | Every key is kept, every flag is false, and nothing is selected. |
| ExpenseForm.Share | src/components/expense/AddExpenseForm.tsx:100-101 | The share is the nearest whole number of paise to `amount / n`, halves up: `n * share` is within half a paisa per participant of the total. |
| ExpenseForm.AddExpense | src/components/expense/AddExpenseForm.tsx:63-132 | Something is posted iff a category is chosen, the amount is a number above 0, and, in split mode, a friend is selected. Otherwise the message is one of the form's three errors. A post carries the form's tag, amount and note. Its payers start with the user, and there is more than one payer iff the form is in split mode. |
| ExpenseForm.AddExpenseRejections | src/components/expense/AddExpenseForm.tsx:70-97 | The category check comes first, then the amount check, then the friend check in split mode. Something is posted iff all pass. |
| ExpenseForm.SplitSubmission | src/components/expense/AddExpenseForm.tsx:99-132 | A split post lists the user, then the k selected friends in order. All carry the same rounded share, the total is unchanged and uncorrected, and the selection is reset. |
| ExpenseForm.SingleSubmission | src/components/expense/AddExpenseForm.tsx:110-113 | Outside split mode the only payer is the user with the full amount. |
| ExpenseForm.SplitSubmissionMovesBalances | src/components/expense/AddExpenseForm.tsx:99-120 | Posting a split to the create handler credits the user with each selected friend's share, and debits that friend by the same amount. |
| ExpenseView.GetUserRole | src/components/expense/UserExpenses.tsx:148-160 | The role is one of split-owner, split-splitter, owner or payer, each exactly for its combination of split and first-payer. |
| ExpenseView.SplitTestMatchesStoredFlag | src/components/expense/UserExpenses.tsx:144-146 | The list shows an expense as split iff the create handler stored it with `isSplitted` set. |
| ExpenseView.CanDelete | src/components/expense/UserExpenses.tsx:361 | The delete button is shown to the user iff they are the expense's creator, the one the corrected delete handler requires. |
| ExpenseView.OwnerRolesShowDelete | src/components/expense/UserExpenses.tsx:361 | The delete button is shown iff the role is split-owner or owner. |
| ExpenseView.GetUserAmount | src/components/expense/UserExpenses.tsx:162-165 | The amount of the first payer naming the user, or 0 when none does. |
| ExpenseView.UserAmountIsLedgerAmount | src/components/expense/UserExpenses.tsx:162-165 | When the user appears at most once, the shown share equals the amount the ledger update moves for that user. |
| ExpenseView.UserTotalIsSumOfShares | src/components/expense/UserExpenses.tsx:274-275 | The header total is the sum of the shares shown on the cards. |
| ExpenseView.UserTotalAppend | src/components/expense/UserExpenses.tsx:274-275 | The total of two lists shown in sequence is the sum of their totals. |
| ExpenseView.UserTotal | src/components/expense/UserExpenses.tsx:274-275 | The header total is 0 when the user pays into none of the listed expenses. It is never negative when no share is. |
| ExpenseView.FindLabel | src/components/expense/UserExpenses.tsx:196 | The label of the first option with the value, or none iff no option has it. |
| ExpenseView.GetMonthName | src/components/expense/UserExpenses.tsx:195-197 | The matching month label, or "All Months" for an unknown value. The result is always one of the option labels. |
| LegacyExpenseView.GetUserRole | src/components/UserExpenses.tsx:91-103 | A non-split expense gives "owner". A split one not naming the user gives "unknown". Otherwise the role is "splitter" iff every share equals the first, else "payer". |
| LegacyExpenseView.EqualShares | src/components/UserExpenses.tsx:99-100 | Comparing every share with the first one holds iff all shares are pairwise equal. |
| LegacyExpenseView.ListsDisagreeOnPersonalExpenses | src/components/UserExpenses.tsx:92 | A personal expense whose first payer is someone else is "owner" in the older list and "payer" in the newer one. |
| LegacyExpenseView.EqualSplitShowsSplitter | src/components/UserExpenses.tsx:99-102 | Every participant of an equal split, the creator included, is a "splitter". |
| Grouping.Lookup | src/app/api/analytics/monthly-spending/route.ts:254 | A key reads absent iff it is not among the record's keys. |
| Grouping.Update | src/app/api/analytics/monthly-spending/route.ts:257 | Updating an entry in place changes that key's value only and keeps the key order. |
| Grouping.Accumulate | src/app/api/analytics/monthly-spending/route.ts:253-258 | One `forEach` step: the key's entry becomes `step(old or init, e)`, a new key is appended last, and other keys are untouched. |
| Grouping.GroupBy | src/app/api/analytics/monthly-spending/route.ts:253-258 | The record has an entry for a key iff some input element has that key. |
| Grouping.GroupByIsFoldPerKey | src/app/api/analytics/monthly-spending/route.ts:225-236 | A key has an entry iff some input element has it. Its value is the fold of the step over exactly those elements, in input order, from the initial value. |
| Grouping.GroupByUniqueKeys | src/app/api/analytics/monthly-spending/route.ts:225-232 | No key is stored twice, and there are at most as many entries as inputs. |
| Grouping.LookupAt | src/app/api/analytics/monthly-spending/route.ts:239 | With unique keys, looking up an entry's key finds that entry. |
| Grouping.GroupBySumsWeights | src/app/api/analytics/monthly-spending/route.ts:253-258 | When each step adds the element's weight and entries start at weight 0, the entries' weights sum to the input's. |
| Analytics.NewBucket | src/app/api/analytics/monthly-spending/route.ts:43-57 | A new bucket holds the month label, a zero total and a zero for each of the nine categories, and nothing else. |
| Analytics.AddToBucket | src/app/api/analytics/monthly-spending/route.ts:59-65 | Adding an expense adds its amount to the total, and to the tag's field when that field holds a number. Otherwise the tag's field is set to the amount, which replaces a "month" label. A "total" tag adds the amount to the total twice. Every other field is unchanged, and only the total and the tag's field can be new. |
| Analytics.MonthlyGroups | src/app/api/analytics/monthly-spending/route.ts:39-66 | There is one bucket per month that has an expense, and no month has two. |
| Analytics.BucketContents | src/app/api/analytics/monthly-spending/route.ts:43-65 | A bucket fed a month's expenses holds exactly this. The total is their sum, plus the "total"-tagged amounts counted a second time. Each category or tag field holds that tag's sum. No other field exists. The label survives unless a tag is "month". |
| Analytics.MonthlyBuckets | src/app/api/analytics/monthly-spending/route.ts:39-66 | There is one bucket per month that has expenses, and it holds `BucketContents` of exactly that month's expenses. |
| Analytics.QuarterOf | src/app/api/analytics/monthly-spending/route.ts:215 | For month index 0..11 the quarter is 1..4. Quarter q covers month indices 3(q-1) to 3q-1. |
| Analytics.PeriodOf | src/app/api/analytics/monthly-spending/route.ts:206-223 | Weekly, quarterly and yearly give week, quarter and year keys. Monthly and any other timeframe give month keys. Each key carries the expense's year, and its week number, month or quarter of the month. |
| Analytics.SamePeriod | src/app/api/analytics/monthly-spending/route.ts:206-223 | Two dates share a key iff they share the year and, as the timeframe asks, the week number, the quarter (months 1-3, 4-6, 7-9, 10-12) or the month. |
| Analytics.TallyStep | src/app/api/analytics/monthly-spending/route.ts:234-236 | One expense adds one to the count and its amount to the total. The maximum becomes the larger of the old maximum and the amount. |
| Analytics.TrendGroups | src/app/api/analytics/monthly-spending/route.ts:202-237 | There is one tally per period that has an expense, and no period has two. |
| Analytics.TallyOfPeriod | src/app/api/analytics/monthly-spending/route.ts:225-236 | A period's tally has total = sum, count = number of expenses, maximum ≥ 0 and ≥ every amount, and maximum equal to 0 or to one of the amounts. |
| Analytics.MaximumIsAnAmount | src/app/api/analytics/monthly-spending/route.ts:230-236 | With non-negative amounts, a non-empty period's maximum is one of its amounts. |
| Analytics.ProcessTrendsData | src/app/api/analytics/monthly-spending/route.ts:239-244 | One point per tally, in insertion order. |
| Analytics.TrendPoints | src/app/api/analytics/monthly-spending/route.ts:225-244 | Each point's period has at least one expense. Its total is their sum, its average is sum/count (never the 0 fallback), and its maximum bounds them. No period appears twice. |
| Analytics.CountsCoverInput | src/app/api/analytics/monthly-spending/route.ts:225-237 | The period counts add up to the number of expenses. |
| Analytics.ProcessCategoriesData | src/app/api/analytics/monthly-spending/route.ts:260-263 | One slice per category entry, in insertion order. |
| Analytics.AddAmount | src/app/api/analytics/monthly-spending/route.ts:254-257 | Resetting a falsy entry to 0 before adding is a plain addition of the amount. |
| Analytics.CategoryGroups | src/app/api/analytics/monthly-spending/route.ts:250-258 | There is one entry per tag that occurs, and no tag has two. |
| Analytics.CategorySlices | src/app/api/analytics/monthly-spending/route.ts:250-264 | There is one slice per distinct tag, and its value is that tag's amount sum. |
| Analytics.SlicesSumToTotal | src/app/api/analytics/monthly-spending/route.ts:250-264 | The slice values add up to the total of all amounts. |
| Store.FindExpense | src/app/api/expenses/delete/route.ts:19-26 | A found expense is a stored one with the id. The result is None only when no stored expense has the id. |
| Store.RemoveExpense | src/app/api/expenses/delete/route.ts:48-49 | The expense with the id is gone, every other expense stays, and nothing new appears. |

## Left out

- Server-side checks of the request body: the create handler checks neither tag nor amount, so `ExpenseRoutes.Create` stores any value. The only amount checks are the form's.
- The 500 paths (storage failures, malformed JSON) and the atomicity of the sequential upserts: each request is one atomic step, and concurrency is not modelled.
- Session handling: the session's user id is a parameter. Sign-up, payments, the database connection and the older document schemas are not part of this model.
- Expense ids are drawn from a counter. The database generates opaque string ids, and only their uniqueness matters here.
- Foreign-key checks are not modelled: the tables' schema is not part of this model, so payers and friend ids are not checked against the user table on create, delete or settle.
- Floating point: amounts are whole paise, and `toFixed(2)` is rounding half up to the paisa.
- ExpenseForm.Share: matches `toFixed(2)` only where the binary quotient is not just below a half-paisa boundary.
- Query parameters reach the listing already parsed. A value `parseInt` cannot read (NaN) is not modelled, and an absent or empty one is `None`.
- Row order of the friend listing: the query has no `orderBy`, so the database's order is unspecified. The model returns the rows in the order the table holds them.
- Payer order: expenses read their payer rows through `include` with no `orderBy`, so the database's order is unspecified. The model assumes they come back in insertion order, the request's order. Every creator rule (`ExpenseRoutes.Creator`, `ExpenseRoutes.DeleteByCreator`, `ExpenseView.CanDelete`, both `GetUserRole`s) reads the first payer, as the program's own `payers[0]` checks do, and so rests on this assumption.
- The friend listing returns the row id, the other user's id and the amount. The other user's name and phone are not modelled.
- The form's user id is a known user id. The case where the session has not loaded (`userId` null) is not modelled.
- `getWeekNumber` is a parameter (`weekOf`) of the trend key, as it is `Date` arithmetic.
- Forecasting, growth rates, period-name formatting, and the final date sort of `processMonthlyData` are not modelled: they are float and locale `Date` arithmetic.
- `processBreakdownData` depends on `Math.random`.
- Month labels "Mon YYYY" are keyed by the (year, month) pair they print. This only changes the spelling of the key.
- Object key order: JavaScript lists integer-like keys (a yearly period such as "2024", or a tag such as "7") before other keys, in numeric order. The model keeps plain insertion order for every key, so the order of points or slices may differ for such keys. The contents do not.
- Tags that name `Object.prototype` members (such as "constructor") read as non-numbers in the source objects. The model treats them as plain keys.
- Time zones and daylight saving: instants are local calendar components.
- Calendar.MakeDate: only days 0..31 are modelled, which are the only values the listing passes.

## Findings

| source | as written | input that shows it | evidently intended | confidence | as-written member | corrected member |
|---|---|---|---|---|---|---|
| src/app/api/expenses/delete/route.ts:28-46 | Any signed-in caller may delete any expense. The reversal loop skips the caller's own entry and reverses the others against the caller, not against the creator. | `a` splits 90.00 with `b` and `c` (30.00 each); `b` deletes it; `a` is still owed 30.00 by `c`, and `b`'s debt to `a` doubles to 60.00. | Only the creator (first payer) may delete; others get 403 and no change; the creator's delete undoes the creation. | not executed; proved on the model | ExpenseRoutes.NonCreatorDeleteLeavesBalance, ExpenseRoutes.NonCreatorDeleteExample | ExpenseRoutes.DeleteByCreator, ExpenseRoutes.DeleteByCreatorRestores |
| src/app/api/expenses/userExpenses/route.ts:33-40 | The window ends at `new Date(year, month, 0)` (or `Date(year, 11, 31)`) with `lte`: midnight at the start of the last day. | An expense at 12:00 on 31 January 2025 is not listed for month 1, year 2025. | The whole month (or year): an end bound at the first instant of the next period, excluded. | not executed; proved on the model | Listing.MonthWindowAsWritten, Listing.MonthWindowMissesLastDay, Listing.YearWindowAsWritten | Listing.IntendedWindow, Listing.ListExpensesIntended, Listing.IntendedWindowIsWholePeriod |
