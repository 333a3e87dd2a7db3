/** The expense routes' handlers: the shared ledger handlers with the
    expense wording, `category` as the text field and a 404 for a missing
    document. */
module ExpenseController {
  import opened Replies
  import opened Calendar
  import opened Store
  import opened Models
  import opened Ledger

  /** `addExpense`: date, then amount, then category; one new expense owned
      by the caller on success, no change on a refusal. */
  function AddExpense(t: Table<Entry>, caller: nat, category: string, date: string, amount: real)
    : (r: (Response<Stored<Entry>>, Table<Entry>))
    ensures r.0.status <==> StrictDate(date) && amount >= 0.0 && |category| >= 3
    ensures !StrictDate(date) ==> r.0.message == "Date must be in a format of YYYY-MM-DD"
    ensures StrictDate(date) && amount < 0.0 ==> r.0.message == "Amount cannot be in minus"
    ensures StrictDate(date) && amount >= 0.0 && |category| < 3 ==>
              r.0.message == "Category must be a minimum of 3 characters long"
    ensures !r.0.status ==> r.1 == t
    ensures r.0.status ==> r.1 == t + [Row(Entry(category, ParseDate(date), amount, caller), false)]
  {
    var r := AddEntry(ExpenseKind, t, caller, category, date, amount);
    assert r.0.status ==> r.1 == r.1[..|t|] + [r.1[|t|]];
    r
  }

  /** `updateExpense`: only present, truthy fields are checked; the
      provided fields are set on the live expense with that id, if any, and
      success is reported either way. */
  function UpdateExpense(t: Table<Entry>, id: nat, patch: Patch): (r: (Response<()>, Table<Entry>))
    ensures r.0.status <==>
              && (TruthyText(patch.date) ==> StrictDate(patch.date.value))
              && (TruthyAmount(patch.amount) ==> patch.amount.value >= 0.0)
              && (TruthyText(patch.tag) ==> |patch.tag.value| >= 3)
    ensures TruthyText(patch.date) && !StrictDate(patch.date.value) ==>
              r.0.message == "Date must be in a format of YYYY-MM-DD"
    ensures (TruthyText(patch.date) ==> StrictDate(patch.date.value)) && TruthyAmount(patch.amount) && patch.amount.value < 0.0 ==>
              r.0.message == "Amount cannot be in minus"
    ensures (TruthyText(patch.date) ==> StrictDate(patch.date.value))
            && (TruthyAmount(patch.amount) ==> patch.amount.value >= 0.0)
            && TruthyText(patch.tag) && |patch.tag.value| < 3 ==>
              r.0.message == "Category must be a minimum of 3 characters long"
    ensures r.0.status ==> r.0.message == "Expense updated successfully"
    ensures r.0.status && IsLive(t, id) ==> r.1 == t[id := Row(ApplyPatch(t[id].doc, patch), Deletes(patch))]
    ensures !(r.0.status && IsLive(t, id)) ==> r.1 == t
  {
    UpdateEntry(ExpenseKind, t, id, patch)
  }

  /** `getOneExpense`: a missing or deleted expense gives HTTP 404. */
  function GetOneExpense(t: Table<Entry>, id: nat): (r: Response<seq<Entry>>)
    ensures !IsLive(t, id) ==> r.code == 404 && !r.status && r.message == "No expense found"
    ensures IsLive(t, id) ==> r.status && r.payload == Some([t[id].doc])
  {
    GetOneEntry(ExpenseKind, t, id)
  }

  /** `deleteExpense`: "Expense not found!" for an unknown id, otherwise a
      soft delete of that expense only. */
  function DeleteExpense(t: Table<Entry>, id: nat): (r: (Response<()>, Table<Entry>))
    ensures !IsLive(t, id) ==> r == (Refuse("Expense not found!"), t)
    ensures IsLive(t, id) ==> r.0.status && r.1 == t[id := Row(t[id].doc, true)]
  {
    DeleteEntry(ExpenseKind, t, id)
  }
}
