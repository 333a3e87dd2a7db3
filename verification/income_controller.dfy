/** The income routes' handlers: the shared ledger handlers with the
    income wording, `source` as the text field and a 200 (not a 404) for a missing
    document. */
module IncomeController {
  import opened Replies
  import opened Calendar
  import opened Store
  import opened Models
  import opened Ledger

  /** `addIncome`: date, then amount, then source; one new income owned
      by the caller on success, no change on a refusal. */
  function AddIncome(t: Table<Entry>, caller: nat, source: string, date: string, amount: real)
    : (r: (Response<Stored<Entry>>, Table<Entry>))
    ensures r.0.status <==> StrictDate(date) && amount >= 0.0 && |source| >= 3
    ensures !StrictDate(date) ==> r.0.message == "Date must be in a format of YYYY-MM-DD"
    ensures StrictDate(date) && amount < 0.0 ==> r.0.message == "Amount cannot be in minus"
    ensures StrictDate(date) && amount >= 0.0 && |source| < 3 ==>
              r.0.message == "Source must be a minimum of 3 characters long"
    ensures !r.0.status ==> r.1 == t
    ensures r.0.status ==> r.1 == t + [Row(Entry(source, ParseDate(date), amount, caller), false)]
  {
    var r := AddEntry(IncomeKind, t, caller, source, date, amount);
    assert r.0.status ==> r.1 == r.1[..|t|] + [r.1[|t|]];
    r
  }

  /** `updateIncome`: only present, truthy fields are checked; the
      provided fields are set on the live income with that id, if any, and
      success is reported either way. */
  function UpdateIncome(t: Table<Entry>, id: nat, patch: Patch): (r: (Response<()>, Table<Entry>))
    ensures r.0.status <==>
              && (TruthyText(patch.date) ==> StrictDate(patch.date.value))
              && (TruthyAmount(patch.amount) ==> patch.amount.value >= 0.0)
              && (TruthyText(patch.tag) ==> |patch.tag.value| >= 3)
    ensures TruthyText(patch.date) && !StrictDate(patch.date.value) ==>
              r.0.message == "Date must be in a format of YYYY-MM-DD"
    ensures (TruthyText(patch.date) ==> StrictDate(patch.date.value)) && TruthyAmount(patch.amount) && patch.amount.value < 0.0 ==>
              r.0.message == "Amount cannot be in minus"
    ensures (TruthyText(patch.date) ==> StrictDate(patch.date.value))
            && (TruthyAmount(patch.amount) ==> patch.amount.value >= 0.0)
            && TruthyText(patch.tag) && |patch.tag.value| < 3 ==>
              r.0.message == "Source must be a minimum of 3 characters long"
    ensures r.0.status ==> r.0.message == "Income updated successfully"
    ensures r.0.status && IsLive(t, id) ==> r.1 == t[id := Row(ApplyPatch(t[id].doc, patch), Deletes(patch))]
    ensures !(r.0.status && IsLive(t, id)) ==> r.1 == t
  {
    UpdateEntry(IncomeKind, t, id, patch)
  }

  /** `getOneIncome`: a missing or deleted income gives status false with HTTP 200. */
  function GetOneIncome(t: Table<Entry>, id: nat): (r: Response<seq<Entry>>)
    ensures !IsLive(t, id) ==> r.code == 200 && !r.status && r.message == "No income found"
    ensures IsLive(t, id) ==> r.status && r.payload == Some([t[id].doc])
  {
    GetOneEntry(IncomeKind, t, id)
  }

  /** `deleteIncome`: "Income not found!" for an unknown id, otherwise a
      soft delete of that income only. */
  function DeleteIncome(t: Table<Entry>, id: nat): (r: (Response<()>, Table<Entry>))
    ensures !IsLive(t, id) ==> r == (Refuse("Income not found!"), t)
    ensures IsLive(t, id) ==> r.0.status && r.1 == t[id := Row(t[id].doc, true)]
  {
    DeleteEntry(IncomeKind, t, id)
  }
}
