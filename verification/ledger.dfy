/** The handlers the income and expense controllers share: add, partial
    update, fetch one and soft delete. The two controllers differ only in
    their wording, in the name of the text field (`source` / `category`) and
    in the HTTP code of "fetch one" for a missing document; `Kind` carries
    those differences. */
module Ledger {
  import opened Replies
  import opened Calendar
  import opened Store
  import opened Models

  datatype Kind = IncomeKind | ExpenseKind

  const NegativeAmountMessage: string := "Amount cannot be in minus"

  function ShortTagMessage(k: Kind): string
  {
    match k
    case IncomeKind => "Source must be a minimum of 3 characters long"
    case ExpenseKind => "Category must be a minimum of 3 characters long"
  }

  function AddedMessage(k: Kind): string
  {
    if k == IncomeKind then "Income added successfully" else "Expense added successfully"
  }

  function UpdatedMessage(k: Kind): string
  {
    if k == IncomeKind then "Income updated successfully" else "Expense updated successfully"
  }

  function FetchedMessage(k: Kind): string
  {
    if k == IncomeKind then "Income fetched successfully" else "Expense fetched successfully"
  }

  function NoneFoundMessage(k: Kind): string
  {
    if k == IncomeKind then "No income found" else "No expense found"
  }

  /** The expense controller answers a missing document with 404, the
      income controller with 200. */
  function NoneFoundCode(k: Kind): nat
  {
    if k == IncomeKind then 200 else 404
  }

  function NotFoundMessage(k: Kind): string
  {
    if k == IncomeKind then "Income not found!" else "Expense not found!"
  }

  function DeletedMessage(k: Kind): string
  {
    if k == IncomeKind then "Income deleted successfully" else "Expense deleted successfully"
  }

  // ---------------------------------------------------------------------
  // Add
  // ---------------------------------------------------------------------

  /** The three checks of an add, in their order; the first failure wins.
      A zero amount passes. */
  function AddError(k: Kind, tag: string, date: string, amount: real): (e: Option<string>)
    ensures e.None? <==> StrictDate(date) && amount >= 0.0 && |tag| >= 3
    ensures !StrictDate(date) ==> e == Some(DateFormatMessage)
    ensures StrictDate(date) && amount < 0.0 ==> e == Some(NegativeAmountMessage)
    ensures StrictDate(date) && amount >= 0.0 && |tag| < 3 ==> e == Some(ShortTagMessage(k))
  {
    if !StrictDate(date) then Some(DateFormatMessage)
    else if amount < 0.0 then Some(NegativeAmountMessage)
    else if |tag| < 3 then Some(ShortTagMessage(k))
    else None
  }

  /** `addIncome` / `addExpense`: on success exactly one document is
      appended, owned by the caller; on a refusal nothing changes. */
  function AddEntry(k: Kind, t: Table<Entry>, caller: nat, tag: string, date: string, amount: real)
    : (r: (Response<Stored<Entry>>, Table<Entry>))
    ensures r.0.code == 200
    ensures r.0.status <==> AddError(k, tag, date, amount).None?
    ensures !r.0.status ==> r.0.message == AddError(k, tag, date, amount).value && r.1 == t
    ensures r.0.status ==>
              && |r.1| == |t| + 1 && r.1[..|t|] == t
              && r.1[|t|] == Row(Entry(tag, ParseDate(date), amount, caller), false)
              && r.0.payload == Some(Stored(|t|, r.1[|t|].doc))
              && r.0.message == AddedMessage(k)
  {
    match AddError(k, tag, date, amount)
    case Some(message) => (Refuse(message), t)
    case None =>
      var e := Entry(tag, ParseDate(date), amount, caller);
      var t' := Insert(t, e);
      assert t'[..|t|] == t;
      (Ok(AddedMessage(k), Some(Stored(|t|, e))), t')
  }

  // ---------------------------------------------------------------------
  // Update
  // ---------------------------------------------------------------------

  /** The optional fields of an update body that reach the schema: the
      three checked fields, the owner `userId`, and the `deleted` flag the
      soft-delete plugin adds. Other body fields are dropped by strict mode. */
  datatype Patch = Patch(date: Option<string>, amount: Option<real>, tag: Option<string>,
                         owner: Option<nat>, deleted: Option<bool>)

  /** The body sets the soft-delete flag. */
  predicate Deletes(patch: Patch)
  {
    patch.deleted == Some(true)
  }

  /** JavaScript truthiness of an optional string or number field. */
  predicate TruthyText(f: Option<string>)
  {
    f.Some? && f.value != ""
  }

  predicate TruthyAmount(f: Option<real>)
  {
    f.Some? && f.value != 0.0
  }

  /** The checks of an update: a field is only checked when present and
      truthy, so the empty string and the amount 0 are never checked. */
  function PatchError(k: Kind, patch: Patch): (e: Option<string>)
    ensures e.None? <==>
              && (TruthyText(patch.date) ==> StrictDate(patch.date.value))
              && (TruthyAmount(patch.amount) ==> patch.amount.value >= 0.0)
              && (TruthyText(patch.tag) ==> |patch.tag.value| >= 3)
    ensures TruthyText(patch.date) && !StrictDate(patch.date.value) ==> e == Some(DateFormatMessage)
  {
    if TruthyText(patch.date) && !StrictDate(patch.date.value) then Some(DateFormatMessage)
    else if TruthyAmount(patch.amount) && patch.amount.value < 0.0 then Some(NegativeAmountMessage)
    else if TruthyText(patch.tag) && |patch.tag.value| < 3 then Some(ShortTagMessage(k))
    else None
  }

  /** `$set` of the document fields present in the body. A date of "" is
      cast to null, which `ParseDate("")` (no date) stands for. A body
      `userId` moves the entry to that owner. */
  function ApplyPatch(e: Entry, patch: Patch): (r: Entry)
    ensures patch.owner.None? ==> r.owner == e.owner
    ensures patch.owner.Some? ==> r.owner == patch.owner.value
    ensures r.tag == (if patch.tag.Some? then patch.tag.value else e.tag)
    ensures r.amount == (if patch.amount.Some? then patch.amount.value else e.amount)
    ensures patch.date.None? ==> r.date == e.date
    ensures patch.date == Some("") ==> r.date.None?
    ensures patch.date.Some? && StrictDate(patch.date.value) ==> r.date == ParseDate(patch.date.value)
  {
    Entry(if patch.tag.Some? then patch.tag.value else e.tag,
          if patch.date.Some? then ParseDate(patch.date.value) else e.date,
          if patch.amount.Some? then patch.amount.value else e.amount,
          if patch.owner.Some? then patch.owner.value else e.owner)
  }

  /** `updateIncome` / `updateExpense`. `updateOne` touches the live
      document with that identifier if there is one; success is reported
      either way. The whole body is passed to `$set`, so a body `deleted`
      of true soft-deletes the document. */
  function UpdateEntry(k: Kind, t: Table<Entry>, id: nat, patch: Patch): (r: (Response<()>, Table<Entry>))
    ensures r.0.code == 200 && |r.1| == |t|
    ensures PatchError(k, patch).Some? ==> r == (Refuse(PatchError(k, patch).value), t)
    ensures PatchError(k, patch).None? ==> r.0 == Ok(UpdatedMessage(k), None)
    ensures r.0.status && IsLive(t, id) ==> r.1[id] == Row(ApplyPatch(t[id].doc, patch), Deletes(patch))
    ensures forall j :: 0 <= j < |t| && j != id ==> r.1[j] == t[j]
    ensures !IsLive(t, id) ==> r.1 == t
  {
    match PatchError(k, patch)
    case Some(message) => (Refuse(message), t)
    case None =>
      var t' := if IsLive(t, id) then t[id := Row(ApplyPatch(t[id].doc, patch), Deletes(patch))] else t;
      (Ok(UpdatedMessage(k), None), t')
  }

  // ---------------------------------------------------------------------
  // Fetch one and delete
  // ---------------------------------------------------------------------

  /** `getOneIncome` / `getOneExpense`: `find({_id: id})`, empty when the
      document is missing or soft-deleted. */
  function GetOneEntry(k: Kind, t: Table<Entry>, id: nat): (r: Response<seq<Entry>>)
    ensures r.status <==> IsLive(t, id)
    ensures r.status ==> r == Ok(FetchedMessage(k), Some([t[id].doc]))
    ensures !r.status ==> r == RefuseWith(NoneFoundCode(k), NoneFoundMessage(k))
  {
    if IsLive(t, id) then Ok(FetchedMessage(k), Some([t[id].doc]))
    else RefuseWith(NoneFoundCode(k), NoneFoundMessage(k))
  }

  /** `deleteIncome` / `deleteExpense`: soft delete of a live document. */
  function DeleteEntry(k: Kind, t: Table<Entry>, id: nat): (r: (Response<()>, Table<Entry>))
    ensures r.0.code == 200
    ensures r.0.status <==> IsLive(t, id)
    ensures !r.0.status ==> r == (Refuse(NotFoundMessage(k)), t)
    ensures r.0.status ==> r.0.message == DeletedMessage(k)
    ensures r.0.status ==> |r.1| == |t| && !IsLive(r.1, id) && r.1[id].doc == t[id].doc
    ensures forall j :: 0 <= j < |t| && j != id ==> r.1[j] == t[j]
  {
    if !IsLive(t, id) then (Refuse(NotFoundMessage(k)), t)
    else (Ok(DeletedMessage(k), None), SoftDelete(t, id))
  }

  // ---------------------------------------------------------------------
  // How the handlers fit together
  // ---------------------------------------------------------------------

  /** A document just added can be fetched back by the identifier the add
      returned. */
  lemma AddThenGetOne(k: Kind, t: Table<Entry>, caller: nat, tag: string, date: string, amount: real)
    requires AddEntry(k, t, caller, tag, date, amount).0.status
    ensures var r := AddEntry(k, t, caller, tag, date, amount);
            GetOneEntry(k, r.1, r.0.payload.value.id)
              == Ok(FetchedMessage(k), Some([Entry(tag, ParseDate(date), amount, caller)]))
  {
  }

  /** After a delete the document is gone for fetch, update and a second
      delete; the table still holds it. */
  lemma DeleteHidesDocument(k: Kind, t: Table<Entry>, id: nat, patch: Patch)
    requires DeleteEntry(k, t, id).0.status
    ensures var t' := DeleteEntry(k, t, id).1;
            && GetOneEntry(k, t', id) == RefuseWith(NoneFoundCode(k), NoneFoundMessage(k))
            && DeleteEntry(k, t', id) == (Refuse(NotFoundMessage(k)), t')
            && UpdateEntry(k, t', id, patch).1 == t'
  {
  }

  /** An update that passes its checks reports success even when no
      document has that identifier, and then changes nothing. */
  lemma UpdateOfMissingSucceeds(k: Kind, t: Table<Entry>, id: nat, patch: Patch)
    requires !IsLive(t, id) && PatchError(k, patch).None?
    ensures UpdateEntry(k, t, id, patch) == (Ok(UpdatedMessage(k), None), t)
  {
  }

  /** The length check of an update is skipped for an empty text field,
      which then replaces the stored one. */
  lemma EmptyTagBypassesCheck(k: Kind, t: Table<Entry>, id: nat)
    requires IsLive(t, id)
    ensures var r := UpdateEntry(k, t, id, Patch(None, None, Some(""), None, None));
            r.0.status && r.1[id].doc.tag == ""
  {
  }

  /** A body `userId` passes the checks untouched and moves a live entry
      to that owner, keeping every other row. */
  lemma UpdateMovesOwner(k: Kind, t: Table<Entry>, id: nat, other: nat)
    requires IsLive(t, id)
    ensures var r := UpdateEntry(k, t, id, Patch(None, None, None, Some(other), None));
            && r.0 == Ok(UpdatedMessage(k), None)
            && r.1[id] == Row(t[id].doc.(owner := other), false)
            && (forall j :: 0 <= j < |t| && j != id ==> r.1[j] == t[j])
  {
  }

  /** A body `deleted: true` soft-deletes a live entry through an update:
      fetching it afterwards fails as after `deleteIncome` / `deleteExpense`,
      and the table still holds the document. */
  lemma UpdateSoftDeletes(k: Kind, t: Table<Entry>, id: nat)
    requires IsLive(t, id)
    ensures var r := UpdateEntry(k, t, id, Patch(None, None, None, None, Some(true)));
            && r.0.status
            && r.1 == DeleteEntry(k, t, id).1
            && GetOneEntry(k, r.1, id) == RefuseWith(NoneFoundCode(k), NoneFoundMessage(k))
  {
  }
}
