/** An in-memory collection with soft delete, standing for a Mongoose model
    with the mongoose-delete plugin (`overrideMethods: true`). Deleting a
    document only sets its `deleted` flag; the overridden `find`, `findOne`,
    `findById` and `updateOne` see live documents only, `findOneDeleted`
    sees deleted ones only. Documents are never physically removed, so a
    document's identifier is its position in the table. */
module Store {
  import opened Replies

  datatype Row<T> = Row(doc: T, deleted: bool)

  type Table<T> = seq<Row<T>>

  /** A document returned together with its identifier. */
  datatype Stored<T> = Stored(id: nat, doc: T)

  /** `id` names a document the overridden queries can see. */
  predicate IsLive<T>(t: Table<T>, id: nat)
  {
    id < |t| && !t[id].deleted
  }

  /** `save()` of a new document: it gets the next identifier. */
  function Insert<T>(t: Table<T>, doc: T): Table<T>
  {
    t + [Row(doc, false)]
  }

  /** `Model.delete({_id: id})`: the document is kept, flagged deleted. */
  function SoftDelete<T>(t: Table<T>, id: nat): (r: Table<T>)
    requires id < |t|
    ensures |r| == |t| && !IsLive(r, id) && r[id].doc == t[id].doc
    ensures forall j :: 0 <= j < |t| && j != id ==> r[j] == t[j]
  {
    t[id := Row(t[id].doc, true)]
  }

  /** Replace the document with identifier `id`, keeping its flag. */
  function Replace<T>(t: Table<T>, id: nat, doc: T): (r: Table<T>)
    requires id < |t|
    ensures |r| == |t| && r[id] == Row(doc, t[id].deleted)
    ensures forall j :: 0 <= j < |t| && j != id ==> r[j] == t[j]
  {
    t[id := Row(doc, t[id].deleted)]
  }

  /** Some live document satisfies `p` (`findOne(q)` is not null). */
  predicate AnyLive<T>(t: Table<T>, p: T -> bool)
  {
    exists j :: 0 <= j < |t| && !t[j].deleted && p(t[j].doc)
  }

  /** Some deleted document satisfies `p` (`findOneDeleted(q)` is not null). */
  predicate AnyDeleted<T>(t: Table<T>, p: T -> bool)
  {
    exists j :: 0 <= j < |t| && t[j].deleted && p(t[j].doc)
  }

  /** The identifier of `find(q)[0]`: the first live document, in
      insertion order, satisfying `p`. */
  function FirstLive<T>(t: Table<T>, p: T -> bool): (r: Option<nat>)
    ensures r.Some? ==> IsLive(t, r.value) && p(t[r.value].doc)
    ensures r.Some? ==> forall j :: 0 <= j < r.value ==> !(IsLive(t, j) && p(t[j].doc))
    ensures r.None? <==> !AnyLive(t, p)
  {
    FirstLiveFrom(t, p, 0)
  }

  function FirstLiveFrom<T>(t: Table<T>, p: T -> bool, from: nat): (r: Option<nat>)
    requires from <= |t|
    ensures r.Some? ==> from <= r.value && IsLive(t, r.value) && p(t[r.value].doc)
    ensures r.Some? ==> forall j :: from <= j < r.value ==> !(IsLive(t, j) && p(t[j].doc))
    ensures r.None? ==> forall j :: from <= j < |t| ==> !(IsLive(t, j) && p(t[j].doc))
    decreases |t| - from
  {
    if from == |t| then None
    else if !t[from].deleted && p(t[from].doc) then Some(from)
    else FirstLiveFrom(t, p, from + 1)
  }

  /** `s` lists distinct positions in increasing order. */
  predicate Increasing(s: seq<nat>)
  {
    forall i, k :: 0 <= i < k < |s| ==> s[i] < s[k]
  }

  /** The positions of the documents `find(q)` returns: every live document
      satisfying `p`, each once, in insertion order. */
  function LiveIndices<T>(t: Table<T>, p: T -> bool): (ix: seq<nat>)
    ensures Increasing(ix) && |ix| <= |t|
    ensures forall i :: 0 <= i < |ix| ==> ix[i] < |t| && IsLive(t, ix[i]) && p(t[ix[i]].doc)
    ensures forall j :: 0 <= j < |t| && IsLive(t, j) && p(t[j].doc) ==> j in ix
  {
    if |t| == 0 then []
    else
      var init := LiveIndices(t[..|t| - 1], p);
      assert forall j :: 0 <= j < |t| - 1 ==> t[..|t| - 1][j] == t[j];
      if !t[|t| - 1].deleted && p(t[|t| - 1].doc) then init + [|t| - 1] else init
  }

  /** `r` lists the live documents satisfying `p`: one entry per such row,
      in insertion order, and nothing else. */
  ghost predicate Enumerates<T>(t: Table<T>, p: T -> bool, r: seq<T>)
  {
    && |r| == |LiveIndices(t, p)|
    && forall i :: 0 <= i < |r| ==> r[i] == t[LiveIndices(t, p)[i]].doc
  }

  /** Two increasing sequences with the same elements are equal: the
      contract of `LiveIndices` fixes its result, multiplicity and order
      included. */
  lemma {:induction false} IncreasingSameElements(a: seq<nat>, b: seq<nat>)
    requires Increasing(a) && Increasing(b)
    requires forall x :: x in a <==> x in b
    ensures a == b
    decreases |a| + |b|
  {
    assert |a| > 0 ==> a[0] in b;
    assert |b| > 0 ==> b[0] in a;
    if |a| > 0 && |b| > 0 {
      var k :| 0 <= k < |b| && b[k] == a[0];
      var m :| 0 <= m < |a| && a[m] == b[0];
      assert a[0] <= a[m] && b[0] <= b[k];
      forall x
        ensures x in a[1..] <==> x in b[1..]
      {
        if x in a[1..] {
          var i :| 1 <= i < |a| && a[i] == x;
          assert x in b && x != b[0];
        }
        if x in b[1..] {
          var i :| 1 <= i < |b| && b[i] == x;
          assert x in a && x != a[0];
        }
      }
      IncreasingSameElements(a[1..], b[1..]);
      assert a == [a[0]] + a[1..] && b == [b[0]] + b[1..];
    }
  }

  /** `find(q)`: the live documents satisfying `p`, one per stored row, in
      insertion order. */
  function LiveWhere<T>(t: Table<T>, p: T -> bool): (r: seq<T>)
    ensures Enumerates(t, p, r) && |r| <= |t|
    ensures forall j :: 0 <= j < |t| && IsLive(t, j) && p(t[j].doc) ==> t[j].doc in r
    ensures forall i :: 0 <= i < |r| ==> p(r[i]) && exists j :: 0 <= j < |t| && IsLive(t, j) && t[j].doc == r[i]
  {
    var ix := LiveIndices(t, p);
    var r := seq(|ix|, i requires 0 <= i < |ix| => t[ix[i]].doc);
    assert Enumerates(t, p, r);
    EnumeratesMembers(t, p, r);
    r
  }

  /** A listing of the live documents satisfying `p` holds each of them,
      and only documents of live rows satisfying `p`. */
  lemma EnumeratesMembers<T>(t: Table<T>, p: T -> bool, r: seq<T>)
    requires Enumerates(t, p, r)
    ensures forall j :: 0 <= j < |t| && IsLive(t, j) && p(t[j].doc) ==> t[j].doc in r
    ensures forall i :: 0 <= i < |r| ==> p(r[i]) && exists j :: 0 <= j < |t| && IsLive(t, j) && t[j].doc == r[i]
  {
    var ix := LiveIndices(t, p);
    forall j | 0 <= j < |t| && IsLive(t, j) && p(t[j].doc)
      ensures t[j].doc in r
    {
      var i :| 0 <= i < |ix| && ix[i] == j;
      assert r[i] == t[j].doc;
    }
    forall i | 0 <= i < |r|
      ensures p(r[i]) && exists j :: 0 <= j < |t| && IsLive(t, j) && t[j].doc == r[i]
    {
      assert IsLive(t, ix[i]) && t[ix[i]].doc == r[i];
    }
  }

  /** Any listing of the live documents satisfying `p`, one per row in
      insertion order, is the result of `find(q)`. */
  lemma LiveWhereUnique<T>(t: Table<T>, p: T -> bool, ix: seq<nat>, r: seq<T>)
    requires Increasing(ix)
    requires forall i :: 0 <= i < |ix| ==> ix[i] < |t| && IsLive(t, ix[i]) && p(t[ix[i]].doc)
    requires forall j :: 0 <= j < |t| && IsLive(t, j) && p(t[j].doc) ==> j in ix
    requires |r| == |ix| && forall i :: 0 <= i < |r| ==> r[i] == t[ix[i]].doc
    ensures Enumerates(t, p, r) && r == LiveWhere(t, p)
  {
    var live := LiveIndices(t, p);
    forall x
      ensures x in ix <==> x in live
    {
      if x in ix {
        var i :| 0 <= i < |ix| && ix[i] == x;
      }
      if x in live {
        var i :| 0 <= i < |live| && live[i] == x;
      }
    }
    IncreasingSameElements(ix, live);
    var q := LiveWhere(t, p);
    assert |q| == |r|;
    assert forall i :: 0 <= i < |r| ==> r[i] == q[i];
  }

  /** The empty query `{}`, which every document satisfies. */
  function All<T>(): T -> bool
  {
    (x: T) => true
  }

  /** `find()` with no filter: every live document, one per row, in
      insertion order. */
  function LiveDocs<T>(t: Table<T>): (r: seq<T>)
    ensures Enumerates(t, All(), r)
    ensures |r| == 0 <==> forall j :: 0 <= j < |t| ==> t[j].deleted
  {
    LiveWhereEmpty(t, All());
    LiveWhere(t, All())
  }

  /** `find(q)` is empty exactly when no live document satisfies `p`. */
  lemma {:induction false} LiveWhereEmpty<T>(t: Table<T>, p: T -> bool)
    ensures |LiveWhere(t, p)| == 0 <==> !AnyLive(t, p)
  {
    if AnyLive(t, p) {
      var j :| 0 <= j < |t| && !t[j].deleted && p(t[j].doc);
      assert t[j].doc in LiveWhere(t, p);
    }
    var r := LiveWhere(t, p);
    if |r| > 0 {
      var j :| 0 <= j < |t| && IsLive(t, j) && t[j].doc == r[0];
      assert p(t[j].doc);
    }
  }

  /** Appending a live document that satisfies `p` puts it at the end of
      `find(q)`; every earlier result stays. */
  lemma LiveWhereInsert<T>(t: Table<T>, p: T -> bool, doc: T)
    ensures LiveWhere(Insert(t, doc), p) == LiveWhere(t, p) + (if p(doc) then [doc] else [])
  {
    assert Insert(t, doc)[..|t|] == t;
  }

  /** `find(q)[0]` depends only on which documents are live and which
      satisfy `p`. */
  lemma FirstLiveStable<T>(t: Table<T>, t': Table<T>, p: T -> bool)
    requires |t'| == |t|
    requires forall k :: 0 <= k < |t| ==> t'[k].deleted == t[k].deleted && p(t'[k].doc) == p(t[k].doc)
    ensures FirstLive(t', p) == FirstLive(t, p)
  {
    var a := FirstLive(t, p);
    var b := FirstLive(t', p);
    if a.Some? {
      assert !t'[a.value].deleted && p(t'[a.value].doc);
    }
    if b.Some? {
      assert !t[b.value].deleted && p(t[b.value].doc);
    }
  }

  /** A document appended when no live document matched becomes the first
      match. */
  lemma FirstLiveAfterInsert<T>(t: Table<T>, p: T -> bool, doc: T)
    requires !AnyLive(t, p) && p(doc)
    ensures FirstLive(Insert(t, doc), p) == Some(|t|)
  {
    var t' := Insert(t, doc);
    assert !t'[|t|].deleted && p(t'[|t|].doc);
    assert forall k :: 0 <= k < |t| ==> t'[k] == t[k];
  }
}
