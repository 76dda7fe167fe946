/** The document store behind every Convex table: documents keyed by generated ids, with the
    four primitives the modelled mutations use (insert, patch, delete, indexed query). */
module Tables {
  import opened Wrappers

  /** Document ids. Convex ids are opaque; here they come from a counter, so the order in which
      documents were created is the order of their ids, which is the order an index scan
      visits documents with equal index keys. */
  type Id = nat

  /** A document together with its `_id`, as queries return it. */
  datatype Doc<R> = Doc(id: Id, value: R)

  /** `.filter(p).first()` over an index scan: the earliest-created document, below `bound`,
      that satisfies `p`. */
  function FirstMatch<R>(rows: map<Id, R>, bound: nat, p: R -> bool): (r: Option<Id>)
    ensures r.Some? ==> r.value < bound && r.value in rows && p(rows[r.value])
    ensures r.Some? ==> forall j :: 0 <= j < r.value && j in rows ==> !p(rows[j])
    ensures r.None? ==> forall j :: 0 <= j < bound && j in rows ==> !p(rows[j])
  {
    if bound == 0 then None
    else match FirstMatch(rows, bound - 1, p)
      case Some(i) => Some(i)
      case None => if bound - 1 in rows && p(rows[bound - 1]) then Some(bound - 1) else None
  }

  /** Rewriting documents without changing which of them satisfy `p` leaves the first match
      where it was. */
  lemma {:induction false} FirstMatchStable<R>(rows: map<Id, R>, rows': map<Id, R>, bound: nat, p: R -> bool)
    requires rows.Keys == rows'.Keys
    requires forall j :: j in rows ==> p(rows[j]) == p(rows'[j])
    ensures FirstMatch(rows, bound, p) == FirstMatch(rows', bound, p)
  {
    if bound > 0 {
      FirstMatchStable(rows, rows', bound - 1, p);
    }
  }

  /** The ids below `bound` of the documents that satisfy `p`, in creation order. */
  function MatchingIds<R>(rows: map<Id, R>, bound: nat, p: R -> bool): (r: seq<Id>)
    ensures forall k :: 0 <= k < |r| ==> r[k] < bound && r[k] in rows && p(rows[r[k]])
    ensures forall j :: 0 <= j < bound && j in rows && p(rows[j]) ==> j in r
    ensures forall k, l :: 0 <= k < l < |r| ==> r[k] < r[l]
  {
    if bound == 0 then []
    else
      var earlier := MatchingIds(rows, bound - 1, p);
      if bound - 1 in rows && p(rows[bound - 1]) then earlier + [bound - 1] else earlier
  }

  /** `.filter(p).collect()`: every matching document, oldest first. */
  function CollectAsc<R>(rows: map<Id, R>, bound: nat, p: R -> bool): (r: seq<Doc<R>>)
    ensures forall k :: 0 <= k < |r| ==>
      r[k].id < bound && r[k].id in rows && r[k].value == rows[r[k].id] && p(r[k].value)
    ensures forall j :: 0 <= j < bound && j in rows && p(rows[j]) ==> Doc(j, rows[j]) in r
    ensures forall k, l :: 0 <= k < l < |r| ==> r[k].id < r[l].id
  {
    if bound == 0 then []
    else
      var earlier := CollectAsc(rows, bound - 1, p);
      if bound - 1 in rows && p(rows[bound - 1]) then earlier + [Doc(bound - 1, rows[bound - 1])]
      else earlier
  }

  /** The documents `.collect()` returns are exactly the matching ones. */
  lemma CollectAscIds<R>(rows: map<Id, R>, bound: nat, p: R -> bool)
    requires forall j :: j in rows ==> j < bound
    ensures (set k | 0 <= k < |CollectAsc(rows, bound, p)| :: CollectAsc(rows, bound, p)[k].id)
         == set j | j in rows && p(rows[j])
  {
    var r := CollectAsc(rows, bound, p);
    forall j | j in rows && p(rows[j]) ensures exists k :: 0 <= k < |r| && r[k].id == j {
      var k :| 0 <= k < |r| && r[k] == Doc(j, rows[j]);
    }
  }

  /** `.order("desc").collect()`: every matching document, newest first. */
  function CollectDesc<R>(rows: map<Id, R>, bound: nat, p: R -> bool): (r: seq<Doc<R>>)
    ensures forall k :: 0 <= k < |r| ==>
      r[k].id < bound && r[k].id in rows && r[k].value == rows[r[k].id] && p(r[k].value)
    ensures forall j :: 0 <= j < bound && j in rows && p(rows[j]) ==> Doc(j, rows[j]) in r
    ensures forall k, l :: 0 <= k < l < |r| ==> r[k].id > r[l].id
  {
    if bound == 0 then []
    else
      var earlier := CollectDesc(rows, bound - 1, p);
      if bound - 1 in rows && p(rows[bound - 1]) then [Doc(bound - 1, rows[bound - 1])] + earlier
      else earlier
  }

  /** `docs.find(d => d._id === id)`: the first document with that id. */
  function FindById<R>(docs: seq<Doc<R>>, id: Id): (r: Option<Doc<R>>)
    ensures r.Some? ==> r.value in docs && r.value.id == id
    ensures r.Some? ==> forall k :: 0 <= k < |docs| && docs[k].id == id ==> r.value in docs[..k + 1]
    ensures r.None? ==> forall k :: 0 <= k < |docs| ==> docs[k].id != id
  {
    if |docs| == 0 then None
    else if docs[0].id == id then Some(docs[0])
    else
      var rest := FindById(docs[1..], id);
      FirstPastHead(docs, id, rest);
      rest
  }

  /** A document that comes first among the tail's documents with `id` comes first among
      all of them when the head has another id. */
  lemma FirstPastHead<R>(docs: seq<Doc<R>>, id: Id, found: Option<Doc<R>>)
    requires |docs| > 0 && docs[0].id != id
    requires found.Some? ==>
      forall k :: 0 <= k < |docs| - 1 && docs[1..][k].id == id ==> found.value in docs[1..][..k + 1]
    ensures found.Some? ==>
      forall k :: 0 <= k < |docs| && docs[k].id == id ==> found.value in docs[..k + 1]
  {
    if found.Some? {
      forall k | 0 <= k < |docs| && docs[k].id == id
        ensures found.value in docs[..k + 1]
      {
        assert docs[1..][k - 1] == docs[k];
        assert docs[1..][..k] == docs[1..k + 1];
        assert docs[..k + 1] == [docs[0]] + docs[1..k + 1];
      }
    }
  }

  /** `after` is `before` with at most the document `id` rewritten or added: every other
      document keeps its id and its contents. */
  predicate OnlyRowChanged<R(==)>(before: map<Id, R>, after: map<Id, R>, id: Id) {
    && before.Keys <= after.Keys <= before.Keys + {id}
    && forall j :: j in before && j != id ==> after[j] == before[j]
  }

  /** `rows` without the entry `id`, if there is one. */
  function WithoutSome<R>(rows: map<Id, R>, id: Option<Id>): (r: map<Id, R>)
    ensures id.None? ==> r == rows
    ensures id.Some? ==> r == rows - {id.value}
  {
    if id.Some? then rows - {id.value} else rows
  }

  /** One Convex table: the documents by id, and the counter that hands out fresh ids. */
  class Table<R> {
    var rows: map<Id, R>
    var nextId: Id

    /** Every id in use was handed out by the counter. */
    ghost predicate Valid()
      reads this
    {
      forall id :: id in rows ==> id < nextId
    }

    constructor ()
      ensures Valid() && rows == map[] && nextId == 0
    {
      rows := map[];
      nextId := 0;
    }

    /** `ctx.db.insert`: stores `r` under a fresh id, later than every id in use. */
    method Insert(r: R) returns (id: Id)
      requires Valid()
      modifies this
      ensures Valid()
      ensures id == old(nextId) && id !in old(rows)
      ensures forall j :: j in old(rows) ==> j < id
      ensures rows == old(rows)[id := r] && nextId == id + 1
    {
      id := nextId;
      rows := rows[id := r];
      nextId := nextId + 1;
    }

    /** `ctx.db.patch`: rewrites the document `id` by `change`; a missing document makes the
        store raise, which is `ok == false` with nothing changed. */
    method Patch(id: Id, change: R -> R) returns (ok: bool)
      requires Valid()
      modifies this
      ensures Valid() && nextId == old(nextId)
      ensures ok == (id in old(rows))
      ensures rows == if ok then old(rows)[id := change(old(rows)[id])] else old(rows)
    {
      ok := id in rows;
      if ok {
        rows := rows[id := change(rows[id])];
      }
    }

    /** `if (found) await ctx.db.delete(found._id)` after a lookup: removes the document
        found, if any. */
    method DeleteFound(found: Option<Id>)
      requires Valid()
      modifies this
      ensures Valid() && nextId == old(nextId)
      ensures rows == WithoutSome(old(rows), found)
    {
      if found.Some? {
        var ok := Delete(found.value);
      }
    }

    /** `for (const d of docs) await ctx.db.delete(d._id)`: removes the documents of `docs`,
        all of which are stored, one after the other; every other document stays. */
    method DeleteEach(docs: seq<Doc<R>>)
      requires Valid()
      requires forall k :: 0 <= k < |docs| ==> docs[k].id in rows
      modifies this
      ensures Valid() && nextId == old(nextId)
      ensures rows == map j | j in old(rows) && j !in (set k | 0 <= k < |docs| :: docs[k].id) :: old(rows)[j]
    {
      ghost var gone: set<Id> := {};
      var i := 0;
      while i < |docs|
        invariant 0 <= i <= |docs|
        invariant Valid() && nextId == old(nextId)
        invariant gone == set k | 0 <= k < i :: docs[k].id
        invariant rows.Keys == old(rows).Keys - gone
        invariant forall j :: j in rows ==> rows[j] == old(rows)[j]
      {
        rows := rows - {docs[i].id};
        gone := gone + {docs[i].id};
        i := i + 1;
      }
    }

    /** `ctx.db.delete`: removes the document `id`; a missing document makes the store raise,
        which is `ok == false` with nothing changed. */
    method Delete(id: Id) returns (ok: bool)
      requires Valid()
      modifies this
      ensures Valid() && nextId == old(nextId)
      ensures ok == (id in old(rows))
      ensures rows == old(rows) - {id}
    {
      ok := id in rows;
      rows := rows - {id};
    }
  }
}
