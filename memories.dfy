/** The `memories` table: one row per user holding that user's whole list of memory notes.
    The row is the first one in table order whose `email` matches. */
module Memories {
  import opened Wrappers
  import opened Tables

  datatype MemoryEntry = MemoryEntry(category: string, content: string, createdAt: Option<int>)

  datatype MemoriesRow = MemoriesRow(email: string, memories: seq<MemoryEntry>, updatedAt: int)

  /** The `by_email` index condition. */
  function OfUser(email: string): MemoriesRow -> bool {
    (r: MemoriesRow) => r.email == email
  }

  /** `.withIndex("by_email", …).first()`: the id of the user's row, if any. */
  function UserRow(db: Table<MemoriesRow>, email: string): (r: Option<Id>)
    reads db
    ensures r.Some? ==> r.value in db.rows && db.rows[r.value].email == email
    ensures r.Some? ==> forall j :: j in db.rows && j < r.value ==> db.rows[j].email != email
    ensures r.None? && db.Valid() ==> forall j :: j in db.rows ==> db.rows[j].email != email
  {
    FirstMatch(db.rows, db.nextId, OfUser(email))
  }

  /** `getMemories`: the empty list when the user has no row, otherwise the stored list
      exactly as it was saved. */
  function GetMemories(db: Table<MemoriesRow>, email: string): (r: seq<MemoryEntry>)
    reads db
    ensures UserRow(db, email).None? ==> r == []
    ensures UserRow(db, email).Some? ==> r == db.rows[UserRow(db, email).value].memories
  {
    match UserRow(db, email)
    case None => []
    case Some(id) => db.rows[id].memories
  }

  /** `saveMemories`: an existing row is patched and its id returned; without one a row is
      inserted. The stored list is replaced wholesale, so `getMemories` then gives back exactly
      `memories`, and every other row is left as it was. */
  method SaveMemories(db: Table<MemoriesRow>, email: string, memories: seq<MemoryEntry>, now: int)
    returns (id: Id)
    requires db.Valid()
    modifies db
    ensures db.Valid()
    ensures old(UserRow(db, email)).Some? ==>
      && id == old(UserRow(db, email)).value
      && db.rows == old(db.rows)[id := old(db.rows)[id].(memories := memories, updatedAt := now)]
    ensures old(UserRow(db, email)).None? ==>
      id !in old(db.rows) && db.rows == old(db.rows)[id := MemoriesRow(email, memories, now)]
    ensures UserRow(db, email) == Some(id) && GetMemories(db, email) == memories
  {
    var existing := UserRow(db, email);
    if existing.Some? {
      id := existing.value;
      var ok := db.Patch(id, (r: MemoriesRow) => r.(memories := memories, updatedAt := now));
      FirstMatchStable(old(db.rows), db.rows, db.nextId, OfUser(email));
      return;
    }
    id := db.Insert(MemoriesRow(email, memories, now));
  }
}
