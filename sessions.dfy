/** The `sessions` table: named snapshots of one tab's editable state, scoped to a user
    (`email`) and a tab (`tabType`), with an opaque payload (`data`) the store never inspects. */
module Sessions {
  import opened Wrappers
  import opened Values
  import opened Tables

  datatype Session = Session(
    email: string,
    name: string,
    tabType: string,
    data: Value,
    createdAt: int,
    updatedAt: int)

  /** The index condition of `by_email`. */
  function OfUser(email: string): Session -> bool {
    (s: Session) => s.email == email
  }

  /** The index condition of `by_email_and_tab`. */
  function OfUserAndTab(email: string, tabType: string): Session -> bool {
    (s: Session) => s.email == email && s.tabType == tabType
  }

  /** `getSessions`: the user's sessions over all tabs, newest first. */
  function GetSessions(db: Table<Session>, email: string): (r: seq<Doc<Session>>)
    reads db
    requires db.Valid()
    ensures forall k :: 0 <= k < |r| ==>
      r[k].id in db.rows && r[k].value == db.rows[r[k].id] && r[k].value.email == email
    ensures forall id :: id in db.rows && db.rows[id].email == email ==> Doc(id, db.rows[id]) in r
    ensures forall k, l :: 0 <= k < l < |r| ==> r[k].id > r[l].id
  {
    CollectDesc(db.rows, db.nextId, OfUser(email))
  }

  /** `getSessionsByTab`: the user's sessions of one tab, newest first. */
  function GetSessionsByTab(db: Table<Session>, email: string, tabType: string): (r: seq<Doc<Session>>)
    reads db
    requires db.Valid()
    ensures forall k :: 0 <= k < |r| ==>
      r[k].id in db.rows && r[k].value == db.rows[r[k].id]
      && r[k].value.email == email && r[k].value.tabType == tabType
    ensures forall id :: (id in db.rows && db.rows[id].email == email && db.rows[id].tabType == tabType
      ==> Doc(id, db.rows[id]) in r)
    ensures forall k, l :: 0 <= k < l < |r| ==> r[k].id > r[l].id
  {
    CollectDesc(db.rows, db.nextId, OfUserAndTab(email, tabType))
  }

  /** `getSession`: the session stored under `sessionId`, or null. */
  function GetSession(db: Table<Session>, sessionId: Id): (r: Option<Session>)
    reads db
    ensures r.Some? <==> sessionId in db.rows
    ensures r.Some? ==> r.value == db.rows[sessionId]
  {
    if sessionId in db.rows then Some(db.rows[sessionId]) else None
  }

  /** `createSession`: a new record holding the arguments verbatim, both timestamps `now`. */
  method CreateSession(db: Table<Session>, email: string, name: string, tabType: string,
                       data: Value, now: int) returns (id: Id)
    requires db.Valid()
    modifies db
    ensures db.Valid()
    ensures id !in old(db.rows) && forall j :: j in old(db.rows) ==> j < id
    ensures db.rows == old(db.rows)[id := Session(email, name, tabType, data, now, now)]
  {
    id := db.Insert(Session(email, name, tabType, data, now, now));
  }

  /** `updateSession`: a partial update. `name` and `data` change only when supplied,
      `updatedAt` always becomes `now`, and `email`, `tabType`, `createdAt` and every other
      record stay as they were. A missing id makes the patch raise (`ok == false`). */
  method UpdateSession(db: Table<Session>, sessionId: Id, name: Option<string>, data: Option<Value>,
                       now: int) returns (ok: bool)
    requires db.Valid()
    modifies db
    ensures db.Valid()
    ensures ok == (sessionId in old(db.rows))
    ensures db.rows.Keys == old(db.rows).Keys
    ensures forall id :: id in old(db.rows) && id != sessionId ==> db.rows[id] == old(db.rows)[id]
    ensures ok ==>
      var before := old(db.rows)[sessionId];
      var after := db.rows[sessionId];
      && after.name == (if name.Some? then name.value else before.name)
      && after.data == (if data.Some? then data.value else before.data)
      && after.updatedAt == now
      && after.email == before.email && after.tabType == before.tabType
      && after.createdAt == before.createdAt
  {
    ok := db.Patch(sessionId, (s: Session) =>
      var s1 := s.(updatedAt := now);
      var s2 := if name.Some? then s1.(name := name.value) else s1;
      if data.Some? then s2.(data := data.value) else s2);
  }

  /** `renameSession`: only `name` and `updatedAt` of the target change. */
  method RenameSession(db: Table<Session>, sessionId: Id, name: string, now: int) returns (ok: bool)
    requires db.Valid()
    modifies db
    ensures db.Valid()
    ensures ok == (sessionId in old(db.rows))
    ensures db.rows == if ok then old(db.rows)[sessionId := old(db.rows)[sessionId].(name := name, updatedAt := now)]
                       else old(db.rows)
  {
    ok := db.Patch(sessionId, (s: Session) => s.(name := name, updatedAt := now));
  }

  /** `deleteSession`: removes exactly `sessionId`; every other record is unchanged. */
  method DeleteSession(db: Table<Session>, sessionId: Id) returns (ok: bool)
    requires db.Valid()
    modifies db
    ensures db.Valid()
    ensures ok == (sessionId in old(db.rows))
    ensures db.rows == old(db.rows) - {sessionId}
  {
    ok := db.Delete(sessionId);
  }

  /** `duplicateSession`: a missing original raises "Session not found" and inserts nothing;
      otherwise a new record copies the original's `email`, `tabType` and `data`, takes
      `newName` and fresh equal timestamps, and the original is left as it was. */
  method DuplicateSession(db: Table<Session>, sessionId: Id, newName: string, now: int)
    returns (r: Result<Id>)
    requires db.Valid()
    modifies db
    ensures db.Valid()
    ensures sessionId !in old(db.rows) ==> r == Err("Session not found") && db.rows == old(db.rows)
    ensures sessionId in old(db.rows) ==>
      var original := old(db.rows)[sessionId];
      && r.Ok? && r.value !in old(db.rows)
      && db.rows == old(db.rows)[r.value := Session(original.email, newName, original.tabType,
                                                     original.data, now, now)]
  {
    if sessionId !in db.rows {
      return Err("Session not found");
    }
    var original := db.rows[sessionId];
    var id := db.Insert(Session(original.email, newName, original.tabType, original.data, now, now));
    return Ok(id);
  }

  /** The documents of `docs` that belong to tab `tabType`, in their order. */
  function OfTab(docs: seq<Doc<Session>>, tabType: string): seq<Doc<Session>> {
    if |docs| == 0 then []
    else (if docs[0].value.tabType == tabType then [docs[0]] else []) + OfTab(docs[1..], tabType)
  }

  lemma {:induction false} CollectByTab(rows: map<Id, Session>, bound: nat, email: string, tabType: string)
    ensures CollectDesc(rows, bound, OfUserAndTab(email, tabType))
         == OfTab(CollectDesc(rows, bound, OfUser(email)), tabType)
  {
    if bound > 0 {
      CollectByTab(rows, bound - 1, email, tabType);
      var byUser := CollectDesc(rows, bound - 1, OfUser(email));
      if bound - 1 in rows && rows[bound - 1].email == email {
        var d := Doc(bound - 1, rows[bound - 1]);
        assert ([d] + byUser)[1..] == byUser;
      }
    }
  }

  /** The per-tab listing is the user's listing restricted to that tab, in the same order:
      other tabs and other users never show up, and nothing of the tab is missing. */
  lemma ByTabIsFilteredByUser(db: Table<Session>, email: string, tabType: string)
    requires db.Valid()
    ensures GetSessionsByTab(db, email, tabType) == OfTab(GetSessions(db, email), tabType)
  {
    CollectByTab(db.rows, db.nextId, email, tabType);
  }

  /** The worked example of a create, an update of the payload only, and a read: the read
      returns the new payload under the old name, owner and tab, created at `t0` and updated
      at `t1`. */
  method UpdateThenGetScenario(t0: int, t1: int) returns (id: Id, got: Option<Session>)
    ensures got == Some(Session("alice@x.com", "My Profile", "preferences",
                                Obj([("role", Str("Designer"))]), t0, t1))
  {
    var db := new Table<Session>();
    id := CreateSession(db, "alice@x.com", "My Profile", "preferences", Obj([("role", Str("Developer"))]), t0);
    var ok := UpdateSession(db, id, None, Some(Obj([("role", Str("Designer"))])), t1);
    got := GetSession(db, id);
  }

  /** A duplicate is independent of its original: rewriting the copy's payload leaves the
      original's payload as it was, and deleting twice leaves the table as one delete did. */
  method DuplicateIndependenceScenario(db: Table<Session>, original: Id, payload: Value, now: int)
    returns (copy: Result<Id>, second: bool)
    requires db.Valid() && original in db.rows
    modifies db
    ensures copy.Ok? && copy.value != original
    ensures original in db.rows && db.rows[original] == old(db.rows[original])
    ensures copy.value !in db.rows && second == false
  {
    copy := DuplicateSession(db, original, "copy", now);
    var ok := UpdateSession(db, copy.value, None, Some(payload), now);
    assert db.rows[original] == old(db.rows[original]);
    ok := DeleteSession(db, copy.value);
    second := DeleteSession(db, copy.value);
  }
}
