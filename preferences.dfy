/** The `preferences` table: one row per user holding the questionnaire answers (an opaque
    JSON value) and whether the questionnaire was completed. */
module Preferences {
  import opened Wrappers
  import opened Values
  import opened Tables

  datatype PreferencesRow = PreferencesRow(email: string, answers: Value, complete: bool, updatedAt: int)

  /** What `getPreferences` hands out: the answers and the completion flag, nothing else. */
  datatype Prefs = Prefs(answers: Value, complete: bool)

  /** The `by_email` index condition. */
  function OfUser(email: string): PreferencesRow -> bool {
    (r: PreferencesRow) => r.email == email
  }

  /** `.withIndex("by_email", …).first()`: the id of the user's row, if any. */
  function UserRow(db: Table<PreferencesRow>, email: string): (r: Option<Id>)
    reads db
    ensures r.Some? ==> r.value in db.rows && db.rows[r.value].email == email
    ensures r.Some? ==> forall j :: j in db.rows && j < r.value ==> db.rows[j].email != email
    ensures r.None? && db.Valid() ==> forall j :: j in db.rows ==> db.rows[j].email != email
  {
    FirstMatch(db.rows, db.nextId, OfUser(email))
  }

  /** `getPreferences`: null when the user has no row, otherwise exactly the stored answers
      and flag. */
  function GetPreferences(db: Table<PreferencesRow>, email: string): (r: Option<Prefs>)
    reads db
    ensures r.None? <==> UserRow(db, email).None?
    ensures r.Some? ==>
      var row := db.rows[UserRow(db, email).value];
      r.value.answers == row.answers && r.value.complete == row.complete
  {
    match UserRow(db, email)
    case None => None
    case Some(id) => Some(Prefs(db.rows[id].answers, db.rows[id].complete))
  }

  /** `savePreferences`: an existing row gets the new `answers` and `complete` and keeps its
      id; without one a row is inserted. `getPreferences` then gives back exactly what was
      saved, and every other row is left as it was. */
  method SavePreferences(db: Table<PreferencesRow>, email: string, answers: Value, complete: bool, now: int)
    returns (id: Id)
    requires db.Valid()
    modifies db
    ensures db.Valid()
    ensures old(UserRow(db, email)).Some? ==>
      && id == old(UserRow(db, email)).value
      && db.rows == old(db.rows)[id := old(db.rows)[id].(answers := answers, complete := complete, updatedAt := now)]
    ensures old(UserRow(db, email)).None? ==>
      id !in old(db.rows) && db.rows == old(db.rows)[id := PreferencesRow(email, answers, complete, now)]
    ensures UserRow(db, email) == Some(id) && GetPreferences(db, email) == Some(Prefs(answers, complete))
  {
    var existing := UserRow(db, email);
    if existing.Some? {
      id := existing.value;
      var ok := db.Patch(id, (r: PreferencesRow) => r.(answers := answers, complete := complete, updatedAt := now));
      FirstMatchStable(old(db.rows), db.rows, db.nextId, OfUser(email));
      return;
    }
    id := db.Insert(PreferencesRow(email, answers, complete, now));
  }
}
