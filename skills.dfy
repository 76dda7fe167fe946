/** The `skills` table: one row per user holding that user's whole list of prompt templates.
    The row is the first one in table order whose `email` matches. */
module Skills {
  import opened Wrappers
  import opened Seqs
  import opened Tables

  datatype Skill = Skill(name: string, description: string, template: string, isCustom: bool)

  datatype SkillRow = SkillRow(email: string, skills: seq<Skill>, updatedAt: int)

  /** The `by_email` index condition. */
  function OfUser(email: string): SkillRow -> bool {
    (r: SkillRow) => r.email == email
  }

  /** `.withIndex("by_email", …).first()`: the id of the user's row, if any. */
  function UserRow(db: Table<SkillRow>, email: string): (r: Option<Id>)
    reads db
    ensures r.Some? ==> r.value in db.rows && db.rows[r.value].email == email
    ensures r.Some? ==> forall j :: j in db.rows && j < r.value ==> db.rows[j].email != email
    ensures r.None? && db.Valid() ==> forall j :: j in db.rows ==> db.rows[j].email != email
  {
    FirstMatch(db.rows, db.nextId, OfUser(email))
  }

  /** `getSkills`: the list in the user's row, and the empty list when there is no row. */
  function GetSkills(db: Table<SkillRow>, email: string): (r: seq<Skill>)
    reads db
    ensures UserRow(db, email).None? ==> r == []
    ensures UserRow(db, email).Some? ==> r == db.rows[UserRow(db, email).value].skills
  {
    match UserRow(db, email)
    case None => []
    case Some(id) => db.rows[id].skills
  }

  /** Writes `skills` as the user's list: the existing row is patched and keeps its id;
      without one a row is inserted. Every other row is left as it was. */
  method PutSkills(db: Table<SkillRow>, email: string, skills: seq<Skill>, now: int) returns (id: Id)
    requires db.Valid()
    modifies db
    ensures db.Valid()
    ensures old(UserRow(db, email)).Some? ==>
      && id == old(UserRow(db, email)).value
      && db.rows == old(db.rows)[id := old(db.rows)[id].(skills := skills, updatedAt := now)]
    ensures old(UserRow(db, email)).None? ==>
      id !in old(db.rows) && db.rows == old(db.rows)[id := SkillRow(email, skills, now)]
    ensures UserRow(db, email) == Some(id) && GetSkills(db, email) == skills
  {
    var existing := UserRow(db, email);
    if existing.Some? {
      id := existing.value;
      var ok := db.Patch(id, (r: SkillRow) => r.(skills := skills, updatedAt := now));
      FirstMatchStable(old(db.rows), db.rows, db.nextId, OfUser(email));
      return;
    }
    id := db.Insert(SkillRow(email, skills, now));
  }

  /** `saveSkills`: the stored list is replaced wholesale by `skills`, in place when the user
      has a row and in a new row otherwise; `getSkills` then gives back exactly `skills`. */
  method SaveSkills(db: Table<SkillRow>, email: string, skills: seq<Skill>, now: int) returns (id: Id)
    requires db.Valid()
    modifies db
    ensures db.Valid()
    ensures old(UserRow(db, email)).Some? ==> id == old(UserRow(db, email)).value && db.rows.Keys == old(db.rows).Keys
    ensures old(UserRow(db, email)).None? ==> id !in old(db.rows) && db.rows.Keys == old(db.rows).Keys + {id}
    ensures forall j :: j in old(db.rows) && j != id ==> db.rows[j] == old(db.rows)[j]
    ensures GetSkills(db, email) == skills
  {
    id := PutSkills(db, email, skills, now);
  }

  /** `addSkill`: the skill goes at the end of the user's list, the rest keeping their order;
      a user without a row gets one holding just this skill. */
  method AddSkill(db: Table<SkillRow>, email: string, skill: Skill, now: int) returns (id: Id)
    requires db.Valid()
    modifies db
    ensures db.Valid()
    ensures old(UserRow(db, email)).Some? ==> id == old(UserRow(db, email)).value && db.rows.Keys == old(db.rows).Keys
    ensures old(UserRow(db, email)).None? ==> id !in old(db.rows) && db.rows.Keys == old(db.rows).Keys + {id}
    ensures forall j :: j in old(db.rows) && j != id ==> db.rows[j] == old(db.rows)[j]
    ensures GetSkills(db, email) == old(GetSkills(db, email)) + [skill]
  {
    var current := GetSkills(db, email);
    id := PutSkills(db, email, current + [skill], now);
  }

  /** `deleteSkill`: null, with nothing changed, when the user has no row; otherwise exactly
      the element at `skillIndex` leaves the list (none when the index is out of range) and
      the row's id is returned. */
  method DeleteSkill(db: Table<SkillRow>, email: string, skillIndex: int, now: int) returns (r: Option<Id>)
    requires db.Valid()
    modifies db
    ensures db.Valid()
    ensures r == old(UserRow(db, email))
    ensures r.None? ==> db.rows == old(db.rows)
    ensures r.Some? ==> db.rows.Keys == old(db.rows).Keys
    ensures forall j :: j in old(db.rows) && Some(j) != r ==> db.rows[j] == old(db.rows)[j]
    ensures GetSkills(db, email) == RemoveAt(old(GetSkills(db, email)), skillIndex)
  {
    r := UserRow(db, email);
    if r.None? {
      return;
    }
    var updated := RemoveAt(db.rows[r.value].skills, skillIndex);
    var id := PutSkills(db, email, updated, now);
  }
}
