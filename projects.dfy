/** The `projects` table: per-user project documents, each a name and an ordered list of titled
    sections. A project is found by (email, name); the first match in table order wins. */
module Projects {
  import opened Wrappers
  import opened Seqs
  import opened Tables

  datatype Section = Section(title: string, content: string)

  datatype Project = Project(
    email: string,
    name: string,
    sections: seq<Section>,
    createdAt: int,
    updatedAt: int)

  /** The `by_email` index condition. */
  function OfUser(email: string): Project -> bool {
    (p: Project) => p.email == email
  }

  /** The `by_email` index followed by `.filter(name == …)`. */
  function Named(email: string, name: string): Project -> bool {
    (p: Project) => p.email == email && p.name == name
  }

  /** `getProjects`: every project of the user, in table order. */
  function GetProjects(db: Table<Project>, email: string): (r: seq<Doc<Project>>)
    reads db
    ensures forall k :: 0 <= k < |r| ==>
      r[k].id in db.rows && r[k].value == db.rows[r[k].id] && r[k].value.email == email
    ensures forall id :: id < db.nextId && id in db.rows && db.rows[id].email == email ==>
      Doc(id, db.rows[id]) in r
    ensures forall k, l :: 0 <= k < l < |r| ==> r[k].id < r[l].id
  {
    CollectAsc(db.rows, db.nextId, OfUser(email))
  }

  /** `getProject`: the first project of the user with that name, or nothing. */
  function GetProject(db: Table<Project>, email: string, name: string): (r: Option<Doc<Project>>)
    reads db
    requires db.Valid()
    ensures r.Some? ==>
      && r.value.id in db.rows && r.value.value == db.rows[r.value.id]
      && r.value.value.email == email && r.value.value.name == name
      && forall j :: j in db.rows && j < r.value.id ==> !(db.rows[j].email == email && db.rows[j].name == name)
    ensures r.None? ==> forall j :: j in db.rows ==> !(db.rows[j].email == email && db.rows[j].name == name)
  {
    match FirstMatch(db.rows, db.nextId, Named(email, name))
    case None => None
    case Some(id) => Some(Doc(id, db.rows[id]))
  }

  /** `saveProject`: an upsert keyed by (email, name). An existing project gets the new
      sections and `updatedAt` and keeps its id, owner, name and `createdAt`; otherwise a new
      project is inserted. Either way `getProject` then finds the saved sections. */
  method SaveProject(db: Table<Project>, email: string, name: string, sections: seq<Section>, now: int)
    returns (id: Id)
    requires db.Valid()
    modifies db
    ensures db.Valid()
    ensures old(GetProject(db, email, name)).Some? ==>
      && id == old(GetProject(db, email, name)).value.id
      && db.rows == old(db.rows)[id := old(db.rows)[id].(sections := sections, updatedAt := now)]
    ensures old(GetProject(db, email, name)).None? ==>
      && id !in old(db.rows)
      && db.rows == old(db.rows)[id := Project(email, name, sections, now, now)]
    ensures GetProject(db, email, name).Some? && GetProject(db, email, name).value.id == id
    ensures GetProject(db, email, name).value.value.sections == sections
  {
    var existing := GetProject(db, email, name);
    if existing.Some? {
      id := existing.value.id;
      var ok := db.Patch(id, (p: Project) => p.(sections := sections, updatedAt := now));
      FirstMatchStable(old(db.rows), db.rows, db.nextId, Named(email, name));
      return;
    }
    id := db.Insert(Project(email, name, sections, now, now));
  }

  /** `deleteProject`: removes the first project with that (email, name) and returns its id;
      with no match nothing is removed and nothing is returned. */
  method DeleteProject(db: Table<Project>, email: string, name: string) returns (r: Option<Id>)
    requires db.Valid()
    modifies db
    ensures db.Valid()
    ensures r.None? <==> old(GetProject(db, email, name)).None?
    ensures r.Some? ==> r.value == old(GetProject(db, email, name)).value.id
    ensures db.rows == if r.Some? then old(db.rows) - {r.value} else old(db.rows)
  {
    var project := GetProject(db, email, name);
    if project.Some? {
      var ok := db.Delete(project.value.id);
      return Some(project.value.id);
    }
    return None;
  }

  /** The new section list of `updateProjectSection`: only the content of section
      `sectionIndex` becomes `content`; titles, order, count and every other section stay, and
      an index that is not a position of the list changes nothing. */
  function WithSectionContent(sections: seq<Section>, sectionIndex: int, content: string): (r: seq<Section>)
    ensures |r| == |sections|
    ensures forall k :: 0 <= k < |r| ==> r[k].title == sections[k].title
    ensures forall k :: 0 <= k < |r| && k != sectionIndex ==> r[k] == sections[k]
    ensures 0 <= sectionIndex < |r| ==> r[sectionIndex].content == content
    ensures !(0 <= sectionIndex < |sections|) ==> r == sections
  {
    MapAt(sections, sectionIndex, (s: Section) => s.(content := content))
  }

  /** `updateProjectSection`: no project with that (email, name) gives null and changes
      nothing; otherwise its sections are rewritten at `sectionIndex` and its id returned. */
  method UpdateProjectSection(db: Table<Project>, email: string, name: string, sectionIndex: int,
                              content: string, now: int) returns (r: Option<Id>)
    requires db.Valid()
    modifies db
    ensures db.Valid()
    ensures r.None? <==> old(GetProject(db, email, name)).None?
    ensures r.None? ==> db.rows == old(db.rows)
    ensures r.Some? ==>
      && r.value == old(GetProject(db, email, name)).value.id
      && db.rows == old(db.rows)[r.value := old(db.rows)[r.value].(
           sections := WithSectionContent(old(db.rows)[r.value].sections, sectionIndex, content),
           updatedAt := now)]
  {
    var project := GetProject(db, email, name);
    if project.None? {
      return None;
    }
    var updated := WithSectionContent(project.value.value.sections, sectionIndex, content);
    var ok := db.Patch(project.value.id, (p: Project) => p.(sections := updated, updatedAt := now));
    return Some(project.value.id);
  }
}
