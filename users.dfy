/** The `users` table: accounts keyed by email, optionally linked to an OAuth provider and
    optionally holding a password hash. The queries hand out projections; only
    `getUserWithPassword` carries the password. */
module Users {
  import opened Wrappers
  import opened Tables
  import Preferences
  import Memories
  import Skills
  import Projects

  datatype User = User(
    name: string,
    email: string,
    password: Option<string>,
    image: Option<string>,
    provider: Option<string>,
    providerId: Option<string>,
    createdAt: int,
    updatedAt: int)

  /** `getUser`'s projection: no password, no provider id. */
  datatype PublicUser = PublicUser(id: Id, name: string, email: string, image: Option<string>,
                                   provider: Option<string>, createdAt: int)

  /** `getUserWithPassword`'s projection. */
  datatype CredentialUser = CredentialUser(id: Id, name: string, email: string, password: Option<string>,
                                           image: Option<string>, provider: Option<string>)

  /** `getUserByProvider`'s projection: no password, no provider id, no timestamps. */
  datatype ProviderUser = ProviderUser(id: Id, name: string, email: string, image: Option<string>,
                                       provider: Option<string>)

  /** The `by_email` index condition. */
  function WithEmail(email: string): User -> bool {
    (u: User) => u.email == email
  }

  /** The `by_provider` index condition: both fields must match. */
  function WithProvider(provider: string, providerId: string): User -> bool {
    (u: User) => u.provider == Some(provider) && u.providerId == Some(providerId)
  }

  /** `.withIndex("by_email", …).first()`: the id of the first user with that email. */
  function UserByEmail(db: Table<User>, email: string): (r: Option<Id>)
    reads db
    ensures r.Some? ==> r.value in db.rows && db.rows[r.value].email == email
    ensures r.Some? ==> forall j :: j in db.rows && j < r.value ==> db.rows[j].email != email
    ensures r.None? && db.Valid() ==> forall j :: j in db.rows ==> db.rows[j].email != email
  {
    FirstMatch(db.rows, db.nextId, WithEmail(email))
  }

  /** `getUser`: null for an unknown email; otherwise the public fields of the user. */
  function GetUser(db: Table<User>, email: string): (r: Option<PublicUser>)
    reads db
    ensures r.None? <==> UserByEmail(db, email).None?
    ensures r.Some? ==>
      && UserByEmail(db, email) == Some(r.value.id)
      && var u := db.rows[r.value.id];
      r.value == PublicUser(r.value.id, u.name, u.email, u.image, u.provider, u.createdAt)
  {
    match UserByEmail(db, email)
    case None => None
    case Some(id) =>
      var u := db.rows[id];
      Some(PublicUser(id, u.name, u.email, u.image, u.provider, u.createdAt))
  }

  /** `getUserWithPassword`: like `getUser`, but carrying the stored password. */
  function GetUserWithPassword(db: Table<User>, email: string): (r: Option<CredentialUser>)
    reads db
    ensures r.None? <==> UserByEmail(db, email).None?
    ensures r.Some? ==>
      && UserByEmail(db, email) == Some(r.value.id)
      && var u := db.rows[r.value.id];
      r.value == CredentialUser(r.value.id, u.name, u.email, u.password, u.image, u.provider)
  {
    match UserByEmail(db, email)
    case None => None
    case Some(id) =>
      var u := db.rows[id];
      Some(CredentialUser(id, u.name, u.email, u.password, u.image, u.provider))
  }

  /** `getUserByProvider`: the first user whose provider and provider id both match, without
      the password. */
  function GetUserByProvider(db: Table<User>, provider: string, providerId: string): (r: Option<ProviderUser>)
    reads db
    requires db.Valid()
    ensures r.Some? ==>
      && r.value.id in db.rows
      && var u := db.rows[r.value.id];
      && u.provider == Some(provider) && u.providerId == Some(providerId)
      && r.value == ProviderUser(r.value.id, u.name, u.email, u.image, u.provider)
      && forall j :: j in db.rows && j < r.value.id ==>
           !(db.rows[j].provider == Some(provider) && db.rows[j].providerId == Some(providerId))
    ensures r.None? ==> forall j :: j in db.rows ==>
      !(db.rows[j].provider == Some(provider) && db.rows[j].providerId == Some(providerId))
  {
    match FirstMatch(db.rows, db.nextId, WithProvider(provider, providerId))
    case None => None
    case Some(id) =>
      var u := db.rows[id];
      Some(ProviderUser(id, u.name, u.email, u.image, u.provider))
  }

  /** `saveUser`. For a known email the user is updated in place and keeps its id: `name` is
      overwritten, `image`, `provider` and `providerId` keep their old values unless given,
      `updatedAt` is refreshed, and `email`, `password` and `createdAt` are untouched; nothing
      is inserted. For a new email one user is inserted with the given fields. */
  method SaveUser(db: Table<User>, name: string, email: string, password: Option<string>,
                  image: Option<string>, provider: Option<string>, providerId: Option<string>, now: int)
    returns (id: Id)
    requires db.Valid()
    modifies db
    ensures db.Valid()
    ensures old(UserByEmail(db, email)).Some? ==>
      && id == old(UserByEmail(db, email)).value
      && var u := old(db.rows)[id];
      db.rows == old(db.rows)[id := u.(name := name,
                                          image := if image.Some? then image else u.image,
                                          provider := if provider.Some? then provider else u.provider,
                                          providerId := if providerId.Some? then providerId else u.providerId,
                                          updatedAt := now)]
    ensures old(UserByEmail(db, email)).None? ==>
      && id !in old(db.rows)
      && db.rows == old(db.rows)[id := User(name, email, password, image, provider, providerId, now, now)]
    ensures UserByEmail(db, email) == Some(id)
  {
    var existing := UserByEmail(db, email);
    if existing.Some? {
      id := existing.value;
      var ok := db.Patch(id, (u: User) => u.(name := name,
                                             image := if image.Some? then image else u.image,
                                             provider := if provider.Some? then provider else u.provider,
                                             providerId := if providerId.Some? then providerId else u.providerId,
                                             updatedAt := now));
      FirstMatchStable(old(db.rows), db.rows, db.nextId, WithEmail(email));
      return;
    }
    id := db.Insert(User(name, email, password, image, provider, providerId, now, now));
  }

  /** `updateUser`: null for an unknown email, with nothing changed; otherwise only the
      supplied `name` and `image` change, plus `updatedAt`. */
  method UpdateUser(db: Table<User>, email: string, name: Option<string>, image: Option<string>, now: int)
    returns (r: Option<Id>)
    requires db.Valid()
    modifies db
    ensures db.Valid()
    ensures r == old(UserByEmail(db, email))
    ensures r.None? ==> db.rows == old(db.rows)
    ensures r.Some? ==>
      var u := old(db.rows)[r.value];
      db.rows == old(db.rows)[r.value := u.(name := if name.Some? then name.value else u.name,
                                            image := if image.Some? then image else u.image,
                                            updatedAt := now)]
  {
    r := UserByEmail(db, email);
    if r.None? {
      return;
    }
    var ok := db.Patch(r.value, (u: User) =>
      var u1 := u.(updatedAt := now);
      var u2 := if name.Some? then u1.(name := name.value) else u1;
      if image.Some? then u2.(image := image) else u2);
  }

  /** `updatePassword`: null for an unknown email, with nothing changed; otherwise the
      password becomes `newPassword` and `updatedAt` is refreshed. */
  method UpdatePassword(db: Table<User>, email: string, newPassword: string, now: int)
    returns (r: Option<Id>)
    requires db.Valid()
    modifies db
    ensures db.Valid()
    ensures r == old(UserByEmail(db, email))
    ensures r.None? ==> db.rows == old(db.rows)
    ensures r.Some? ==>
      db.rows == old(db.rows)[r.value := old(db.rows)[r.value].(password := Some(newPassword), updatedAt := now)]
  {
    r := UserByEmail(db, email);
    if r.None? {
      return;
    }
    var ok := db.Patch(r.value, (u: User) => u.(password := Some(newPassword), updatedAt := now));
  }

  /** The user's projects as `deleteUser` removes them: every project of `email` goes, and
      every other project stays. */
  method DeleteProjectsOf(projects: Table<Projects.Project>, email: string)
    requires projects.Valid()
    modifies projects
    ensures projects.Valid()
    ensures projects.rows == map j | j in old(projects.rows) && old(projects.rows)[j].email != email :: old(projects.rows)[j]
  {
    var owned := Projects.GetProjects(projects, email);
    CollectAscIds(projects.rows, projects.nextId, Projects.OfUser(email));
    projects.DeleteEach(owned);
  }

  /** `deleteUser`. For an unknown email it returns null and deletes nothing. Otherwise it
      deletes the user, the user's first preferences, memories and skills rows, and every
      project of the user, and returns the user's id. The other rows of those tables stay,
      and no other table (the sessions in particular) is touched. */
  method DeleteUser(users: Table<User>, preferences: Table<Preferences.PreferencesRow>,
                    memories: Table<Memories.MemoriesRow>, skills: Table<Skills.SkillRow>,
                    projects: Table<Projects.Project>, email: string)
    returns (r: Option<Id>)
    requires users.Valid() && preferences.Valid() && memories.Valid() && skills.Valid() && projects.Valid()
    modifies users, preferences, memories, skills, projects
    ensures users.Valid() && preferences.Valid() && memories.Valid() && skills.Valid() && projects.Valid()
    ensures r == old(UserByEmail(users, email))
    ensures r.None? ==>
      && users.rows == old(users.rows) && preferences.rows == old(preferences.rows)
      && memories.rows == old(memories.rows) && skills.rows == old(skills.rows)
      && projects.rows == old(projects.rows)
    ensures r.Some? ==>
      && users.rows == old(users.rows) - {r.value}
      && preferences.rows == WithoutSome(old(preferences.rows), old(Preferences.UserRow(preferences, email)))
      && memories.rows == WithoutSome(old(memories.rows), old(Memories.UserRow(memories, email)))
      && skills.rows == WithoutSome(old(skills.rows), old(Skills.UserRow(skills, email)))
      && projects.rows == map j | j in old(projects.rows) && old(projects.rows)[j].email != email :: old(projects.rows)[j]
  {
    r := UserByEmail(users, email);
    if r.None? {
      return;
    }
    var ok := users.Delete(r.value);

    preferences.DeleteFound(Preferences.UserRow(preferences, email));
    memories.DeleteFound(Memories.UserRow(memories, email));
    skills.DeleteFound(Skills.UserRow(skills, email));

    DeleteProjectsOf(projects, email);
  }
}
