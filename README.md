# Claude onboarding platform: a Dafny model of its core

The platform helps a user configure Claude. The user answers a discovery questionnaire,
keeps a bank of memory notes, curates prompt-template skills, and writes project
documentation. From that it produces a `CLAUDE.md` file. Tabs can be snapshotted into named
sessions and restored later.

This project models that core in Dafny:

- **Convex tables.** `users`, `sessions`, `preferences`, `memories`, `skills` and
  `projects` are one generic `Tables.Table<R>` class: documents keyed by ids from a counter.
  Each mutation is a method that modifies the table it writes, specified by the new table
  contents. Each query is a function.
- **Session coordinators.** `SessionContext.SessionProvider` and
  `SessionSelector.SessionSelector` are classes whose handlers update their fields and call
  the session mutations.
- **Onboarding page.** `Page.Home` holds the page state (questionnaire, memories, skills,
  projects). The record and list logic it uses lives in `Questionnaire`. The `CLAUDE.md` and
  project-export generators live in `ClaudeFile`, each a loop proved equal to a function
  that states its output (`ClaudeMarkdown`, `ProjectMarkdown`).
- **SKILL.md importer.** `SkillImport` holds the line-driven parser, the keyword icon
  classifier and the outcome of an upload.
- **Auth.** The route guard (`Middleware`), the sign-up endpoint (`Register`) and the
  password-change endpoint (`UpdatePassword`).

Things outside the core are parameters of the model:

- the clock (`now`, `generated`);
- bcrypt hashing and comparison (`hashed`, `verify`);
- the e-mail format check (`isEmail`);
- a failing store (`fails`, `unreachable`, `updateFails`);
- the decoded archive entries of an upload.

Two behaviours of the code that are easy to misread:

- `getSessions` and `getSessionsByTab` list sessions newest first by creation time
  (descending id, the order of the index). The time of the last update plays no part.
- Patching or deleting a missing document raises in Convex. The model reports that as
  `ok == false` and leaves the table unchanged.

## Model

| member | source | states |
|---|---|---|
| Tables.FirstMatch | convex/users.ts:47-50 | `.first()` over an index: the earliest matching document below the counter, none earlier matching; none means no match at all |
| Tables.FirstMatchStable | convex/projects.ts:19-27 | rewriting documents without changing which match leaves the first match where it was |
| Tables.MatchingIds | convex/projects.ts:43-48 | the ids of matching documents, all of them, strictly increasing |
| Tables.CollectAsc | convex/projects.ts:43-48 | `.collect()`: exactly the matching documents with their contents, oldest first |
| Tables.CollectAscIds | convex/projects.ts:43-48 | the ids `.collect()` returns are exactly the matching ids |
| Tables.CollectDesc | convex/sessions.ts:7-13 | `.order("desc").collect()`: exactly the matching documents, newest first |
| Tables.FindById | components/SessionSelector.tsx:72-74 | `find` by `_id`: the first document with that id; none means no document has it |
| Tables.Table.Insert | convex/sessions.ts:46-56 | a fresh id, greater than every id in use; only that document is added |
| Tables.Table.Patch | convex/sessions.ts:66-78 | an existing document is rewritten by the change; a missing one leaves the table as it was |
| Tables.Table.Delete | convex/sessions.ts:98-100 | exactly that id is removed |
| Tables.Table.DeleteEach | convex/users.ts:172-200 | exactly the listed documents are removed |
| Sessions.GetSessions | convex/sessions.ts:5-14 | every session of the user and only those, newest first |
| Sessions.GetSessionsByTab | convex/sessions.ts:17-28 | every session of the user and tab and only those, newest first |
| Sessions.GetSession | convex/sessions.ts:31-36 | the stored record, or none exactly when the id is not in the table |
| Sessions.CreateSession | convex/sessions.ts:39-57 | one new record with the arguments verbatim and both timestamps `now` |
| Sessions.UpdateSession | convex/sessions.ts:60-79 | only the supplied `name`/`data` and `updatedAt` of the target change; every other record is untouched |
| Sessions.RenameSession | convex/sessions.ts:82-93 | only `name` and `updatedAt` of the target change |
| Sessions.DeleteSession | convex/sessions.ts:96-101 | exactly `sessionId` is removed |
| Sessions.DuplicateSession | convex/sessions.ts:104-120 | a missing original gives "Session not found" and inserts nothing; otherwise a new record copies email, tab and payload under the new name |
| Sessions.CollectByTab | convex/sessions.ts:17-28 | the by-tab index scan equals the user scan filtered by tab, order kept |
| Sessions.ByTabIsFilteredByUser | convex/sessions.ts:5-28 | `getSessionsByTab` is `getSessions` restricted to that tab |
| Sessions.UpdateThenGetScenario | convex/sessions.ts:39-79 | create, then update only the payload, then read: the read sees the new payload and the old name |
| Sessions.DuplicateIndependenceScenario | convex/sessions.ts:104-120 | changing or deleting a duplicate leaves its original untouched |
| SessionContext.SessionProvider.ListedSessions | contexts/SessionContext.tsx:48-51 | skipped without user or tab; otherwise that user's sessions of that tab |
| SessionContext.SessionProvider.SetCurrentSession | contexts/SessionContext.tsx:56-59 | id and name change together, nothing else changes |
| SessionContext.SessionProvider.SetCurrentTabType | contexts/SessionContext.tsx:62-64 | only the tab type changes |
| SessionContext.SessionProvider.SetCurrentData | contexts/SessionContext.tsx:66-68 | only the payload changes |
| SessionContext.SessionProvider.SetUserEmail | contexts/SessionContext.tsx:70-72 | only the user changes |
| SessionContext.SessionProvider.SetOnLoadSessionCallbackAsWritten | contexts/SessionContext.tsx:74-76 | the callback handed bare to the state setter is run as an updater, so no callback is stored, whether registering or clearing |
| SessionContext.SessionProvider.SetOnLoadSessionCallback | contexts/SessionContext.tsx:74-76 | corrected setter: only the callback registration changes, to exactly what was asked |
| SessionContext.SessionProvider.SaveProgress | contexts/SessionContext.tsx:78-117 | without user, tab or truthy payload nothing is called; bound: only that session's payload is rewritten; unbound: one session is created and becomes current |
| SessionContext.SessionProvider.SaveAsNew | contexts/SessionContext.tsx:119-142 | same guard; always creates one new session and binds to it; a failure changes neither binding nor table |
| SessionContext.SessionProvider.LoadSession | contexts/SessionContext.tsx:144-151 | binds to the session's id and name and hands its payload verbatim to the registered callback |
| SessionContext.SaveTwiceScenario | contexts/SessionContext.tsx:78-117 | two saves on an unbound provider create exactly one session, holding the later payload |
| SessionContext.RegisterThenLoadAsWritten | contexts/SessionContext.tsx:74-76 | registering through the setter as written and then loading a session delivers nothing |
| SessionContext.RegisterThenLoad | contexts/SessionContext.tsx:144-151 | with the corrected setter, registering and then loading delivers the session's payload verbatim |
| SessionContext.LoadThenSaveScenario | contexts/SessionContext.tsx:78-151 | load then save writes the tab's payload back into the loaded session |
| SessionSelector.SessionSelector.ListedSessions | components/SessionSelector.tsx:60-63 | skipped without a user; otherwise that user's sessions of the tab |
| SessionSelector.SessionSelector.CurrentSession | components/SessionSelector.tsx:72-74 | the listed session with the current id, none when unbound or not listed |
| SessionSelector.SessionSelector.HandleSaveNew | components/SessionSelector.tsx:76-103 | a blank name makes no call; otherwise one session with the trimmed name is created and reported |
| SessionSelector.SessionSelector.HandleSaveProgress | components/SessionSelector.tsx:106-127 | bound: only the current session's payload changes; unbound: it opens the save-as form |
| SessionSelector.SessionSelector.HandleLoadSession | components/SessionSelector.tsx:129-137 | hands the payload to `onLoadSession`, reports the id, closes the list |
| SessionSelector.SessionSelector.HandleUpdateCurrent | components/SessionSelector.tsx:139-150 | rewrites only the given session's payload |
| SessionSelector.SessionSelector.HandleRename | components/SessionSelector.tsx:152-166 | a blank name is ignored; otherwise only name and `updatedAt` change |
| SessionSelector.SessionSelector.HandleDelete | components/SessionSelector.tsx:168-177 | after confirmation exactly that session is removed; without it nothing is |
| SessionSelector.SessionSelector.HandleDuplicate | components/SessionSelector.tsx:179-190 | a copy named original + " (Copy)" is inserted |
| Preferences.GetPreferences | convex/preferences.ts:34-49 | null without a row; otherwise exactly the stored answers and completion flag |
| Preferences.SavePreferences | convex/preferences.ts:4-32 | upsert by email: the row keeps its id, or one row is inserted; afterwards `getPreferences` returns what was saved |
| Memories.GetMemories | convex/memories.ts:37-49 | the stored list, or the empty list without a row |
| Memories.SaveMemories | convex/memories.ts:4-35 | upsert by email; afterwards `getMemories` returns exactly the saved list |
| Skills.GetSkills | convex/skills.ts:38-48 | the stored list, or the empty list without a row |
| Skills.SaveSkills | convex/skills.ts:4-36 | the list is replaced wholesale, in place when the row exists; other rows untouched |
| Skills.AddSkill | convex/skills.ts:50-83 | the skill is appended to the user's list, the rest kept in order |
| Skills.DeleteSkill | convex/skills.ts:85-107 | null without a row; otherwise exactly position `skillIndex` is removed |
| Projects.GetProjects | convex/projects.ts:41-49 | every project of the user and only those, in table order |
| Projects.GetProject | convex/projects.ts:51-60 | the first project with that email and name, or none when no project has them |
| Projects.SaveProject | convex/projects.ts:4-39 | upsert by (email, name): id, owner, name and `createdAt` kept; afterwards `getProject` finds the saved sections |
| Projects.DeleteProject | convex/projects.ts:62-77 | removes the first match and returns its id; no match, nothing removed |
| Projects.WithSectionContent | convex/projects.ts:94-98 | only the content at `sectionIndex` changes; titles, order and count are kept; an index that is not a position changes nothing |
| Projects.UpdateProjectSection | convex/projects.ts:79-106 | null and no change without a match; otherwise only that project's sections and `updatedAt` change |
| Users.UserByEmail | convex/users.ts:47-50 | the first user with that email, none when no user has it |
| Users.GetUser | convex/users.ts:45-64 | that user's public projection, without password or provider id |
| Users.GetUserWithPassword | convex/users.ts:67-86 | the projection that carries the stored password |
| Users.GetUserByProvider | convex/users.ts:89-109 | the first user with both provider and provider id, none when none has both |
| Users.SaveUser | convex/users.ts:5-42 | a known email keeps its id, email, password and `createdAt`; optional fields change only when given; a new email inserts one user |
| Users.UpdateUser | convex/users.ts:112-133 | null and no change for an unknown email; otherwise only the supplied name/image and `updatedAt` |
| Users.UpdatePassword | convex/users.ts:136-156 | null and no change for an unknown email; otherwise only password and `updatedAt` |
| Users.DeleteProjectsOf | convex/users.ts:189-194 | every project of the user goes, every other project stays |
| Users.DeleteUser | convex/users.ts:159-204 | unknown email: nothing deleted; otherwise the user and their preferences, memories, skills and projects rows, and nothing else |
| Strings.Trim | app/page.tsx:173 | no leading or trailing white space; empty exactly when the text is all white space; identity on a tight string |
| Strings.TrimStartDropsSpace | app/page.tsx:173 | `trimStart` keeps a suffix of the text, and what it drops is all white space |
| Strings.TrimEndDropsSpace | app/page.tsx:173 | the suffix `trimEnd` drops is all white space |
| Strings.TrimIsInfix | app/page.tsx:173 | the trimmed text is a contiguous piece of the text with only white space before and after it |
| Strings.TrimEmptyIffBlank | app/page.tsx:173 | trimming leaves nothing exactly when the text is white space only |
| Strings.Lower | app/api/skills/import/route.ts:96-97 | same length, each character lower-cased |
| Strings.IndexOf | app/api/skills/import/route.ts:61 | the first position of the character, none exactly when absent |
| Strings.Split | app/api/skills/import/route.ts:15 | at least one piece, none containing the separator |
| Strings.JoinSplit | app/api/skills/import/route.ts:15 | joining the split pieces with the separator restores the text |
| Questionnaire.Lookup | app/page.tsx:151-153 | a key not found is the key of no entry |
| Questionnaire.LookupAt | app/page.tsx:151-153 | with distinct keys, each entry is what lookup finds for its key |
| Questionnaire.Put | app/page.tsx:151-153 | an existing key keeps its position and gets the value; a new key is appended; other entries are untouched |
| Questionnaire.PutDistinct | app/page.tsx:151-153 | the answer record keeps distinct keys |
| Questionnaire.PutThenLookupSame | app/page.tsx:151-153 | after the change the key has the new value |
| Questionnaire.PutThenLookupOther | app/page.tsx:151-153 | after the change every other key keeps its value |
| Questionnaire.Toggle | app/page.tsx:443-447 | the option is present afterwards exactly when it was absent; removing drops every copy of it and keeps the other picks in order (ToggleRemovesInOrder), adding appends it |
| Questionnaire.ToggleRemovesInOrder | app/page.tsx:443-447 | unpicking keeps every other pick, with its copies, in its order, and removes every copy of the option |
| Seqs.RemoveAllConcat | app/page.tsx:444-446 | `filter` on a concatenation is the concatenation of the filtered parts |
| Seqs.RemoveAllOne | app/page.tsx:444-446 | one element is kept exactly when it differs from the removed value |
| Seqs.RemoveAllCounts | app/page.tsx:444-446 | every copy of the value goes, every other element keeps its count |
| Questionnaire.ToggleTwice | app/page.tsx:443-447 | toggling an unpicked option twice restores the list |
| ClaudeFile.QuestionFor | app/page.tsx:209 | the question with that id, none when no question has it |
| ClaudeFile.AnswerBlock | app/page.tsx:208-212 | an entry prints a block exactly when its id is a question and its value is truthy |
| ClaudeFile.AnswersTextListsOnlyListed | app/page.tsx:207-213 | the preferences part equals the one for the listed entries alone, each of which prints |
| ClaudeFile.GroupIndex | app/page.tsx:216-217 | the position of the category's group, none when it has none |
| ClaudeFile.FirstSeen | app/page.tsx:215-219 | each category once, every category of a memory present |
| ClaudeFile.GroupedByFirstSeen | app/page.tsx:215-226 | one group per category in first-seen order, each with exactly that category's contents in order |
| ClaudeFile.FirstSeenOrder | app/page.tsx:215-226 | a category listed later first occurs after a memory of an earlier one |
| ClaudeFile.CustomSkillsSection | app/page.tsx:228-233 | present exactly when some skill is custom, then starting with the heading |
| ClaudeFile.BuildClaudeFile | app/page.tsx:203-236 | the loop-built text equals `ClaudeMarkdown`: header, listed answers, grouped memories, custom skills |
| ClaudeFile.AppendAnswers | app/page.tsx:207-213 | the loop appends the block of every answer entry, in record order |
| ClaudeFile.GroupMemories | app/page.tsx:215-219 | the `reduce` loop builds `Grouped`, the memories grouped by category in first-seen order |
| ClaudeFile.AppendGroups | app/page.tsx:221-226 | the nested loops append one heading and item list per group |
| ClaudeFile.AppendSkills | app/page.tsx:228-233 | the loop appends one block per custom skill |
| ClaudeFile.SectionBlock | app/page.tsx:270-272 | a section prints exactly when its content is not blank |
| ClaudeFile.ExportSkipsBlankSections | app/page.tsx:269-273 | the export equals the one for the non-blank sections alone, each of which prints |
| ClaudeFile.Hyphenate | app/page.tsx:279 | no white space remains; identity on text without white space |
| ClaudeFile.HyphenateKeeps | app/page.tsx:279 | a leading non-space character is kept as it is |
| ClaudeFile.HyphenateRun | app/page.tsx:279 | a maximal run of white space between two pieces becomes exactly one '-' |
| ClaudeFile.ExportFilename | app/page.tsx:279 | ends in "-docs.md", no white space before it, lower-cased name when it has no spaces |
| ClaudeFile.ExportFilenameKeeps | app/page.tsx:279 | a leading non-space character of the name is kept, lower-cased |
| ClaudeFile.ExportFilenameRun | app/page.tsx:279 | a maximal run of white space in the name becomes exactly one '-' of the file name |
| ClaudeFile.ExportProject | app/page.tsx:263-279 | the loop-built content and name equal `ProjectMarkdown` and `ExportFilename` |
| Page.NewSections | app/page.tsx:72-81 | the eight template titles in order, all with empty content |
| Page.AnswersValue | app/page.tsx:161 | the answer record as an object, one field per entry, in order |
| Page.ReplaceNamed | app/page.tsx:259 | every project with the updated name is replaced, the others kept |
| Page.Home.constructor | app/page.tsx:84-111 | the initial state: empty answers at question 0, memory input "Work", the six default skills, no projects |
| Page.Home.HandleAnswerChange | app/page.tsx:151-153 | only the answer for that question id changes |
| Page.Home.HandleNextQuestion | app/page.tsx:155-164 | below the last question it advances; on the last it stays, marks complete, and a signed-in user's answers are stored in that user's row, every other row unchanged |
| Page.Home.HandlePrevQuestion | app/page.tsx:166-170 | goes back one question, never below 0 |
| Page.Home.ToggleOption | app/page.tsx:443-447 | the current multiselect answer becomes the toggled list |
| Page.Home.AddMemory | app/page.tsx:172-181 | blank content changes nothing; otherwise the entry is appended, the input resets to ("Work", ""), a signed-in user's list is stored in that user's row, every other row unchanged |
| Page.Home.DeleteMemory | app/page.tsx:183-189 | exactly index i is removed, the rest kept in order, and a signed-in user's list is stored in that user's row, every other row unchanged |
| Page.Home.AddSkill | app/page.tsx:191-197 | only with a name and a template; the new skill is appended as custom and the form cleared and closed |
| Page.Home.DeleteSkill | app/page.tsx:199-201 | exactly index i is removed, the rest kept in order |
| Page.Home.GenerateClaudeFile | app/page.tsx:203-236 | the generated file is the CLAUDE.md text of the current state |
| Page.Home.CreateProject | app/page.tsx:238-248 | a blank name changes nothing; otherwise a project with the untrimmed name and the template sections is appended and made active |
| Page.Home.UpdateProjectSection | app/page.tsx:250-261 | only section i of the active project changes, and every project of that name is replaced |
| Page.Home.ExportActiveProject | app/page.tsx:263-279 | nothing without an active project; otherwise its content and file name |
| SkillImport.ScanLines | app/api/skills/import/route.ts:23-56 | the loop state after the lines |
| SkillImport.KeysExclusive | app/api/skills/import/route.ts:25-38 | a line with one key does not start with "# " or with another key |
| SkillImport.StepName | app/api/skills/import/route.ts:25-34 | a heading sets the name only while it is empty; a `name:` line always sets it; other lines leave name, description and category |
| SkillImport.StepTemplate | app/api/skills/import/route.ts:39-55 | once a marker is seen every other line but fences is collected; before it, only colon-free lines once name and description are known |
| SkillImport.CategoryIsLastCategoryLine | app/api/skills/import/route.ts:35-38 | the category is the last `category:` value, "Other" without one |
| SkillImport.DescriptionIsLastDescriptionLine | app/api/skills/import/route.ts:31-34 | the description is the last `description:` value |
| SkillImport.NameIsLastNameLine | app/api/skills/import/route.ts:25-28 | a non-empty last `name:` value is the name |
| SkillImport.NameIsFirstHeading | app/api/skills/import/route.ts:25-26 | without `name:` lines the name is the first non-empty `# ` heading |
| SkillImport.TemplateLinesFromInput | app/api/skills/import/route.ts:48-55 | the collected template lines are a subsequence of the input lines: input lines, in input order |
| SkillImport.NameAfterPrefix | app/api/skills/import/route.ts:25-28 | lines without `name:` keep a non-empty name and fill an empty one with their first non-empty heading |
| SkillImport.NameAfterEmptyNameLine | app/api/skills/import/route.ts:25-28 | when the last `name:` line has an empty value, the name is the first non-empty heading after it, else the one from the file name |
| SkillImport.WithoutMdExtension | app/api/skills/import/route.ts:70 | a prefix of the file name |
| SkillImport.NameFromFilename | app/api/skills/import/route.ts:69-72 | no '-' or '_', same length, only letter case differs from the spaced-out base name |
| SkillImport.ParseSkill | app/api/skills/import/route.ts:13-93 | category: the last `category:` value or "Other"; name: the value of the last `name:` line when it is non-empty; without `name:` lines the first non-empty heading, else from the file name (the case of an empty last `name:` value is NameAfterEmptyNameLine); description: the last `description:` value or "Imported skill: " + name; icon: the keyword icon of name and category; template never empty or padded |
| SkillImport.ParseSkillMd | app/api/skills/import/route.ts:13-93 | the loop computes `ParseSkill` |
| SkillImport.Finish | app/api/skills/import/route.ts:56-88 | template: the trimmed collected lines, else the content after its first line, else the fixed fallback; name: the found one or the one from the file name; description: the found one or "Imported skill: " + name; icon from name and category |
| SkillImport.CompleteSkill | app/api/skills/import/route.ts:56-88 | the statements after the loop compute `Finish` |
| SkillImport.TitleCase | app/api/skills/import/route.ts:71 | only the first character of a word is upper-cased: letter case is the only change, and a lower-case letter is left only inside a word |
| SkillImport.FirstMatchingIcon | app/api/skills/import/route.ts:95-121 | the icon of the first rule that matches, the gear when none does |
| SkillImport.IconForIsFirstMatch | app/api/skills/import/route.ts:95-121 | `getIconForSkill` is the first-match classifier over its rule table |
| SkillImport.Normalise | app/api/skills/import/route.ts:168-176 | name and template kept; description defaults to "Imported skill: " + name, category to "Other", icon to the keyword icon |
| SkillImport.ItemSkills | app/api/skills/import/route.ts:178-190 | at most one skill per element, each with a name and a template |
| SkillImport.ImportItems | app/api/skills/import/route.ts:178-190 | the loop over the manifest array computes `ItemSkills`, returning at the first null element |
| SkillImport.ItemSkillsConcat | app/api/skills/import/route.ts:179-189 | before the first null, each element contributes on its own, in array order |
| SkillImport.ItemSkillsOne | app/api/skills/import/route.ts:179-189 | a usable element gives exactly its normalised skill, an unusable one nothing; a null element ends the array |
| SkillImport.ImportSkills | app/api/skills/import/route.ts:123-222 | the loops compute `ImportOutcome` |
| SkillImport.ImportArchive | app/api/skills/import/route.ts:150-195 | the loop over the entries collects the skills of each entry in archive order |
| SkillImport.ImportEntry | app/api/skills/import/route.ts:151-194 | directories yield nothing, `.md` files their parse, manifests their skills |
| SkillImport.ManifestEntrySkills | app/api/skills/import/route.ts:162-195 | the manifest loop stops at a null element and yields `ManifestSkills` |
| SkillImport.MarkdownUploadImported | app/api/skills/import/route.ts:138-145 | an `.md` upload always yields its parsed skill |
| SkillImport.OutcomeShape | app/api/skills/import/route.ts:123-222 | success carries at least one complete skill; rejections are 400 or 500; other file types 400 |
| SkillImport.ArchiveSkillsComplete | app/api/skills/import/route.ts:146-196 | every skill taken from an archive has a template and a description |
| Middleware.Authorized | middleware.ts:17-35 | auth pages open; protected areas exactly with a token; other paths open |
| Middleware.AfterAuthorized | middleware.ts:5-14 | a redirect to `/dashboard` exactly for a signed-in request to an auth page |
| Middleware.Guard | middleware.ts:4-48 | paths outside the matcher pass; `authorized` decides before the middleware function runs |
| Middleware.ProtectedNeedsToken | middleware.ts:26-32 | a matched protected path needs a token, and passes with one |
| Middleware.RedirectTargetPasses | middleware.ts:7-12 | the redirect target passes for the same request, so it cannot loop |
| Register.NameIssues | app/api/auth/register/route.ts:8 | no issue exactly for a string of at least 2 characters |
| Register.EmailIssues | app/api/auth/register/route.ts:9 | no issue exactly for a string in e-mail format |
| Register.PasswordIssues | app/api/auth/register/route.ts:10-15 | no issue exactly for a strong password; each rule's message present exactly when that rule fails |
| Register.AcceptedExactly | app/api/auth/register/route.ts:7-16 | a body is accepted exactly when name, email and password all pass |
| Register.FirstIssueOrder | app/api/auth/register/route.ts:51-57 | the reported issue is the name's, else the email's, else the password's |
| Register.Parse | app/api/auth/register/route.ts:51-59 | the first issue, or the three validated strings |
| Register.RegisterOutcome | app/api/auth/register/route.ts:46-92 | 400 with the first issue, 400 for a known email, 201 otherwise, 500 for a body that is not JSON |
| Register.Post | app/api/auth/register/route.ts:46-92 | invalid input or a known email create nothing; otherwise one credentials user with the hash |
| UpdatePassword.Ladder | app/api/auth/update-password/route.ts:35-90 | 401 exactly without a session; success exactly when every check holds |
| UpdatePassword.StageResponse | app/api/auth/update-password/route.ts:37-96 | each rung's status and message; only success is 200 |
| UpdatePassword.ShortNewPasswordRefused | app/api/auth/update-password/route.ts:51-56 | a new password under 8 characters never gets through |
| UpdatePassword.Post | app/api/auth/update-password/route.ts:35-98 | the response is the first failing rung's; after every check a failing update call answers 500 and writes nothing; otherwise 200 and only that user's password and `updatedAt` change |

## Left out

- Network, React rendering, toasts, modals and effects that reload data (`useEffect`) are
  not modelled. Each handler is modelled on the state it is given.
- `handleLogin` and the dashboard pages are not part of this model.
- Calls into Convex from the client cannot be interleaved. Each one is atomic. In the session
  coordinators a failure is an input flag under which the mutation is not applied.
- Page.Home.HandleNextQuestion, Page.Home.AddMemory, Page.Home.DeleteMemory: the save is
  modelled as succeeding. These handlers have no `catch`; a rejected save leaves the local
  state already changed and is not modelled.
- SessionContext.SessionProvider.SetOnLoadSessionCallbackAsWritten: the one call of the
  callback with the previous state, made by the state setter, is not modelled.
- The archive reader and JSON decoding in the SKILL.md importer are not modelled. Their
  decoded results are inputs. Non-string manifest fields are not modelled. An archive's
  duplicate file names are not modelled.
- The success message with the skill count is not modelled. Nor is the unused `email` form
  field of the import.
- Case mapping (`toLowerCase`, `toUpperCase`) and `\w` cover ASCII letters only. Lengths
  count characters, not UTF-16 code units.
- `Date.now()` and `new Date().toISOString()` are one parameter per operation (`now`,
  `generated`). The model does not capture two clock reads inside one call differing.
- Page.Home.ToggleOption: a text answer stored under the multiselect id is treated as
  nothing picked. The model does not capture the source's cast of a string to an array.
- ClaudeFile.GroupMemories: categories are kept in first-seen order. Object key ordering
  that puts integer-like keys first is not modelled. Nor are prototype keys such as
  `constructor` in the `reduce` accumulator.
- UpdatePassword.TooShort: an object's `length` counts only as a number. String coercion of
  that field is not modelled.
- Register: e-mail format validity is a predicate supplied by the caller. The schema's
  regular expression is not reproduced.
- Register.Post: a store failure is one flag taken before the duplicate lookup. A failure
  between the lookup and the insert is not modelled.
- Password hashing and comparison are inputs (`hashed`, `verify`). bcryptjs's refusal of a
  non-string argument is modelled as a 500 response.
- Middleware: for a request that fails `authorized`, the auth library's sign-in redirect
  target is not modelled. It is the `SignInRequired` outcome.

## Findings

| source | as written | input that shows it | evidently intended | confidence | as-written member | corrected member |
|---|---|---|---|---|---|---|
| contexts/SessionContext.tsx:74-76 | `setOnLoadSessionCallbackState(callback)` hands the callback to the state setter bare; the setter runs a function argument as an updater and stores its result, `undefined` | a tab registers a `(data) => void` callback, then `loadSession` is called with a stored session: the payload is never delivered | `setOnLoadSessionCallbackState(() => callback)`, storing the callback itself | high, not executed | SessionContext.RegisterThenLoadAsWritten | SessionContext.RegisterThenLoad |
