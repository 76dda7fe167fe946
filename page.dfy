/** The onboarding page (`Home`): questionnaire navigation and answers, the memory, skill and
    project list editors, and the generated files. The component state is a class whose
    handlers reassign its fields; the preferences and memories tables are the Convex tables
    its mutations write to. */
module Page {
  import opened Wrappers
  import opened Seqs
  import opened Strings
  import opened Values
  import opened Tables
  import opened Questionnaire
  import opened Memories
  import opened Skills
  import opened Preferences
  import opened Projects
  import opened ClaudeFile

  datatype UserData = UserData(name: string, email: string)

  /** A project as the page keeps it: a name and its sections. */
  datatype PageProject = PageProject(name: string, sections: seq<Section>)

  /** The section titles of a new project, in order. */
  const TemplateTitles: seq<string> := ["Context", "Tech Stack", "Architecture", "Database Schema",
                                        "API Endpoints", "UI/UX Guidelines", "Deployment", "Known Issues"]

  /** The skills the page starts with; none of them is custom. */
  const DefaultSkills: seq<Skill> := [
    Skill("Web Scraping Expert", "Specialized in extracting data from websites",
          "You are an expert web scraper. Help me extract data from websites using Python, Beautiful Soup, Selenium, and other tools. Always provide clean, well-commented code.", false),
    Skill("Data Analyst", "Analyze and visualize data",
          "You are a data analysis expert. Help me analyze datasets, create visualizations, and derive insights. Use Python, pandas, and visualization libraries.", false),
    Skill("API Developer", "Build and integrate APIs",
          "You are an API development expert. Help me design, build, and integrate REST and GraphQL APIs. Focus on best practices, security, and documentation.", false),
    Skill("Content Writer", "Create engaging content",
          "You are a professional content writer. Help me create engaging, well-structured content for various platforms. Focus on clarity, engagement, and SEO.", false),
    Skill("Code Reviewer", "Review and improve code quality",
          "You are a code review expert. Analyze code for bugs, performance issues, security vulnerabilities, and suggest improvements. Be thorough but constructive.", false),
    Skill("Project Planner", "Plan and organize projects",
          "You are a project planning expert. Help me break down projects into tasks, create timelines, identify dependencies, and manage resources effectively.", false)]

  /** The sections of a new project: the template titles in order, all with empty content. */
  function NewSections(): (r: seq<Section>)
    ensures |r| == |TemplateTitles|
    ensures forall k :: 0 <= k < |r| ==> r[k] == Section(TemplateTitles[k], "")
  {
    seq(|TemplateTitles|, k requires 0 <= k < |TemplateTitles| => Section(TemplateTitles[k], ""))
  }

  /** An answer as the preferences mutation stores it. */
  function AnswerValue(a: Answer): Value {
    match a
    case Single(text) => Str(text)
    case Choices(options) => Arr(seq(|options|, k requires 0 <= k < |options| => Str(options[k])))
  }

  /** The answer record as a JSON object, keys in record order. */
  function AnswersValue(answers: Answers): (r: Value)
    ensures r.Obj? && |r.fields| == |answers|
    ensures forall k :: 0 <= k < |answers| ==> r.fields[k] == (answers[k].0, AnswerValue(answers[k].1))
  {
    Obj(seq(|answers|, k requires 0 <= k < |answers| => (answers[k].0, AnswerValue(answers[k].1))))
  }

  /** `projects.map(p => p.name === updated.name ? updated : p)`. */
  function ReplaceNamed(projects: seq<PageProject>, updated: PageProject): (r: seq<PageProject>)
    ensures |r| == |projects|
    ensures forall k :: 0 <= k < |r| ==> r[k] == if projects[k].name == updated.name then updated else projects[k]
  {
    seq(|projects|, k requires 0 <= k < |projects| =>
      if projects[k].name == updated.name then updated else projects[k])
  }

  class Home {
    var user: Option<UserData>
    var answers: Answers
    var currentQuestion: int
    var preferencesComplete: bool
    var memories: seq<MemoryEntry>
    var newMemoryCategory: string
    var newMemoryContent: string
    var skills: seq<Skill>
    var newSkillName: string
    var newSkillDescription: string
    var newSkillTemplate: string
    var showSkillForm: bool
    var generatedFile: string
    var projects: seq<PageProject>
    var activeProject: Option<PageProject>
    var newProjectName: string
    const preferencesDb: Table<PreferencesRow>
    const memoriesDb: Table<MemoriesRow>

    ghost predicate Valid()
      reads this, preferencesDb, memoriesDb
    {
      && 0 <= currentQuestion < QuestionCount
      && DistinctKeys(answers)
      && preferencesDb.Valid() && memoriesDb.Valid()
    }

    /** The initial component state. */
    constructor (preferencesDb: Table<PreferencesRow>, memoriesDb: Table<MemoriesRow>)
      requires preferencesDb.Valid() && memoriesDb.Valid()
      ensures Valid()
      ensures this.preferencesDb == preferencesDb && this.memoriesDb == memoriesDb
      ensures user.None? && answers == [] && currentQuestion == 0 && !preferencesComplete
      ensures memories == [] && newMemoryCategory == "Work" && newMemoryContent == ""
      ensures skills == DefaultSkills && newSkillName == "" && newSkillDescription == "" && newSkillTemplate == ""
      ensures !showSkillForm && generatedFile == ""
      ensures projects == [] && activeProject.None? && newProjectName == ""
    {
      this.preferencesDb := preferencesDb;
      this.memoriesDb := memoriesDb;
      user := None;
      answers := [];
      currentQuestion := 0;
      preferencesComplete := false;
      memories := [];
      newMemoryCategory, newMemoryContent := "Work", "";
      skills := DefaultSkills;
      newSkillName, newSkillDescription, newSkillTemplate := "", "", "";
      showSkillForm := false;
      generatedFile := "";
      projects := [];
      activeProject := None;
      newProjectName := "";
    }

    /** `user?.email` when it is truthy. */
    function Email(): (r: Option<string>)
      reads this
      ensures r.Some? <==> user.Some? && user.value.email != ""
      ensures r.Some? ==> r.value == user.value.email
    {
      if user.Some? && user.value.email != "" then Some(user.value.email) else None
    }

    /** `handleAnswerChange`: the answer for `questionId` becomes `value`; every other
        answer keeps its value. */
    method HandleAnswerChange(questionId: string, value: Answer)
      requires Valid()
      modifies this`answers
      ensures Valid()
      ensures answers == Put(old(answers), questionId, value)
      ensures Lookup(answers, questionId) == Some(value)
      ensures forall other :: other != questionId ==> Lookup(answers, other) == Lookup(old(answers), other)
    {
      PutDistinct(answers, questionId, value);
      PutThenLookupSame(answers, questionId, value);
      forall other | other != questionId
        ensures Lookup(Put(answers, questionId, value), other) == Lookup(answers, other)
      {
        PutThenLookupOther(answers, questionId, value, other);
      }
      answers := Put(answers, questionId, value);
    }

    /** `handleNextQuestion`: advances to the next question; on the last one it stays there,
        marks the questionnaire complete and, for a signed-in user, saves the answers. */
    method HandleNextQuestion(now: int)
      requires Valid()
      modifies this`currentQuestion, this`preferencesComplete, preferencesDb
      ensures Valid()
      ensures old(currentQuestion) < QuestionCount - 1 ==>
        && currentQuestion == old(currentQuestion) + 1
        && preferencesComplete == old(preferencesComplete)
        && preferencesDb.rows == old(preferencesDb.rows)
      ensures old(currentQuestion) == QuestionCount - 1 ==>
        && currentQuestion == old(currentQuestion)
        && preferencesComplete
      ensures old(currentQuestion) == QuestionCount - 1 && Email().Some? ==>
        && GetPreferences(preferencesDb, Email().value) == Some(Prefs(AnswersValue(answers), true))
        && Preferences.UserRow(preferencesDb, Email().value).Some?
        && OnlyRowChanged(old(preferencesDb.rows), preferencesDb.rows,
                          Preferences.UserRow(preferencesDb, Email().value).value)
      ensures Email().None? ==> preferencesDb.rows == old(preferencesDb.rows)
    {
      if currentQuestion < QuestionCount - 1 {
        currentQuestion := currentQuestion + 1;
      } else {
        preferencesComplete := true;
        if user.Some? && user.value.email != "" {
          var id := SavePreferences(preferencesDb, user.value.email, AnswersValue(answers), true, now);
        }
      }
    }

    /** `handlePrevQuestion`: goes back one question, never before the first. */
    method HandlePrevQuestion()
      requires Valid()
      modifies this`currentQuestion
      ensures Valid()
      ensures currentQuestion == if old(currentQuestion) > 0 then old(currentQuestion) - 1 else 0
    {
      if currentQuestion > 0 {
        currentQuestion := currentQuestion - 1;
      }
    }

    /** The click on `option` of the multiselect shown for the current question: the picked
        list loses the option when it had it and gains it at the end otherwise. */
    method ToggleOption(option: string)
      requires Valid() && Questions[currentQuestion].kind == Multiselect
      modifies this`answers
      ensures Valid()
      ensures var id := Questions[currentQuestion].id;
        answers == Put(old(answers), id, Choices(Toggle(Picked(old(answers), id), option)))
    {
      var id := Questions[currentQuestion].id;
      var current := Picked(answers, id);
      var updated := if option in current then RemoveAll(current, option) else current + [option];
      HandleAnswerChange(id, Choices(updated));
    }

    /** `addMemory`: content that is blank after trimming is ignored; otherwise the entry is
        appended with the time, the input resets to category "Work" and empty content, and a
        signed-in user's list is saved. */
    method AddMemory(now: int)
      requires Valid()
      modifies this`memories, this`newMemoryCategory, this`newMemoryContent, memoriesDb
      ensures Valid()
      ensures IsBlank(old(newMemoryContent)) ==>
        && memories == old(memories) && newMemoryCategory == old(newMemoryCategory)
        && newMemoryContent == old(newMemoryContent) && memoriesDb.rows == old(memoriesDb.rows)
      ensures !IsBlank(old(newMemoryContent)) ==>
        && memories == old(memories) + [MemoryEntry(old(newMemoryCategory), old(newMemoryContent), Some(now))]
        && newMemoryCategory == "Work" && newMemoryContent == ""
      ensures !IsBlank(old(newMemoryContent)) && Email().Some? ==>
        && GetMemories(memoriesDb, Email().value) == memories
        && Memories.UserRow(memoriesDb, Email().value).Some?
        && OnlyRowChanged(old(memoriesDb.rows), memoriesDb.rows, Memories.UserRow(memoriesDb, Email().value).value)
      ensures Email().None? ==> memoriesDb.rows == old(memoriesDb.rows)
    {
      if !IsBlank(newMemoryContent) {
        var updated := memories + [MemoryEntry(newMemoryCategory, newMemoryContent, Some(now))];
        memories := updated;
        newMemoryCategory, newMemoryContent := "Work", "";
        if user.Some? && user.value.email != "" {
          var id := SaveMemories(memoriesDb, user.value.email, updated, now);
        }
      }
    }

    /** `deleteMemory`: removes the entry at `index` (nothing when out of range) and saves a
        signed-in user's list. */
    method DeleteMemory(index: int, now: int)
      requires Valid()
      modifies this`memories, memoriesDb
      ensures Valid()
      ensures memories == RemoveAt(old(memories), index)
      ensures Email().Some? ==>
        && GetMemories(memoriesDb, Email().value) == memories
        && Memories.UserRow(memoriesDb, Email().value).Some?
        && OnlyRowChanged(old(memoriesDb.rows), memoriesDb.rows, Memories.UserRow(memoriesDb, Email().value).value)
      ensures Email().None? ==> memoriesDb.rows == old(memoriesDb.rows)
    {
      var updated := RemoveAt(memories, index);
      memories := updated;
      if user.Some? && user.value.email != "" {
        var id := SaveMemories(memoriesDb, user.value.email, updated, now);
      }
    }

    /** `addSkill`: only with a name and a template; the new skill is appended as custom and
        the form is cleared and closed. */
    method AddSkill()
      requires Valid()
      modifies this`skills, this`newSkillName, this`newSkillDescription, this`newSkillTemplate, this`showSkillForm
      ensures Valid()
      ensures old(newSkillName) == "" || old(newSkillTemplate) == "" ==>
        && skills == old(skills) && newSkillName == old(newSkillName)
        && newSkillDescription == old(newSkillDescription) && newSkillTemplate == old(newSkillTemplate)
        && showSkillForm == old(showSkillForm)
      ensures old(newSkillName) != "" && old(newSkillTemplate) != "" ==>
        && skills == old(skills) + [Skill(old(newSkillName), old(newSkillDescription), old(newSkillTemplate), true)]
        && newSkillName == "" && newSkillDescription == "" && newSkillTemplate == "" && !showSkillForm
    {
      if newSkillName != "" && newSkillTemplate != "" {
        skills := skills + [Skill(newSkillName, newSkillDescription, newSkillTemplate, true)];
        newSkillName, newSkillDescription, newSkillTemplate := "", "", "";
        showSkillForm := false;
      }
    }

    /** `deleteSkill`: removes the skill at `index`, nothing when out of range. */
    method DeleteSkill(index: int)
      requires Valid()
      modifies this`skills
      ensures Valid()
      ensures skills == RemoveAt(old(skills), index)
    {
      skills := RemoveAt(skills, index);
    }

    /** The name the generated file is addressed to: `user?.name`, empty without a user. */
    function UserName(): string
      reads this
    {
      if user.Some? then user.value.name else ""
    }

    /** `generateClaudeFile`: the CLAUDE.md text for the current state. */
    method GenerateClaudeFile(generated: string)
      requires Valid()
      modifies this`generatedFile
      ensures Valid()
      ensures generatedFile == ClaudeMarkdown(UserName(), generated, answers, memories, skills)
    {
      var content := BuildClaudeFile(UserName(), generated, answers, memories, skills);
      generatedFile := content;
    }

    /** `createProject`: a name that is blank after trimming is ignored; otherwise a project
        with that name (untrimmed) and the template sections is appended and made active, and
        the input is cleared. */
    method CreateProject()
      requires Valid()
      modifies this`projects, this`activeProject, this`newProjectName
      ensures Valid()
      ensures IsBlank(old(newProjectName)) ==>
        projects == old(projects) && activeProject == old(activeProject) && newProjectName == old(newProjectName)
      ensures !IsBlank(old(newProjectName)) ==>
        && projects == old(projects) + [PageProject(old(newProjectName), NewSections())]
        && activeProject == Some(PageProject(old(newProjectName), NewSections()))
        && newProjectName == ""
    {
      if !IsBlank(newProjectName) {
        var newProject := PageProject(newProjectName, NewSections());
        projects := projects + [newProject];
        activeProject := Some(newProject);
        newProjectName := "";
      }
    }

    /** `updateProjectSection`: without an active project nothing changes; otherwise only the
        content of section `sectionIndex` of the active project changes, and every project
        with the same name is replaced by the updated one. */
    method UpdateProjectSection(sectionIndex: int, content: string)
      requires Valid()
      modifies this`activeProject, this`projects
      ensures Valid()
      ensures old(activeProject).None? ==> activeProject.None? && projects == old(projects)
      ensures old(activeProject).Some? ==>
        var updated := old(activeProject).value.(sections := WithSectionContent(old(activeProject).value.sections, sectionIndex, content));
        && activeProject == Some(updated)
        && projects == ReplaceNamed(old(projects), updated)
    {
      if activeProject.Some? {
        var active := activeProject.value;
        var updated := active.(sections := WithSectionContent(active.sections, sectionIndex, content));
        activeProject := Some(updated);
        projects := ReplaceNamed(projects, updated);
      }
    }

    /** The content and download name of `exportProject`; nothing without an active project. */
    method ExportActiveProject(generated: string) returns (r: Option<(string, string)>)
      requires Valid()
      ensures r.None? <==> activeProject.None?
      ensures r.Some? ==>
        && r.value.0 == ProjectMarkdown(activeProject.value.name, generated, activeProject.value.sections)
        && r.value.1 == ExportFilename(activeProject.value.name)
    {
      if activeProject.None? {
        return None;
      }
      var content, filename := ExportProject(activeProject.value.name, activeProject.value.sections, generated);
      return Some((content, filename));
    }
  }
}
