/** The Markdown the onboarding page assembles: the CLAUDE.md configuration file
    (`generateClaudeFile`) and a project's documentation export (`exportProject`). The
    timestamp line is an input (`generated`), standing for `new Date().toISOString()`. */
module ClaudeFile {
  import opened Wrappers
  import opened Seqs
  import opened Strings
  import opened Questionnaire
  import opened Memories
  import opened Skills
  import opened Projects

  /** `parts.join(sep)`. */
  function JoinBy(parts: seq<string>, sep: string): string {
    if |parts| == 0 then ""
    else if |parts| == 1 then parts[0]
    else parts[0] + sep + JoinBy(parts[1..], sep)
  }

  /** `discoveryQuestions.find(q => q.id === key)`. */
  function QuestionFor(key: string): (r: Option<Question>)
    ensures r.Some? ==> r.value in Questions && r.value.id == key
    ensures r.None? ==> forall k :: 0 <= k < |Questions| ==> Questions[k].id != key
  {
    FindQuestion(Questions, key)
  }

  function FindQuestion(qs: seq<Question>, key: string): (r: Option<Question>)
    ensures r.Some? ==> r.value in qs && r.value.id == key
    ensures r.None? ==> forall k :: 0 <= k < |qs| ==> qs[k].id != key
  {
    if |qs| == 0 then None
    else if qs[0].id == key then Some(qs[0])
    else
      var r := FindQuestion(qs[1..], key);
      assert forall k :: 1 <= k < |qs| ==> qs[k] == qs[1..][k - 1];
      r
  }

  // ---- generateClaudeFile ----

  function Header(userName: string, generated: string): string {
    "# CLAUDE.md - " + (if userName != "" then userName else "User") + "'s Configuration\n\n"
    + "Generated: " + generated + "\n\n"
  }

  /** An answer as printed: the text, or the picked options separated by ", ". */
  function Rendered(a: Answer): string {
    match a
    case Single(text) => text
    case Choices(options) => JoinBy(options, ", ")
  }

  /** An answer entry is listed when its key is a question id and its value is truthy. */
  predicate Listed(entry: (string, Answer)) {
    QuestionFor(entry.0).Some? && Truthy(entry.1)
  }

  /** The block printed for one answer entry: the question in bold and the answer, or
      nothing when the entry is not listed. */
  function AnswerBlock(entry: (string, Answer)): (r: string)
    ensures r != "" <==> Listed(entry)
  {
    match QuestionFor(entry.0)
    case None => ""
    case Some(q) => if Truthy(entry.1) then "**" + q.text + "**\n" + Rendered(entry.1) + "\n\n" else ""
  }

  /** The blocks of all answer entries, in record order. */
  function AnswersText(answers: Answers): string {
    ConcatMap(answers, AnswerBlock)
  }

  /** The preferences part lists exactly the listed entries: dropping every unknown question
      id and every falsy value changes nothing, and each listed entry prints a block. */
  lemma AnswersTextListsOnlyListed(answers: Answers)
    ensures AnswersText(answers) == AnswersText(Filter(answers, Listed))
    ensures forall k :: 0 <= k < |Filter(answers, Listed)| ==> AnswerBlock(Filter(answers, Listed)[k]) != ""
  {
    ConcatMapFilter(answers, AnswerBlock, Listed);
  }

  /** Memories grouped by category: each category once, with its contents in order. */
  type Groups = seq<(string, seq<string>)>

  /** The position of `category` in the groups, if it has one. */
  function GroupIndex(groups: Groups, category: string): (r: Option<nat>)
    ensures r.Some? ==> r.value < |groups| && groups[r.value].0 == category
    ensures r.Some? ==> forall k :: 0 <= k < r.value ==> groups[k].0 != category
    ensures r.None? ==> forall k :: 0 <= k < |groups| ==> groups[k].0 != category
  {
    if |groups| == 0 then None
    else if groups[|groups| - 1].0 == category && GroupIndex(groups[..|groups| - 1], category).None? then
      Some(|groups| - 1)
    else
      var r := GroupIndex(groups[..|groups| - 1], category);
      assert forall k :: 0 <= k < |groups| - 1 ==> groups[..|groups| - 1][k] == groups[k];
      r
  }

  /** One step of the `reduce`: the content joins its category's group, or starts a new
      group at the end. */
  function AddToGroup(groups: Groups, category: string, content: string): Groups {
    match GroupIndex(groups, category)
    case Some(k) => groups[k := (category, groups[k].1 + [content])]
    case None => groups + [(category, [content])]
  }

  /** The `reduce` over the memories. */
  function Grouped(memories: seq<MemoryEntry>): Groups {
    if |memories| == 0 then []
    else
      var last := memories[|memories| - 1];
      AddToGroup(Grouped(memories[..|memories| - 1]), last.category, last.content)
  }

  /** The categories of the memories, each once, in the order they first occur. */
  function FirstSeen(memories: seq<MemoryEntry>): (r: seq<string>)
    ensures forall i, j :: 0 <= i < j < |r| ==> r[i] != r[j]
    ensures forall k :: 0 <= k < |memories| ==> memories[k].category in r
    ensures forall c :: c in r ==> exists k :: 0 <= k < |memories| && memories[k].category == c
  {
    if |memories| == 0 then []
    else
      var prefix := memories[..|memories| - 1];
      var c := memories[|memories| - 1].category;
      var r := FirstSeen(prefix);
      assert forall k :: 0 <= k < |prefix| ==> prefix[k] == memories[k];
      if c in r then r else r + [c]
  }

  /** The contents of the memories of one category, in order. */
  function ContentsOf(memories: seq<MemoryEntry>, category: string): seq<string> {
    if |memories| == 0 then []
    else
      var last := memories[|memories| - 1];
      ContentsOf(memories[..|memories| - 1], category) + if last.category == category then [last.content] else []
  }

  /** `groups` holds, for each category of `seen` in order, the contents of that category. */
  predicate GroupsFollow(groups: Groups, seen: seq<string>, memories: seq<MemoryEntry>) {
    |groups| == |seen| && forall k :: 0 <= k < |groups| ==> groups[k] == (seen[k], ContentsOf(memories, seen[k]))
  }

  /** One memory more, of a category already seen: its content joins that category's group. */
  lemma AddToSeenGroup(groups: Groups, seen: seq<string>, prefix: seq<MemoryEntry>, last: MemoryEntry)
    requires GroupsFollow(groups, seen, prefix)
    requires forall i, j :: 0 <= i < j < |seen| ==> seen[i] != seen[j]
    requires last.category in seen
    ensures GroupsFollow(AddToGroup(groups, last.category, last.content), seen, prefix + [last])
  {
    var memories := prefix + [last];
    assert memories[..|memories| - 1] == prefix;
    var c := last.category;
    var k :| 0 <= k < |seen| && seen[k] == c;
    var r := GroupIndex(groups, c);
    assert groups[k].0 == c;
    assert r == Some(k);
    var g := AddToGroup(groups, c, last.content);
    assert g == groups[k := (c, groups[k].1 + [last.content])];
    forall i | 0 <= i < |g| ensures g[i] == (seen[i], ContentsOf(memories, seen[i])) {
      assert ContentsOf(memories, seen[i]) == ContentsOf(prefix, seen[i]) + if c == seen[i] then [last.content] else [];
      if i != k {
        assert seen[i] != c;
        assert g[i] == groups[i];
        assert ContentsOf(prefix, seen[i]) + [] == ContentsOf(prefix, seen[i]);
      } else {
        assert groups[k] == (c, ContentsOf(prefix, c));
        assert g[k] == (c, ContentsOf(prefix, c) + [last.content]);
      }
    }
  }

  /** One memory more, of a new category: it starts a group at the end. */
  lemma AddToNewGroup(groups: Groups, seen: seq<string>, prefix: seq<MemoryEntry>, last: MemoryEntry)
    requires GroupsFollow(groups, seen, prefix)
    requires forall k :: 0 <= k < |prefix| ==> prefix[k].category in seen
    requires last.category !in seen
    ensures GroupsFollow(AddToGroup(groups, last.category, last.content), seen + [last.category], prefix + [last])
  {
    var memories := prefix + [last];
    assert memories[..|memories| - 1] == prefix;
    var c := last.category;
    ContentsOfAbsent(prefix, c);
    assert GroupIndex(groups, c).None?;
    var g := AddToGroup(groups, c, last.content);
    assert g == groups + [(c, [last.content])];
    var s := seen + [c];
    forall i | 0 <= i < |g| ensures g[i] == (s[i], ContentsOf(memories, s[i])) {
      assert ContentsOf(memories, s[i]) == ContentsOf(prefix, s[i]) + if c == s[i] then [last.content] else [];
      if i < |groups| {
        assert s[i] == seen[i] && s[i] != c;
        assert g[i] == groups[i];
        assert ContentsOf(prefix, s[i]) + [] == ContentsOf(prefix, s[i]);
      } else {
        assert ContentsOf(prefix, c) + [last.content] == [last.content];
      }
    }
  }

  /** A category no memory has collects nothing. */
  lemma {:induction false} ContentsOfAbsent(memories: seq<MemoryEntry>, category: string)
    requires forall k :: 0 <= k < |memories| ==> memories[k].category != category
    ensures ContentsOf(memories, category) == []
  {
    if |memories| > 0 {
      ContentsOfAbsent(memories[..|memories| - 1], category);
    }
  }

  /** The grouping has one group per category, in first-seen order, and each group holds the
      contents of exactly that category's memories, in their order. */
  lemma {:induction false} GroupedByFirstSeen(memories: seq<MemoryEntry>)
    ensures GroupsFollow(Grouped(memories), FirstSeen(memories), memories)
  {
    if |memories| > 0 {
      var prefix := memories[..|memories| - 1];
      var last := memories[|memories| - 1];
      GroupedByFirstSeen(prefix);
      var seen := FirstSeen(prefix);
      if last.category in seen {
        AddToSeenGroup(Grouped(prefix), seen, prefix, last);
      } else {
        AddToNewGroup(Grouped(prefix), seen, prefix, last);
      }
      assert prefix + [last] == memories;
      assert Grouped(memories) == AddToGroup(Grouped(prefix), last.category, last.content);
      assert FirstSeen(memories) == if last.category in seen then seen else seen + [last.category];
    }
  }

  /** The categories are ordered by first occurrence: for two categories listed in that
      order, the first memory of the later one comes after a memory of the earlier one. */
  lemma {:induction false} FirstSeenOrder(memories: seq<MemoryEntry>, i: int, j: int, m: int)
    requires 0 <= i < j < |FirstSeen(memories)|
    requires 0 <= m < |memories| && memories[m].category == FirstSeen(memories)[j]
    ensures exists l :: 0 <= l < m && memories[l].category == FirstSeen(memories)[i]
  {
    var prefix := memories[..|memories| - 1];
    var seen := FirstSeen(prefix);
    assert forall k :: 0 <= k < |prefix| ==> prefix[k] == memories[k];
    if m < |memories| - 1 {
      if j < |seen| {
        FirstSeenOrder(prefix, i, j, m);
        var l :| 0 <= l < m && prefix[l].category == seen[i];
        assert memories[l].category == FirstSeen(memories)[i];
      } else {
        // the later category first occurs at the last memory, yet memory m has it
        assert false;
      }
    } else {
      var c := FirstSeen(memories)[i];
      assert c in seen;
      var l :| 0 <= l < |prefix| && prefix[l].category == c;
      assert memories[l].category == c;
    }
  }

  function ItemLine(item: string): string {
    "- " + item + "\n"
  }

  function GroupBlock(group: (string, seq<string>)): string {
    "### " + group.0 + "\n" + ConcatMap(group.1, ItemLine) + "\n"
  }

  predicate IsCustom(skill: Skill) {
    skill.isCustom
  }

  function SkillBlock(skill: Skill): string {
    "### " + skill.name + "\n" + skill.description + "\n\n```\n" + skill.template + "\n```\n\n"
  }

  /** The Custom Skills section: present exactly when some skill is custom, and then a
      block per custom skill. */
  function CustomSkillsSection(skills: seq<Skill>): (r: string)
    ensures r != "" <==> exists k :: 0 <= k < |skills| && skills[k].isCustom
    ensures r != "" ==> StartsWith(r, "## Custom Skills\n\n")
  {
    var custom := Filter(skills, IsCustom);
    assert forall k :: 0 <= k < |skills| && skills[k].isCustom ==> skills[k] in custom;
    if |custom| > 0 then "## Custom Skills\n\n" + ConcatMap(custom, SkillBlock) else ""
  }

  /** The whole CLAUDE.md text. */
  function ClaudeMarkdown(userName: string, generated: string, answers: Answers,
                          memories: seq<MemoryEntry>, skills: seq<Skill>): string {
    Header(userName, generated) + "## Personal Preferences\n\n" + AnswersText(answers)
    + "## Memory Bank\n\n" + ConcatMap(Grouped(memories), GroupBlock) + CustomSkillsSection(skills)
  }

  /** The content `generateClaudeFile` builds, section by section, with the accumulator
      dictionary of the `reduce` as a list of groups. */
  method BuildClaudeFile(userName: string, generated: string, answers: Answers,
                         memories: seq<MemoryEntry>, skills: seq<Skill>) returns (content: string)
    ensures content == ClaudeMarkdown(userName, generated, answers, memories, skills)
  {
    content := Header(userName, generated);
    content := content + "## Personal Preferences\n\n";
    content := AppendAnswers(content, answers);
    content := content + "## Memory Bank\n\n";
    var groups := GroupMemories(memories);
    content := AppendGroups(content, groups);
    var custom := Filter(skills, IsCustom);
    if |custom| > 0 {
      content := content + "## Custom Skills\n\n";
      content := AppendSkills(content, custom);
    }
  }

  /** The `forEach` over the answer entries. */
  method AppendAnswers(start: string, answers: Answers) returns (content: string)
    ensures content == start + AnswersText(answers)
  {
    content := start;
    var i := 0;
    while i < |answers|
      invariant 0 <= i <= |answers|
      invariant content == start + AnswersText(answers[..i])
    {
      AppendPiece(start, content, answers, i, AnswerBlock);
      var question := QuestionFor(answers[i].0);
      if question.Some? && Truthy(answers[i].1) {
        content := content + AnswerBlock(answers[i]);
      } else {
        assert content + AnswerBlock(answers[i]) == content;
      }
      i := i + 1;
    }
    assert answers[..i] == answers;
  }

  /** The `reduce` that groups the memory contents by category: a category met for the first
      time gets an empty group at the end, then the content is pushed onto its group. */
  method GroupMemories(memories: seq<MemoryEntry>) returns (groups: Groups)
    ensures groups == Grouped(memories)
  {
    groups := [];
    var i := 0;
    while i < |memories|
      invariant 0 <= i <= |memories|
      invariant groups == Grouped(memories[..i])
    {
      assert memories[..i + 1][..i] == memories[..i];
      var mem := memories[i];
      var at := GroupIndex(groups, mem.category);
      if at.None? {
        ghost var before := groups;
        groups := groups + [(mem.category, [])];
        assert groups[|groups| - 1].1 + [mem.content] == [mem.content];
        groups := groups[|groups| - 1 := (mem.category, groups[|groups| - 1].1 + [mem.content])];
        assert groups == before + [(mem.category, [mem.content])];
      } else {
        groups := groups[at.value := (mem.category, groups[at.value].1 + [mem.content])];
      }
      i := i + 1;
    }
    assert memories[..i] == memories;
  }

  /** The `forEach` over the groups: a heading per category, then the inner `forEach` that
      lists its items, then a blank line. */
  method AppendGroups(start: string, groups: Groups) returns (content: string)
    ensures content == start + ConcatMap(groups, GroupBlock)
  {
    content := start;
    var i := 0;
    while i < |groups|
      invariant 0 <= i <= |groups|
      invariant content == start + ConcatMap(groups[..i], GroupBlock)
    {
      AppendPiece(start, content, groups, i, GroupBlock);
      var items := groups[i].1;
      var lines := "";
      var j := 0;
      while j < |items|
        invariant 0 <= j <= |items|
        invariant lines == "" + ConcatMap(items[..j], ItemLine)
      {
        AppendPiece("", lines, items, j, ItemLine);
        lines := lines + ItemLine(items[j]);
        j := j + 1;
      }
      assert items[..j] == items;
      content := content + ("### " + groups[i].0 + "\n" + lines + "\n");
      i := i + 1;
    }
    assert groups[..i] == groups;
  }

  /** The `forEach` over the custom skills. */
  method AppendSkills(start: string, custom: seq<Skill>) returns (content: string)
    ensures content == start + ConcatMap(custom, SkillBlock)
  {
    content := start;
    var i := 0;
    while i < |custom|
      invariant 0 <= i <= |custom|
      invariant content == start + ConcatMap(custom[..i], SkillBlock)
    {
      AppendPiece(start, content, custom, i, SkillBlock);
      content := content + SkillBlock(custom[i]);
      i := i + 1;
    }
    assert custom[..i] == custom;
  }

  // ---- exportProject ----

  /** The block of one section: its title and content, or nothing when the content is blank. */
  function SectionBlock(section: Section): (r: string)
    ensures r != "" <==> !IsBlank(section.content)
  {
    if !IsBlank(section.content) then "## " + section.title + "\n\n" + section.content + "\n\n" else ""
  }

  predicate HasContent(section: Section) {
    !IsBlank(section.content)
  }

  /** Only sections with non-blank content are emitted, in order: dropping the blank ones
      changes nothing, and every kept section prints a block. */
  lemma ExportSkipsBlankSections(sections: seq<Section>)
    ensures ConcatMap(sections, SectionBlock) == ConcatMap(Filter(sections, HasContent), SectionBlock)
    ensures forall k :: 0 <= k < |Filter(sections, HasContent)| ==>
      SectionBlock(Filter(sections, HasContent)[k]) != ""
  {
    ConcatMapFilter(sections, SectionBlock, HasContent);
  }

  function ProjectMarkdown(name: string, generated: string, sections: seq<Section>): string {
    "# " + name + " - Project Documentation\n\n" + "Generated: " + generated + "\n\n" + ConcatMap(sections, SectionBlock)
  }

  /** `s.replace(/\s+/g, '-')`: every maximal run of white space becomes one '-'. */
  function Hyphenate(s: string): (r: string)
    ensures forall k :: 0 <= k < |r| ==> !IsSpace(r[k])
    ensures (forall k :: 0 <= k < |s| ==> !IsSpace(s[k])) ==> r == s
    decreases |s|
  {
    if |s| == 0 then ""
    else if IsSpace(s[0]) then
      var rest := TrimStart(s[1..]);
      "-" + Hyphenate(rest)
    else [s[0]] + Hyphenate(s[1..])
  }

  /** The download name: the lower-cased project name with white-space runs hyphenated,
      followed by "-docs.md". */
  function ExportFilename(name: string): (r: string)
    ensures EndsWith(r, "-docs.md")
    ensures forall k :: 0 <= k < |r| - 8 ==> !IsSpace(r[k])
    ensures (forall k :: 0 <= k < |name| ==> !IsSpace(name[k])) ==> r == Lower(name) + "-docs.md"
  {
    var lower := Lower(name);
    assert forall k :: 0 <= k < |name| && !IsSpace(name[k]) ==> !IsSpace(lower[k]);
    Hyphenate(lower) + "-docs.md"
  }

  /** Leading white space followed by text that does not start with white space: `TrimStart`
      removes exactly the white space. */
  lemma {:induction false} TrimStartOfRun(w: string, b: string)
    requires AllSpace(w)
    requires b == [] || !IsSpace(b[0])
    ensures TrimStart(w + b) == b
  {
    if |w| > 0 {
      assert (w + b)[1..] == w[1..] + b;
      TrimStartOfRun(w[1..], b);
    }
  }

  /** `TrimStart` of a text with something besides white space ignores what follows. */
  lemma {:induction false} TrimStartOfPrefix(x: string, y: string)
    requires TrimStart(x) != []
    ensures TrimStart(x + y) == TrimStart(x) + y
  {
    if |x| > 0 && IsSpace(x[0]) {
      assert (x + y)[1..] == x[1..] + y;
      TrimStartOfPrefix(x[1..], y);
    } else {
      assert |x| > 0;
      assert (x + y)[0] == x[0];
    }
  }

  /** A character that is not white space is copied. */
  lemma HyphenateKeeps(c: char, s: string)
    requires !IsSpace(c)
    ensures Hyphenate([c] + s) == [c] + Hyphenate(s)
  {
    assert ([c] + s)[1..] == s;
  }

  /** A run of white space between two words becomes exactly one '-'. */
  lemma {:induction false} HyphenateRun(a: string, w: string, b: string)
    requires |w| > 0 && AllSpace(w)
    requires a == [] || !IsSpace(a[|a| - 1])
    requires b == [] || !IsSpace(b[0])
    ensures Hyphenate(a + w + b) == Hyphenate(a) + "-" + Hyphenate(b)
    decreases |a|
  {
    if |a| == 0 {
      var x := a + w + b;
      assert x == w + b;
      assert TrimStart(x[1..]) == b by {
        assert x[1..] == w[1..] + b;
        TrimStartOfRun(w[1..], b);
      }
      assert Hyphenate(x) == "-" + Hyphenate(b);
      assert Hyphenate(a) + "-" + Hyphenate(b) == "-" + Hyphenate(b);
    } else if IsSpace(a[0]) {
      var rest := LeadingSpaceDropped(a);
      HyphenateRun(rest, w, b);
      HyphenateRunAfterSpace(a, w, b);
    } else {
      var tail := a[1..];
      assert tail == [] || !IsSpace(tail[|tail| - 1]) by {
        if |a| > 1 { assert tail[|tail| - 1] == a[|a| - 1]; }
      }
      HyphenateRun(tail, w, b);
      HyphenateRunAfterWordChar(a, w, b);
    }
  }

  /** A text that starts with white space but does not end with it keeps a shorter
      non-empty remainder that still does not end with white space. */
  lemma LeadingSpaceDropped(a: string) returns (rest: string)
    requires |a| > 0 && IsSpace(a[0]) && !IsSpace(a[|a| - 1])
    ensures rest == TrimStart(a[1..])
    ensures 0 < |rest| < |a| && !IsSpace(rest[|rest| - 1])
  {
    rest := TrimStart(a[1..]);
    TrimStartDropsSpace(a[1..]);
    assert !IsSpace(a[1..][|a| - 2]);
    assert rest[|rest| - 1] == a[|a| - 1];
  }

  /** The step of `HyphenateRun` for a leading white-space character. */
  lemma HyphenateRunAfterSpace(a: string, w: string, b: string)
    requires |a| > 0 && IsSpace(a[0])
    requires TrimStart(a[1..]) != []
    requires Hyphenate(TrimStart(a[1..]) + w + b) == Hyphenate(TrimStart(a[1..])) + "-" + Hyphenate(b)
    ensures Hyphenate(a + w + b) == Hyphenate(a) + "-" + Hyphenate(b)
  {
    var x := a + w + b;
    var rest := TrimStart(a[1..]);
    assert Hyphenate(x) == "-" + Hyphenate(rest + w + b) by {
      DropFirstOfJoin(a, w, b);
      TrimStartOfPrefix(a[1..], w + b);
      Associate(rest, w, b);
      assert x[0] == a[0];
    }
    assert Hyphenate(a) == "-" + Hyphenate(rest);
    Regroup("-", Hyphenate(rest), Hyphenate(b));
  }

  lemma Associate(p: string, q: string, t: string)
    ensures p + (q + t) == p + q + t
  {
  }

  /** The step of `HyphenateRun` for a leading character that is not white space. */
  lemma HyphenateRunAfterWordChar(a: string, w: string, b: string)
    requires |a| > 0 && !IsSpace(a[0])
    requires Hyphenate(a[1..] + w + b) == Hyphenate(a[1..]) + "-" + Hyphenate(b)
    ensures Hyphenate(a + w + b) == Hyphenate(a) + "-" + Hyphenate(b)
  {
    var x := a + w + b;
    DropFirstOfJoin(a, w, b);
    assert x[0] == a[0] && x[1..] == a[1..] + w + b;
    assert Hyphenate(x) == [a[0]] + Hyphenate(a[1..] + w + b);
    assert Hyphenate(a) == [a[0]] + Hyphenate(a[1..]);
    Regroup([a[0]], Hyphenate(a[1..]), Hyphenate(b));
  }

  /** Dropping the first character of a joined text drops it from the first part. */
  lemma DropFirstOfJoin(a: string, w: string, b: string)
    requires |a| > 0
    ensures (a + w + b)[1..] == a[1..] + (w + b) == a[1..] + w + b
  {
    assert forall k :: 0 <= k < |a| - 1 + |w| + |b| ==> (a + w + b)[1..][k] == (a[1..] + (w + b))[k];
  }

  lemma Regroup(p: string, q: string, t: string)
    ensures p + (q + "-" + t) == (p + q) + "-" + t
  {
  }

  /** Lower-casing distributes over concatenation and keeps white space where it is. */
  lemma LowerConcat(x: string, y: string)
    ensures Lower(x + y) == Lower(x) + Lower(y)
    ensures forall k :: 0 <= k < |x| ==> (IsSpace(Lower(x)[k]) <==> IsSpace(x[k]))
  {
    assert forall k :: 0 <= k < |x + y| ==> Lower(x + y)[k] == (Lower(x) + Lower(y))[k];
  }

  /** In the file name, a run of white space between two words becomes exactly one '-'. */
  lemma ExportFilenameRun(a: string, w: string, b: string)
    requires |w| > 0 && AllSpace(w)
    requires a == [] || !IsSpace(a[|a| - 1])
    requires b == [] || !IsSpace(b[0])
    ensures ExportFilename(a + w + b) == Hyphenate(Lower(a)) + "-" + Hyphenate(Lower(b)) + "-docs.md"
  {
    LowerConcat(a + w, b);
    LowerConcat(a, w);
    LowerConcat(b, []);
    assert AllSpace(Lower(w));
    HyphenateRun(Lower(a), Lower(w), Lower(b));
  }

  /** In the file name, a character that is not white space is lower-cased and kept. */
  lemma ExportFilenameKeeps(c: char, s: string)
    requires !IsSpace(c)
    ensures ExportFilename([c] + s) == [LowerChar(c)] + ExportFilename(s)
  {
    LowerConcat([c], s);
    HyphenateKeeps(LowerChar(c), Lower(s));
  }

  /** The content and file name `exportProject` builds for the active project. */
  method ExportProject(name: string, sections: seq<Section>, generated: string)
    returns (content: string, filename: string)
    ensures content == ProjectMarkdown(name, generated, sections)
    ensures filename == ExportFilename(name)
  {
    content := "# " + name + " - Project Documentation\n\n";
    content := content + "Generated: " + generated + "\n\n";
    ghost var top := content;
    var i := 0;
    while i < |sections|
      invariant 0 <= i <= |sections|
      invariant content == top + ConcatMap(sections[..i], SectionBlock)
    {
      AppendPiece(top, content, sections, i, SectionBlock);
      if !IsBlank(sections[i].content) {
        content := content + SectionBlock(sections[i]);
      } else {
        assert content + SectionBlock(sections[i]) == content;
      }
      i := i + 1;
    }
    assert sections[..i] == sections;
    filename := ExportFilename(name);
  }
}
