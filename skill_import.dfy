/** The SKILL.md importer: the line-driven `parseSkillMd` parser with its fallbacks, the
    keyword classifier `getIconForSkill`, and the outcome of an upload (`POST`) once the
    archive and JSON decoding are done (the decoded entries are inputs). */
module SkillImport {
  import opened Wrappers
  import opened Seqs
  import opened Strings

  /** A skill as the importer returns it. */
  datatype ParsedSkill = ParsedSkill(name: string, description: string, template: string,
                                     category: string, icon: string)

  /** The variables `parseSkillMd` updates line by line. */
  datatype Scan = Scan(name: string, description: string, category: string, inTemplate: bool,
                       templateLines: seq<string>)

  const InitialScan: Scan := Scan("", "", "Other", false, [])

  /** The template used when neither the lines nor the text after the first line give one. */
  const FallbackTemplate: string := "You are an expert assistant..."

  /** `line.toLowerCase().startsWith(key)`. */
  predicate HasKey(line: string, key: string) {
    StartsWith(Lower(line), key)
  }

  /** A line that opens the template section: it mentions "## template" or "## prompt",
      in any case. */
  predicate IsTemplateMarker(line: string) {
    Contains(Lower(line), "## template") || Contains(Lower(line), "## prompt")
  }

  /** The value of a `key:` line: the text after the key, trimmed. The source first strips the
      key and the white space after it with a case-insensitive pattern; that white space is
      removed by the trim as well. */
  function ValueAfter(line: string, keyLength: nat): string
    requires keyLength <= |line|
  {
    Trim(line[keyLength..])
  }

  /** `line` is consumed by one of the metadata tests before the template tests are reached. */
  predicate TakenAsField(st: Scan, line: string) {
    (StartsWith(line, "# ") && st.name == "") || HasKey(line, "name:") || HasKey(line, "description:")
    || HasKey(line, "category:")
  }

  /** One pass of the loop body of `parseSkillMd` over `line`, in the source's order of tests.
      A heading sets the name only while it is empty, a `name:` line always sets it; inside
      the template section every line except code fences (and metadata and marker lines) is
      collected; before it, once name and description are known, non-blank lines without ':'
      are collected. */
  function Step(st: Scan, line: string): Scan
  {
    if StartsWith(line, "# ") && st.name == "" then st.(name := ValueAfter(line, 2))
    else if HasKey(line, "name:") then st.(name := ValueAfter(line, 5))
    else if HasKey(line, "description:") then st.(description := ValueAfter(line, 12))
    else if HasKey(line, "category:") then st.(category := ValueAfter(line, 9))
    else if IsTemplateMarker(line) then st.(inTemplate := true)
    else if StartsWith(line, "```") && st.inTemplate then st
    else if st.inTemplate then st.(templateLines := st.templateLines + [line])
    else if st.name != "" && st.description != "" && !IsBlank(line) && ':' !in line then
      st.(templateLines := st.templateLines + [line])
    else st
  }

  /** The state after the loop has run over `lines`. */
  function ScanLines(lines: seq<string>): Scan {
    if |lines| == 0 then InitialScan
    else Step(ScanLines(lines[..|lines| - 1]), lines[|lines| - 1])
  }

  /** A line that starts with a key does not start with "# ", and starts with no other key. */
  lemma KeysExclusive(line: string)
    ensures HasKey(line, "name:") ==> !StartsWith(line, "# ")
    ensures HasKey(line, "category:") ==> !StartsWith(line, "# ") && !HasKey(line, "name:") && !HasKey(line, "description:")
    ensures HasKey(line, "description:") ==> !StartsWith(line, "# ") && !HasKey(line, "name:")
  {
    if HasKey(line, "category:") || HasKey(line, "description:") || HasKey(line, "name:") {
      assert Lower(line)[0] == LowerChar(line[0]);
    }
  }

  /** A heading sets the name only while it is empty; a `name:` line always sets it; no other
      line changes the name, description or category. */
  lemma StepName(st: Scan, line: string)
    ensures StartsWith(line, "# ") ==> Step(st, line).name == if st.name == "" then ValueAfter(line, 2) else st.name
    ensures HasKey(line, "name:") ==> Step(st, line).name == ValueAfter(line, 5)
    ensures !TakenAsField(st, line) ==>
      && Step(st, line).name == st.name && Step(st, line).description == st.description
      && Step(st, line).category == st.category
    ensures !HasKey(line, "name:") && !(StartsWith(line, "# ") && st.name == "") ==>
      Step(st, line).name == st.name
  {
    KeysExclusive(line);
    if StartsWith(line, "# ") && st.name != "" && HasKey(line, "name:") {
      assert false;
    }
  }

  /** Once a template marker has been seen, every further line except code fences, markers and
      metadata lines is collected; before it, once the name and description are known,
      non-blank lines without ':' are collected; until then nothing is. */
  lemma StepTemplate(st: Scan, line: string)
    ensures st.inTemplate ==> Step(st, line).inTemplate
    ensures Step(st, line).inTemplate <==> st.inTemplate || (!TakenAsField(st, line) && IsTemplateMarker(line))
    ensures st.inTemplate && !TakenAsField(st, line) ==>
      Step(st, line).templateLines
        == st.templateLines + if StartsWith(line, "```") || IsTemplateMarker(line) then [] else [line]
    ensures !st.inTemplate && st.name != "" && st.description != "" && !TakenAsField(st, line) ==>
      Step(st, line).templateLines
        == st.templateLines + if !IsTemplateMarker(line) && !IsBlank(line) && ':' !in line then [line] else []
    ensures !st.inTemplate && (st.name == "" || st.description == "") ==>
      Step(st, line).templateLines == st.templateLines
  {
  }

  /** A step collects at most the line it reads. */
  lemma StepAddsAtMostTheLine(st: Scan, line: string)
    ensures Step(st, line).templateLines == st.templateLines
         || Step(st, line).templateLines == st.templateLines + [line]
  {
  }

  /** The value of the last `key:` line of `lines`, or `default` when there is none. */
  function LastValue(lines: seq<string>, key: string, default: string): string
    requires |key| > 0
  {
    if |lines| == 0 then default
    else if HasKey(lines[|lines| - 1], key) && |key| <= |lines[|lines| - 1]| then
      ValueAfter(lines[|lines| - 1], |key|)
    else LastValue(lines[..|lines| - 1], key, default)
  }

  /** The category is the value of the last `category:` line, "Other" when there is none:
      no other line can change it. */
  lemma {:induction false} CategoryIsLastCategoryLine(lines: seq<string>)
    ensures ScanLines(lines).category == LastValue(lines, "category:", "Other")
  {
    if |lines| > 0 {
      var last := lines[|lines| - 1];
      CategoryIsLastCategoryLine(lines[..|lines| - 1]);
      KeysExclusive(last);
    }
  }

  /** The description is the value of the last `description:` line, "" when there is none. */
  lemma {:induction false} DescriptionIsLastDescriptionLine(lines: seq<string>)
    ensures ScanLines(lines).description == LastValue(lines, "description:", "")
  {
    if |lines| > 0 {
      var last := lines[|lines| - 1];
      DescriptionIsLastDescriptionLine(lines[..|lines| - 1]);
      KeysExclusive(last);
    }
  }

  /** The value of the first heading line with a non-empty value, "" when there is none. */
  function FirstHeading(lines: seq<string>): string {
    if |lines| == 0 then ""
    else
      var h := FirstHeading(lines[..|lines| - 1]);
      var last := lines[|lines| - 1];
      if h != "" then h
      else if StartsWith(last, "# ") then ValueAfter(last, 2)
      else ""
  }

  /** Without `name:` lines the name is the first heading with a non-empty value: a heading
      counts only while the name is still empty. */
  lemma {:induction false} NameIsFirstHeading(lines: seq<string>)
    ensures (forall k :: 0 <= k < |lines| ==> !HasKey(lines[k], "name:")) ==>
      ScanLines(lines).name == FirstHeading(lines)
  {
    if |lines| > 0 && forall k :: 0 <= k < |lines| ==> !HasKey(lines[k], "name:") {
      var prefix := lines[..|lines| - 1];
      assert forall k :: 0 <= k < |prefix| ==> prefix[k] == lines[k];
      NameIsFirstHeading(prefix);
      StepName(ScanLines(prefix), lines[|lines| - 1]);
    }
  }

  /** The last `name:` line with a non-empty value decides the name: no later heading can
      replace a non-empty name. */
  lemma {:induction false} NameIsLastNameLine(lines: seq<string>)
    ensures LastValue(lines, "name:", "") != "" ==> ScanLines(lines).name == LastValue(lines, "name:", "")
  {
    if |lines| > 0 {
      var last := lines[|lines| - 1];
      var prefix := lines[..|lines| - 1];
      assert ScanLines(lines) == Step(ScanLines(prefix), last);
      StepName(ScanLines(prefix), last);
      if !HasKey(last, "name:") {
        assert LastValue(lines, "name:", "") == LastValue(prefix, "name:", "");
        NameIsLastNameLine(prefix);
      }
    }
  }

  /** Every collected template line is a line of the input, and they keep the input order. */
  lemma {:induction false} TemplateLinesFromInput(lines: seq<string>)
    ensures |ScanLines(lines).templateLines| <= |lines|
    ensures forall k :: 0 <= k < |ScanLines(lines).templateLines| ==> ScanLines(lines).templateLines[k] in lines
    ensures IsSubsequence(ScanLines(lines).templateLines, lines)
  {
    if |lines| > 0 {
      var prefix := lines[..|lines| - 1];
      var last := lines[|lines| - 1];
      var t := ScanLines(prefix).templateLines;
      TemplateLinesFromInput(prefix);
      StepAddsAtMostTheLine(ScanLines(prefix), last);
      assert forall x :: x in prefix ==> x in lines;
      assert IsSubsequence(ScanLines(lines).templateLines, lines) by {
        assert lines == prefix + [last];
        SubsequenceExtend(t, prefix, last);
      }
    }
  }

  /** After the first `i` lines, lines without `name:` can only fill an empty name, with
      their first heading that has a non-empty value. */
  lemma {:induction false} NameAfterPrefix(lines: seq<string>, i: int)
    requires 0 <= i <= |lines|
    requires forall k :: i <= k < |lines| ==> !HasKey(lines[k], "name:")
    ensures ScanLines(lines).name ==
      if ScanLines(lines[..i]).name != "" then ScanLines(lines[..i]).name else FirstHeading(lines[i..])
  {
    if i == |lines| {
      assert lines[..i] == lines;
      assert lines[i..] == [];
    } else {
      var prefix := lines[..|lines| - 1];
      assert forall k :: i <= k < |prefix| ==> prefix[k] == lines[k];
      NameAfterPrefix(prefix, i);
      NameAfterPrefixStep(lines, i);
    }
  }

  /** The step of `NameAfterPrefix`: one more line after the prefix. */
  lemma NameAfterPrefixStep(lines: seq<string>, i: int)
    requires 0 <= i < |lines| && !HasKey(lines[|lines| - 1], "name:")
    requires var prefix := lines[..|lines| - 1];
      ScanLines(prefix).name ==
        if ScanLines(prefix[..i]).name != "" then ScanLines(prefix[..i]).name else FirstHeading(prefix[i..])
    ensures ScanLines(lines).name ==
      if ScanLines(lines[..i]).name != "" then ScanLines(lines[..i]).name else FirstHeading(lines[i..])
  {
    var prefix := lines[..|lines| - 1];
    var last := lines[|lines| - 1];
    assert prefix[..i] == lines[..i];
    FirstHeadingOfSuffix(lines, i);
    StepName(ScanLines(prefix), last);
  }

  /** The first heading of `lines[i..]`, one line at a time from the back. */
  lemma FirstHeadingOfSuffix(lines: seq<string>, i: int)
    requires 0 <= i < |lines|
    ensures var prefix := lines[..|lines| - 1]; var last := lines[|lines| - 1];
      FirstHeading(lines[i..]) ==
        if FirstHeading(prefix[i..]) != "" then FirstHeading(prefix[i..])
        else if StartsWith(last, "# ") then ValueAfter(last, 2) else ""
  {
    var tail := lines[i..];
    assert tail[..|tail| - 1] == lines[..|lines| - 1][i..];
    assert tail[|tail| - 1] == lines[|lines| - 1];
  }

  /** When the last `name:` line has an empty value, it clears the name: only a later heading
      with a non-empty value, else the file name, gives the skill its name. */
  lemma NameAfterEmptyNameLine(content: string, filename: string, k: int)
    requires 0 <= k < |Split(content, '\n')|
    requires HasKey(Split(content, '\n')[k], "name:") && |Split(content, '\n')[k]| >= 5
    requires ValueAfter(Split(content, '\n')[k], 5) == ""
    requires forall j :: k < j < |Split(content, '\n')| ==> !HasKey(Split(content, '\n')[j], "name:")
    ensures var rest := Split(content, '\n')[k + 1..];
      ParseSkill(content, filename).name
        == if FirstHeading(rest) != "" then FirstHeading(rest) else NameFromFilename(filename)
  {
    var lines := Split(content, '\n');
    var p := lines[..k + 1];
    assert p[..k] == lines[..k];
    assert ScanLines(p) == Step(ScanLines(lines[..k]), lines[k]);
    StepName(ScanLines(lines[..k]), lines[k]);
    NameAfterPrefix(lines, k + 1);
  }

  function Dehyphen(c: char): char {
    if c == '-' || c == '_' then ' ' else c
  }

  /** `\w` of JavaScript regular expressions. */
  predicate IsWordChar(c: char) {
    ('a' <= c <= 'z') || ('A' <= c <= 'Z') || ('0' <= c <= '9') || c == '_'
  }

  /** The file name without a trailing ".md", matched in any case. */
  function WithoutMdExtension(filename: string): (r: string)
    ensures |r| <= |filename| && r == filename[..|r|]
    ensures |r| == |filename| - 3 <==> |filename| >= 3 && Lower(filename[|filename| - 3..]) == ".md"
    ensures |r| == |filename| || |r| == |filename| - 3
  {
    if |filename| >= 3 && Lower(filename[|filename| - 3..]) == ".md" then filename[..|filename| - 3]
    else filename
  }

  /** Position `i` of `s` is where the pattern `\b\w` matches. */
  predicate WordStart(s: string, i: int)
    requires 0 <= i < |s|
  {
    IsWordChar(s[i]) && (i == 0 || !IsWordChar(s[i - 1]))
  }

  /** Upper-cases the first character of every word. A lower-case letter is left only where
      it continues a word, and whether a character is a word character does not change. */
  function TitleCase(s: string): (r: string)
    ensures |r| == |s|
    ensures forall i :: 0 <= i < |s| ==> r[i] == if WordStart(s, i) then UpperChar(s[i]) else s[i]
    ensures forall i :: 0 <= i < |s| ==> IsWordChar(r[i]) == IsWordChar(s[i])
    ensures forall i :: 0 <= i < |s| ==> LowerChar(r[i]) == LowerChar(s[i])
    ensures forall i :: 0 <= i < |s| && 'a' <= r[i] <= 'z' ==> i > 0 && IsWordChar(s[i - 1])
  {
    seq(|s|, i requires 0 <= i < |s| => if WordStart(s, i) then UpperChar(s[i]) else s[i])
  }

  /** '-' and '_' turned into spaces. */
  function Spaced(s: string): (r: string)
    ensures |r| == |s|
    ensures forall i :: 0 <= i < |s| ==> r[i] == Dehyphen(s[i]) && r[i] != '-' && r[i] != '_'
  {
    seq(|s|, i requires 0 <= i < |s| => Dehyphen(s[i]))
  }

  /** The skill name derived from a file name: a trailing ".md" (in any case) dropped, '-'
      and '_' turned into spaces, and the first character of every word upper-cased; only
      the case of letters differs from the spaced-out base name. */
  function NameFromFilename(filename: string): (r: string)
    ensures |r| == |WithoutMdExtension(filename)|
    ensures forall i :: 0 <= i < |r| ==> r[i] != '-' && r[i] != '_'
    ensures forall i :: 0 <= i < |r| ==>
      LowerChar(r[i]) == LowerChar(Dehyphen(WithoutMdExtension(filename)[i]))
    ensures forall i :: 0 <= i < |r| && 'a' <= r[i] <= 'z' ==> i > 0 && IsWordChar(r[i - 1])
  {
    TitleCase(Spaced(WithoutMdExtension(filename)))
  }

  /** `content.slice(content.indexOf('\n') + 1).trim()` when there is a newline, else "". */
  function AfterFirstLine(content: string): string {
    match IndexOf(content, '\n')
    case None => ""
    case Some(i) => Trim(content[i + 1..])
  }

  /** What `parseSkillMd` returns once the loop is done: the template falls back to the text
      after the first line and then to a fixed sentence, the name to the file name, the
      description to "Imported skill: " and the name. */
  function Finish(st: Scan, content: string, filename: string): (r: ParsedSkill)
    ensures r.template != "" && !IsSpace(r.template[0]) && !IsSpace(r.template[|r.template| - 1])
    ensures r.template ==
      if Trim(Join(st.templateLines, '\n')) != "" then Trim(Join(st.templateLines, '\n'))
      else if AfterFirstLine(content) != "" then AfterFirstLine(content)
      else FallbackTemplate
    ensures r.name == if st.name != "" then st.name else NameFromFilename(filename)
    ensures r.description != ""
    ensures r.description == if st.description != "" then st.description else "Imported skill: " + r.name
    ensures r.category == st.category
    ensures r.icon == IconFor(r.name, r.category)
  {
    var collected := Trim(Join(st.templateLines, '\n'));
    var template := if collected != "" then collected else AfterFirstLine(content);
    var name := if st.name != "" then st.name else NameFromFilename(filename);
    var description := if st.description != "" then st.description else "Imported skill: " + name;
    ParsedSkill(name, description, if template != "" then template else FallbackTemplate,
                st.category, IconFor(name, st.category))
  }

  /** `parseSkillMd` as a function of its inputs. The template is never empty and never starts
      or ends with white space; the description is never empty; the category is the last
      `category:` value, "Other" without one. */
  function ParseSkill(content: string, filename: string): (r: ParsedSkill)
    ensures r.template != "" && !IsSpace(r.template[0]) && !IsSpace(r.template[|r.template| - 1])
    ensures r.category == LastValue(Split(content, '\n'), "category:", "Other")
    ensures LastValue(Split(content, '\n'), "name:", "") != "" ==>
      r.name == LastValue(Split(content, '\n'), "name:", "")
    ensures (forall k :: 0 <= k < |Split(content, '\n')| ==> !HasKey(Split(content, '\n')[k], "name:")) ==>
      r.name == if FirstHeading(Split(content, '\n')) != "" then FirstHeading(Split(content, '\n'))
                else NameFromFilename(filename)
    ensures r.description != ""
    ensures r.description ==
      if LastValue(Split(content, '\n'), "description:", "") != "" then LastValue(Split(content, '\n'), "description:", "")
      else "Imported skill: " + r.name
    ensures r.icon == IconFor(r.name, r.category)
  {
    var lines := Split(content, '\n');
    CategoryIsLastCategoryLine(lines);
    DescriptionIsLastDescriptionLine(lines);
    NameIsLastNameLine(lines);
    NameIsFirstHeading(lines);
    Finish(ScanLines(lines), content, filename)
  }

  /** `parseSkillMd`. String operations cannot throw, so the `catch` returning null is never
      taken and a skill always comes back. */
  method ParseSkillMd(content: string, filename: string) returns (skill: ParsedSkill)
    ensures skill == ParseSkill(content, filename)
    ensures skill.template != "" && skill.description != ""
  {
    var lines := Split(content, '\n');
    var name, description, category := "", "", "Other";
    var inTemplate := false;
    var templateLines: seq<string> := [];
    var i := 0;
    while i < |lines|
      invariant 0 <= i <= |lines|
      invariant Scan(name, description, category, inTemplate, templateLines) == ScanLines(lines[..i])
    {
      var line := lines[i];
      assert lines[..i + 1][..i] == lines[..i];
      if StartsWith(line, "# ") && name == "" {
        name := Trim(line[2..]);
      } else if StartsWith(Lower(line), "name:") {
        name := Trim(line[5..]);
      } else if StartsWith(Lower(line), "description:") {
        description := Trim(line[12..]);
      } else if StartsWith(Lower(line), "category:") {
        category := Trim(line[9..]);
      } else if Contains(Lower(line), "## template") || Contains(Lower(line), "## prompt") {
        inTemplate := true;
      } else if StartsWith(line, "```") && inTemplate {
        // a code fence inside the template section is skipped
      } else if inTemplate {
        templateLines := templateLines + [line];
      } else if name != "" && description != "" && !inTemplate && !IsBlank(line) && ':' !in line {
        templateLines := templateLines + [line];
      }
      i := i + 1;
    }
    assert lines[..i] == lines;
    skill := CompleteSkill(Scan(name, description, category, inTemplate, templateLines), content, filename);
  }

  /** The end of `parseSkillMd`, after the loop: the fallbacks for the template, the name and
      the description, and the icon. */
  method CompleteSkill(st: Scan, content: string, filename: string) returns (skill: ParsedSkill)
    ensures skill == Finish(st, content, filename)
  {
    var name, description := st.name, st.description;
    var template := Trim(Join(st.templateLines, '\n'));
    if template == "" {
      var firstNewline := IndexOf(content, '\n');
      if firstNewline.Some? {
        template := Trim(content[firstNewline.value + 1..]);
      }
    }
    if name == "" {
      name := NameFromFilename(filename);
    }
    if description == "" {
      description := "Imported skill: " + name;
    }
    var icon := IconFor(name, st.category);
    skill := ParsedSkill(name, description, if template != "" then template else FallbackTemplate, st.category, icon);
  }

  /** `getIconForSkill`: the icon of the first rule whose keyword occurs in the lower-cased
      category or name, in the order data, development, writing, marketing, design,
      research, product; a gear when none does. */
  function IconFor(name: string, category: string): string {
    IconForLower(Lower(name), Lower(category))
  }

  /** The rule chain of `getIconForSkill` on the lower-cased name `n` and category `c`. */
  function IconForLower(n: string, c: string): string {
    if Contains(c, "data") || Contains(n, "data") || Contains(n, "analytics") then "\U{1F4CA}"
    else if Contains(c, "develop") || Contains(n, "code") || Contains(n, "api") then "\U{1F4BB}"
    else if Contains(c, "writing") || Contains(n, "write") || Contains(n, "content") then "\U{270D}\U{FE0F}"
    else if Contains(c, "marketing") || Contains(n, "marketing") then "\U{1F4E2}"
    else if Contains(c, "design") || Contains(n, "design") then "\U{1F3A8}"
    else if Contains(c, "research") || Contains(n, "research") then "\U{1F52C}"
    else if Contains(c, "product") || Contains(n, "product") then "\U{1F4E6}"
    else GearIcon
  }

  const GearIcon: string := "\U{2699}\U{FE0F}"

  /** One classification rule: keywords looked for in the category, keywords looked for in
      the name, and the icon it gives. */
  datatype IconRule = IconRule(inCategory: seq<string>, inName: seq<string>, icon: string)

  /** The rule table of `getIconForSkill`, in priority order. */
  const IconRules: seq<IconRule> := [
    IconRule(["data"], ["data", "analytics"], "\U{1F4CA}"),
    IconRule(["develop"], ["code", "api"], "\U{1F4BB}"),
    IconRule(["writing"], ["write", "content"], "\U{270D}\U{FE0F}"),
    IconRule(["marketing"], ["marketing"], "\U{1F4E2}"),
    IconRule(["design"], ["design"], "\U{1F3A8}"),
    IconRule(["research"], ["research"], "\U{1F52C}"),
    IconRule(["product"], ["product"], "\U{1F4E6}")]

  predicate ContainsAny(s: string, keywords: seq<string>) {
    exists k :: 0 <= k < |keywords| && Contains(s, keywords[k])
  }

  predicate Matches(rule: IconRule, lowerName: string, lowerCategory: string) {
    ContainsAny(lowerCategory, rule.inCategory) || ContainsAny(lowerName, rule.inName)
  }

  /** A first-match classifier over any rule table: the icon of the first rule at or after
      position `from` that matches, or the gear when none does. */
  function FirstMatchingIcon(rules: seq<IconRule>, from: nat, lowerName: string, lowerCategory: string): (r: string)
    decreases |rules| - from
    ensures (forall k :: from <= k < |rules| ==> !Matches(rules[k], lowerName, lowerCategory)) ==> r == GearIcon
    ensures forall k :: from <= k < |rules| && Matches(rules[k], lowerName, lowerCategory) ==>
      (forall j :: from <= j < k ==> !Matches(rules[j], lowerName, lowerCategory)) ==> r == rules[k].icon
  {
    if from >= |rules| then GearIcon
    else if Matches(rules[from], lowerName, lowerCategory) then rules[from].icon
    else FirstMatchingIcon(rules, from + 1, lowerName, lowerCategory)
  }

  lemma ContainsAny1(s: string, a: string)
    ensures ContainsAny(s, [a]) <==> Contains(s, a)
  {
    if Contains(s, a) { assert [a][0] == a; }
  }

  lemma ContainsAny2(s: string, a: string, b: string)
    ensures ContainsAny(s, [a, b]) <==> Contains(s, a) || Contains(s, b)
  {
    if Contains(s, a) { assert [a, b][0] == a; }
    if Contains(s, b) { assert [a, b][1] == b; }
  }

  lemma IconRule6(n: string, c: string)
    ensures FirstMatchingIcon(IconRules, 6, n, c) == if Contains(c, "product") || Contains(n, "product") then "\U{1F4E6}" else GearIcon
  {
    ContainsAny1(c, "product"); ContainsAny1(n, "product");
  }

  lemma IconRule5(n: string, c: string)
    ensures FirstMatchingIcon(IconRules, 5, n, c) == if Contains(c, "research") || Contains(n, "research") then "\U{1F52C}" else FirstMatchingIcon(IconRules, 6, n, c)
  {
    ContainsAny1(c, "research"); ContainsAny1(n, "research");
  }

  lemma IconRule4(n: string, c: string)
    ensures FirstMatchingIcon(IconRules, 4, n, c) == if Contains(c, "design") || Contains(n, "design") then "\U{1F3A8}" else FirstMatchingIcon(IconRules, 5, n, c)
  {
    ContainsAny1(c, "design"); ContainsAny1(n, "design");
  }

  lemma IconRule3(n: string, c: string)
    ensures FirstMatchingIcon(IconRules, 3, n, c) == if Contains(c, "marketing") || Contains(n, "marketing") then "\U{1F4E2}" else FirstMatchingIcon(IconRules, 4, n, c)
  {
    ContainsAny1(c, "marketing"); ContainsAny1(n, "marketing");
  }

  lemma IconRule2(n: string, c: string)
    ensures FirstMatchingIcon(IconRules, 2, n, c) == if Contains(c, "writing") || Contains(n, "write") || Contains(n, "content") then "\U{270D}\U{FE0F}" else FirstMatchingIcon(IconRules, 3, n, c)
  {
    ContainsAny1(c, "writing"); ContainsAny2(n, "write", "content");
  }

  lemma IconRule1(n: string, c: string)
    ensures FirstMatchingIcon(IconRules, 1, n, c) == if Contains(c, "develop") || Contains(n, "code") || Contains(n, "api") then "\U{1F4BB}" else FirstMatchingIcon(IconRules, 2, n, c)
  {
    ContainsAny1(c, "develop"); ContainsAny2(n, "code", "api");
  }

  lemma IconRule0(n: string, c: string)
    ensures FirstMatchingIcon(IconRules, 0, n, c) == if Contains(c, "data") || Contains(n, "data") || Contains(n, "analytics") then "\U{1F4CA}" else FirstMatchingIcon(IconRules, 1, n, c)
  {
    ContainsAny1(c, "data"); ContainsAny2(n, "data", "analytics");
  }

  /** `getIconForSkill` is the first-match classifier over its rule table. */
  lemma IconForIsFirstMatch(name: string, category: string)
    ensures IconFor(name, category) == FirstMatchingIcon(IconRules, 0, Lower(name), Lower(category))
  {
    var n, c := Lower(name), Lower(category);
    IconRule0(n, c); IconRule1(n, c); IconRule2(n, c); IconRule3(n, c);
    IconRule4(n, c); IconRule5(n, c); IconRule6(n, c);
  }

  // ---- The upload outcome (`POST`) ----

  /** One skill object of a `skill.json` manifest, with "" for a field that is missing or falsy. */
  datatype ManifestSkill = ManifestSkill(name: string, description: string, template: string,
                                         category: string, icon: string)

  /** An element of a manifest's `skills` array; `NullItem` is a null or undefined element,
      whose field access throws and ends the processing of that manifest. */
  datatype ManifestItem = Item(skill: ManifestSkill) | NullItem

  /** The decoded `skill.json`: `Unreadable` when the text is not JSON or is `null`; otherwise
      its top-level fields and its `skills` array, if it has one. */
  datatype Manifest = Unreadable | Manifest(top: ManifestSkill, skills: Option<seq<ManifestItem>>)

  /** A file of the archive: its path, whether it is a directory, its text and that text
      decoded as a manifest. */
  datatype ZipEntry = ZipEntry(filename: string, isDir: bool, text: string, manifest: Manifest)

  /** The uploaded file: its name, its text, and its entries when it opens as a ZIP archive. */
  datatype Upload = Upload(name: string, text: string, archive: Option<seq<ZipEntry>>)

  datatype ImportResponse = Imported(skills: seq<ParsedSkill>) | Rejected(status: nat, error: string)

  const NoFileError: string := "No file provided"
  const UnsupportedError: string := "Unsupported file type. Please upload .md or .zip files."
  const NoSkillsError: string := "No valid skills found in the uploaded file"
  const ProcessingError: string := "Failed to process uploaded file"

  /** A manifest entry is kept only when it has both a name and a template. */
  predicate Usable(m: ManifestSkill) {
    m.name != "" && m.template != ""
  }

  /** A kept manifest entry with its defaults: description, category "Other", and an icon
      chosen from the name and the category as given. */
  function Normalise(m: ManifestSkill): (r: ParsedSkill)
    requires Usable(m)
    ensures r.name == m.name && r.template == m.template
    ensures r.description == if m.description != "" then m.description else "Imported skill: " + m.name
    ensures r.category == if m.category != "" then m.category else "Other"
    ensures r.icon == if m.icon != "" then m.icon else IconFor(m.name, m.category)
    ensures r.description != "" && r.category != "" && r.icon != ""
  {
    ParsedSkill(
      m.name,
      if m.description != "" then m.description else "Imported skill: " + m.name,
      m.template,
      if m.category != "" then m.category else "Other",
      if m.icon != "" then m.icon else IconFor(m.name, m.category))
  }

  /** The skills taken from a manifest's `skills` array: the usable entries, normalised, in
      order, up to the first null element. */
  function ItemSkills(items: seq<ManifestItem>): (r: seq<ParsedSkill>)
    ensures |r| <= |items|
    ensures forall k :: 0 <= k < |r| ==> r[k].name != "" && r[k].template != ""
  {
    if |items| == 0 then []
    else match items[0]
      case NullItem => []
      case Item(m) => (if Usable(m) then [Normalise(m)] else []) + ItemSkills(items[1..])
  }

  /** Elements before the first null each contribute on their own, in order. */
  lemma {:induction false} ItemSkillsConcat(a: seq<ManifestItem>, b: seq<ManifestItem>)
    requires forall k :: 0 <= k < |a| ==> a[k].Item?
    ensures ItemSkills(a + b) == ItemSkills(a) + ItemSkills(b)
  {
    if |a| == 0 {
      assert a + b == b;
    } else {
      assert (a + b)[0] == a[0];
      assert (a + b)[1..] == a[1..] + b;
      ItemSkillsConcat(a[1..], b);
    }
  }

  /** One element gives its normalised skill when usable, nothing otherwise; a null element
      ends the array. */
  lemma ItemSkillsOne(m: ManifestSkill, rest: seq<ManifestItem>)
    ensures ItemSkills([Item(m)]) == if Usable(m) then [Normalise(m)] else []
    ensures ItemSkills([NullItem] + rest) == []
  {
    assert [Item(m)][1..] == [];
  }

  /** The skills of one manifest: the top-level skill when it is usable, otherwise the
      entries of its `skills` array. */
  function ManifestSkills(manifest: Manifest): seq<ParsedSkill> {
    match manifest
    case Unreadable => []
    case Manifest(top, skills) =>
      if Usable(top) then [Normalise(top)]
      else if skills.Some? then ItemSkills(skills.value)
      else []
  }

  predicate IsManifestPath(filename: string) {
    Lower(filename) == "skill.json" || EndsWith(Lower(filename), "/skill.json")
  }

  /** The skills one archive entry contributes: a parsed skill for a `.md` file, the manifest's
      skills for a `skill.json`, nothing for a directory or any other file. */
  function EntrySkills(e: ZipEntry): seq<ParsedSkill> {
    if e.isDir then []
    else if EndsWith(Lower(e.filename), ".md") then [ParseSkill(e.text, e.filename)]
    else if IsManifestPath(e.filename) then ManifestSkills(e.manifest)
    else []
  }

  /** The skills of the archive, entry by entry in archive order. */
  function ArchiveSkills(entries: seq<ZipEntry>): seq<ParsedSkill> {
    if |entries| == 0 then []
    else ArchiveSkills(entries[..|entries| - 1]) + EntrySkills(entries[|entries| - 1])
  }

  /** The response of `POST` for an upload. */
  function ImportOutcome(file: Option<Upload>): ImportResponse {
    match file
    case None => Rejected(400, NoFileError)
    case Some(upload) =>
      var lowerName := Lower(upload.name);
      if EndsWith(lowerName, ".md") then Imported([ParseSkill(upload.text, upload.name)])
      else if !EndsWith(lowerName, ".zip") then Rejected(400, UnsupportedError)
      else if upload.archive.None? then Rejected(500, ProcessingError)
      else if ArchiveSkills(upload.archive.value) == [] then Rejected(400, NoSkillsError)
      else Imported(ArchiveSkills(upload.archive.value))
  }

  /** `POST /api/skills/import`, once the form, the archive and the manifests are decoded. */
  method ImportSkills(file: Option<Upload>) returns (response: ImportResponse)
    ensures response == ImportOutcome(file)
  {
    if file.None? {
      return Rejected(400, NoFileError);
    }
    var upload := file.value;
    var skills: seq<ParsedSkill> := [];
    if EndsWith(Lower(upload.name), ".md") {
      var skill := ParseSkillMd(upload.text, upload.name);
      skills := skills + [skill];
    } else if EndsWith(Lower(upload.name), ".zip") {
      if upload.archive.None? {
        return Rejected(500, ProcessingError);
      }
      skills := ImportArchive(upload.archive.value);
    } else {
      return Rejected(400, UnsupportedError);
    }
    if |skills| == 0 {
      return Rejected(400, NoSkillsError);
    }
    return Imported(skills);
  }

  /** The loop over the archive entries, in archive order. */
  method ImportArchive(entries: seq<ZipEntry>) returns (skills: seq<ParsedSkill>)
    ensures skills == ArchiveSkills(entries)
  {
    skills := [];
    var i := 0;
    while i < |entries|
      invariant 0 <= i <= |entries|
      invariant skills == ArchiveSkills(entries[..i])
    {
      assert entries[..i + 1][..i] == entries[..i];
      var found := ImportEntry(entries[i]);
      skills := skills + found;
      i := i + 1;
    }
    assert entries[..i] == entries;
  }

  /** The body of the loop over the archive entries: directories are skipped, a `.md` file
      is parsed, a `skill.json` contributes its manifest's skills. */
  method ImportEntry(entry: ZipEntry) returns (found: seq<ParsedSkill>)
    ensures found == EntrySkills(entry)
  {
    found := [];
    if entry.isDir {
      // directories are skipped
    } else if EndsWith(Lower(entry.filename), ".md") {
      var skill := ParseSkillMd(entry.text, entry.filename);
      found := [skill];
    } else if IsManifestPath(entry.filename) {
      found := ManifestEntrySkills(entry.manifest);
    }
  }

  /** The manifest branch of `POST`: the loop over the `skills` array stops at a null element,
      whose field access throws into the manifest's `catch`. */
  method ManifestEntrySkills(manifest: Manifest) returns (found: seq<ParsedSkill>)
    ensures found == ManifestSkills(manifest)
  {
    found := [];
    if manifest.Unreadable? {
      return;
    }
    if Usable(manifest.top) {
      found := [Normalise(manifest.top)];
      return;
    }
    if manifest.skills.None? {
      return;
    }
    found := ImportItems(manifest.skills.value);
  }

  /** The loop over a manifest's `skills` array: it stops at the first null element. */
  method ImportItems(items: seq<ManifestItem>) returns (found: seq<ParsedSkill>)
    ensures found == ItemSkills(items)
  {
    found := [];
    var j := 0;
    while j < |items|
      invariant 0 <= j <= |items|
      invariant found + ItemSkills(items[j..]) == ItemSkills(items)
    {
      assert items[j..][1..] == items[j + 1..];
      if items[j].NullItem? {
        assert ItemSkills(items[j..]) == [];
        assert found + [] == found;
        return;
      }
      var s := items[j].skill;
      var more := if Usable(s) then [Normalise(s)] else [];
      assert ItemSkills(items[j..]) == more + ItemSkills(items[j + 1..]);
      assert found + (more + ItemSkills(items[j + 1..])) == (found + more) + ItemSkills(items[j + 1..]);
      found := found + more;
      j := j + 1;
    }
    assert items[j..] == [];
  }

  /** An `.md` upload always yields exactly its parsed skill: it is never rejected. */
  lemma MarkdownUploadImported(upload: Upload)
    requires EndsWith(Lower(upload.name), ".md")
    ensures ImportOutcome(Some(upload)) == Imported([ParseSkill(upload.text, upload.name)])
  {
  }

  /** Every response is a success with at least one skill, each with a non-empty template and
      description, or a rejection with status 400 or 500; an upload that is neither `.md` nor
      `.zip` is rejected with 400. */
  lemma {:induction false} OutcomeShape(file: Option<Upload>)
    ensures ImportOutcome(file).Imported? ==>
      && ImportOutcome(file).skills != []
      && forall k :: 0 <= k < |ImportOutcome(file).skills| ==>
           ImportOutcome(file).skills[k].template != "" && ImportOutcome(file).skills[k].description != ""
    ensures ImportOutcome(file).Rejected? ==> ImportOutcome(file).status in {400, 500}
    ensures file.Some? && !EndsWith(Lower(file.value.name), ".md") && !EndsWith(Lower(file.value.name), ".zip") ==>
      ImportOutcome(file) == Rejected(400, UnsupportedError)
  {
    if file.Some? && file.value.archive.Some? {
      ArchiveSkillsComplete(file.value.archive.value);
    }
  }

  /** Every skill taken from an archive has a non-empty template and description. */
  lemma {:induction false} ArchiveSkillsComplete(entries: seq<ZipEntry>)
    ensures forall k :: 0 <= k < |ArchiveSkills(entries)| ==>
      ArchiveSkills(entries)[k].template != "" && ArchiveSkills(entries)[k].description != ""
  {
    if |entries| > 0 {
      ArchiveSkillsComplete(entries[..|entries| - 1]);
      var e := entries[|entries| - 1];
      var before := ArchiveSkills(entries[..|entries| - 1]);
      var more := EntrySkills(e);
      assert forall k :: 0 <= k < |more| ==> more[k].template != "" && more[k].description != "" by {
        if !e.isDir && !EndsWith(Lower(e.filename), ".md") && IsManifestPath(e.filename) && e.manifest.Manifest? {
          if !Usable(e.manifest.top) && e.manifest.skills.Some? {
            ItemSkillsDescribed(e.manifest.skills.value);
          }
        }
      }
      assert ArchiveSkills(entries) == before + more;
    }
  }

  /** Every skill taken from a manifest array has a description. */
  lemma {:induction false} ItemSkillsDescribed(items: seq<ManifestItem>)
    ensures forall k :: 0 <= k < |ItemSkills(items)| ==> ItemSkills(items)[k].description != ""
  {
    if |items| > 0 && items[0].Item? {
      ItemSkillsDescribed(items[1..]);
    }
  }
}
