/** The discovery questionnaire of the onboarding page: the fixed question list, the answer
    record keyed by question id, and the multiselect toggle. */
module Questionnaire {
  import opened Wrappers
  import opened Seqs

  datatype Kind = Select | Text | Multiselect | Textarea

  datatype Question = Question(id: string, text: string, kind: Kind)

  /** `discoveryQuestions`, in order (the offered options are presentation only). */
  const Questions: seq<Question> := [
    Question("role", "What is your primary role?", Select),
    Question("experience", "How experienced are you with AI assistants?", Select),
    Question("industry", "What industry do you work in?", Text),
    Question("tasks", "What tasks do you most commonly need help with?", Multiselect),
    Question("tone", "What communication style do you prefer?", Select),
    Question("format", "How do you prefer responses formatted?", Select),
    Question("detail", "How much detail do you typically want?", Select),
    Question("feedback", "Do you want Claude to ask clarifying questions?", Select),
    Question("codeStyle", "If coding, what languages do you primarily use?", Text),
    Question("goals", "What are your main goals using Claude?", Textarea),
    Question("challenges", "What challenges do you face in your work?", Textarea),
    Question("tools", "What tools/software do you use daily?", Text),
    Question("timezone", "What timezone are you in?", Text),
    Question("availability", "When do you typically work with Claude?", Select),
    Question("other", "Anything else Claude should know about you?", Textarea)]

  /** The number of questions. */
  const QuestionCount: nat := 15

  lemma QuestionCountIsLength()
    ensures |Questions| == QuestionCount
  {
  }

  /** An answer: the text of a single-value question or the options picked in a multiselect. */
  datatype Answer = Single(text: string) | Choices(options: seq<string>)

  /** An answer is listed in the generated file when it is truthy: a non-empty string, or
      any array (an empty array is truthy in JavaScript). */
  predicate Truthy(a: Answer) {
    a.Choices? || a.text != ""
  }

  /** The answer record (`Record<string, string | string[]>`): its entries in the order the
      keys were first set. */
  type Answers = seq<(string, Answer)>

  predicate DistinctKeys(answers: Answers) {
    forall i, j :: 0 <= i < j < |answers| ==> answers[i].0 != answers[j].0
  }

  /** `answers[key]`: the value of the first entry with that key. */
  function Lookup(answers: Answers, key: string): (r: Option<Answer>)
    ensures r.None? ==> forall i :: 0 <= i < |answers| ==> answers[i].0 != key
  {
    if |answers| == 0 then None
    else if answers[0].0 == key then Some(answers[0].1)
    else
      var r := Lookup(answers[1..], key);
      assert forall i :: 1 <= i < |answers| ==> answers[i] == answers[1..][i - 1];
      r
  }

  /** With distinct keys, each entry is what `Lookup` finds for its key. */
  lemma {:induction false} LookupAt(answers: Answers, i: int)
    requires DistinctKeys(answers) && 0 <= i < |answers|
    ensures Lookup(answers, answers[i].0) == Some(answers[i].1)
  {
    if i > 0 {
      assert answers[1..][i - 1] == answers[i];
      LookupAt(answers[1..], i - 1);
    }
  }

  /** A key no entry has is not found. */
  lemma {:induction false} LookupAbsent(answers: Answers, key: string)
    requires forall i :: 0 <= i < |answers| ==> answers[i].0 != key
    ensures Lookup(answers, key).None?
  {
    if |answers| > 0 {
      assert forall i :: 0 <= i < |answers[1..]| ==> answers[1..][i] == answers[i + 1];
      LookupAbsent(answers[1..], key);
    }
  }

  /** `{ ...answers, [key]: value }`: an existing key keeps its position and gets the new
      value, a new key is appended. */
  function Put(answers: Answers, key: string, value: Answer): (r: Answers)
    ensures |r| == |answers| || |r| == |answers| + 1
    ensures forall i :: 0 <= i < |answers| ==> r[i].0 == answers[i].0
    ensures forall i :: 0 <= i < |answers| && answers[i].0 != key ==> r[i] == answers[i]
    ensures DistinctKeys(answers) ==> forall i :: 0 <= i < |answers| && answers[i].0 == key ==> r[i] == (key, value)
    ensures |r| == |answers| + 1 <==> forall i :: 0 <= i < |answers| ==> answers[i].0 != key
    ensures |r| == |answers| + 1 ==> r[|answers|] == (key, value)
  {
    if |answers| == 0 then [(key, value)]
    else if answers[0].0 == key then [(key, value)] + answers[1..]
    else
      var r := [answers[0]] + Put(answers[1..], key, value);
      assert DistinctKeys(answers) ==> DistinctKeys(answers[1..]) by {
        if DistinctKeys(answers) {
          forall i, j | 0 <= i < j < |answers[1..]| ensures answers[1..][i].0 != answers[1..][j].0 {
            assert answers[1..][i] == answers[i + 1] && answers[1..][j] == answers[j + 1];
          }
        }
      }
      r
  }

  /** `Put` keeps the keys distinct. */
  lemma PutDistinct(answers: Answers, key: string, value: Answer)
    requires DistinctKeys(answers)
    ensures DistinctKeys(Put(answers, key, value))
  {
    var r := Put(answers, key, value);
    forall i, j | 0 <= i < j < |r| ensures r[i].0 != r[j].0 {
      if j == |answers| {
        assert r[i].0 == answers[i].0;
      }
    }
  }

  /** After `Put`, the key has the new value. */
  lemma PutThenLookupSame(answers: Answers, key: string, value: Answer)
    requires DistinctKeys(answers)
    ensures Lookup(Put(answers, key, value), key) == Some(value)
  {
    var r := Put(answers, key, value);
    PutDistinct(answers, key, value);
    if i :| 0 <= i < |answers| && answers[i].0 == key {
      LookupAt(r, i);
    } else {
      LookupAt(r, |answers|);
    }
  }

  /** After `Put`, every other key keeps its value. */
  lemma PutThenLookupOther(answers: Answers, key: string, value: Answer, other: string)
    requires DistinctKeys(answers) && other != key
    ensures Lookup(Put(answers, key, value), other) == Lookup(answers, other)
  {
    var r := Put(answers, key, value);
    PutDistinct(answers, key, value);
    if i :| 0 <= i < |answers| && answers[i].0 == other {
      LookupAt(r, i);
      LookupAt(answers, i);
    } else {
      LookupAbsent(answers, other);
      forall i | 0 <= i < |r| ensures r[i].0 != other {
        if i < |answers| { assert r[i].0 == answers[i].0; }
      }
      LookupAbsent(r, other);
    }
  }

  /** The options currently picked for a multiselect: `answers[id] || []`. */
  function Picked(answers: Answers, id: string): seq<string> {
    match Lookup(answers, id)
    case Some(Choices(options)) => options
    case _ => []
  }

  /** The multiselect click: a picked option is removed (every copy of it), any other option
      is appended at the end. */
  function Toggle(current: seq<string>, option: string): (r: seq<string>)
    ensures option in r <==> option !in current
    ensures option in current ==> forall x :: x in r <==> x in current && x != option
    ensures option !in current ==> r == current + [option]
  {
    if option in current then RemoveAll(current, option) else current + [option]
  }

  /** Unpicking keeps the other picks in their order and with their copies: on any split of
      the list each part loses its copies of the option and nothing else, and the count of
      every other option is unchanged. */
  lemma ToggleRemovesInOrder(a: seq<string>, b: seq<string>, option: string)
    requires option in a + b
    ensures Toggle(a + b, option) == RemoveAll(a, option) + RemoveAll(b, option)
    ensures multiset(Toggle(a + b, option)) == multiset(a + b)[option := 0]
  {
    RemoveAllConcat(a, b, option);
    RemoveAllCounts(a + b, option);
  }

  /** Toggling an option that was not picked, twice, gives back the original list. */
  lemma ToggleTwice(current: seq<string>, option: string)
    requires option !in current
    ensures Toggle(Toggle(current, option), option) == current
  {
    var once := current + [option];
    assert option in once;
    var twice := RemoveAll(once, option);
    RemoveAllAppended(current, option);
  }

  lemma {:induction false} RemoveAllAppended(s: seq<string>, v: string)
    requires v !in s
    ensures RemoveAll(s + [v], v) == s
  {
    assert (s + [v])[..|s + [v]| - 1] == s;
  }
}
