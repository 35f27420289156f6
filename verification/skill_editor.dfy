/** The skill editor of one skill category. Each skill has two list fields
    (projects, keywords) that the user types as comma-separated text. The
    editor keeps the typed text verbatim in a side buffer, one entry per
    skill, and re-parses it into the skill's list on every keystroke. */
module SkillEditor {
  import opened Optional
  import Text
  import ArrayField
  import Api

  datatype Skill = Skill(name: string, level: string, experience: string, details: string, projects: seq<string>, keywords: seq<string>)

  /** The verbatim text of a skill's two list inputs. */
  datatype RawInput = RawInput(projects: string, keywords: string)

  datatype ListField = ProjectsField | KeywordsField

  datatype TextField = NameField | LevelField | ExperienceField | DetailsField

  /** The editor's state: its category, the skills being edited and the side
      buffer of raw inputs. */
  datatype Editor = Editor(category: string, skills: seq<Skill>, raw: seq<RawInput>)

  function GetList(s: Skill, f: ListField): seq<string> {
    match f
    case ProjectsField => s.projects
    case KeywordsField => s.keywords
  }

  function GetRaw(r: RawInput, f: ListField): string {
    match f
    case ProjectsField => r.projects
    case KeywordsField => r.keywords
  }

  function GetText(s: Skill, f: TextField): string {
    match f
    case NameField => s.name
    case LevelField => s.level
    case ExperienceField => s.experience
    case DetailsField => s.details
  }

  /** The side buffer has one entry per skill. */
  predicate Aligned(e: Editor) {
    |e.skills| == |e.raw|
  }

  /** Skill `s` with list field `f` replaced. */
  function SetList(s: Skill, f: ListField, l: seq<string>): (r: Skill)
    ensures GetList(r, f) == l
    ensures forall g :: g != f ==> GetList(r, g) == GetList(s, g)
    ensures forall t :: GetText(r, t) == GetText(s, t)
  {
    match f
    case ProjectsField => s.(projects := l)
    case KeywordsField => s.(keywords := l)
  }

  /** Buffer `b` with field `f` replaced. */
  function SetRaw(b: RawInput, f: ListField, v: string): (r: RawInput)
    ensures GetRaw(r, f) == v
    ensures forall g :: g != f ==> GetRaw(r, g) == GetRaw(b, g)
  {
    match f
    case ProjectsField => b.(projects := v)
    case KeywordsField => b.(keywords := v)
  }

  /** Every buffer parses to the list it stands for. */
  ghost predicate InSync(e: Editor) {
    Aligned(e) && forall i, f :: 0 <= i < |e.skills| ==> Text.ParseList(GetRaw(e.raw[i], f)) == GetList(e.skills[i], f)
  }

  /** The buffer the editor starts with for one skill: each list joined with ", ". */
  function RawOf(s: Skill): (r: RawInput)
    ensures forall f :: GetRaw(r, f) == Text.Format(GetList(s, f))
  {
    RawInput(Text.Format(s.projects), Text.Format(s.keywords))
  }

  /** The editor as it mounts: the given skills and, for each, its formatted
      buffers. */
  function Open(category: string, skills: seq<Skill>): (e: Editor)
    ensures Aligned(e) && e.skills == skills && e.category == category
    ensures forall i :: 0 <= i < |skills| ==> e.raw[i] == RawOf(skills[i])
  {
    Editor(category, skills, seq(|skills|, i requires 0 <= i < |skills| => RawOf(skills[i])))
  }

  /** Lists whose entries are non-empty, trimmed and comma-free. */
  predicate Formattable(s: Skill) {
    forall f, k :: 0 <= k < |GetList(s, f)| ==> Text.ListEntry(GetList(s, f)[k])
  }

  /** The mounted editor is in sync whenever every list entry is non-empty,
      trimmed and comma-free: parsing a formatted buffer gives the list back. */
  lemma OpenInSync(category: string, skills: seq<Skill>)
    requires forall i :: 0 <= i < |skills| ==> Formattable(skills[i])
    ensures InSync(Open(category, skills))
  {
    var e := Open(category, skills);
    forall i, f | 0 <= i < |skills| ensures Text.ParseList(GetRaw(e.raw[i], f)) == GetList(e.skills[i], f) {
      Text.ParseFormat(GetList(skills[i], f));
    }
  }

  /** `addSkill()`: a default skill (level "Beginner", empty texts and lists)
      and an empty buffer are appended, so both arrays grow by one. */
  function AddSkill(e: Editor): (r: Editor)
    ensures r.skills == e.skills + [Skill("", "Beginner", "", "", [], [])]
    ensures r.raw == e.raw + [RawInput("", "")]
    ensures r.category == e.category
    ensures Aligned(e) ==> Aligned(r)
  {
    Editor(e.category, e.skills + [Skill("", "Beginner", "", "", [], [])], e.raw + [RawInput("", "")])
  }

  /** The index an entry at position `k` came from once index `i` of an
      array of length `n` is removed. */
  function Origin(n: nat, i: int, k: nat): nat {
    if 0 <= i < n && k >= i then k + 1 else k
  }

  /** `removeSkill(i)`: index `i` leaves both arrays; a skill and its buffer
      stay at the same index as each other. */
  function RemoveSkill(e: Editor, i: int): (r: Editor)
    ensures r.skills == ArrayField.RemoveAt(e.skills, i) && r.raw == ArrayField.RemoveAt(e.raw, i)
    ensures r.category == e.category
    ensures Aligned(e) ==> Aligned(r)
    ensures Aligned(e) ==> forall k :: 0 <= k < |r.skills| ==>
      Origin(|e.skills|, i, k) < |e.skills| && r.skills[k] == e.skills[Origin(|e.skills|, i, k)] && r.raw[k] == e.raw[Origin(|e.skills|, i, k)]
  {
    Editor(e.category, ArrayField.RemoveAt(e.skills, i), ArrayField.RemoveAt(e.raw, i))
  }

  /** `handleArrayInputChange(i, f, value)`: the buffer of field `f` of skill
      `i` takes `value` verbatim, and the list takes the parse of `value`;
      every other skill, buffer and field is unchanged. */
  function ArrayInputChange(e: Editor, i: int, f: ListField, value: string): (r: Editor)
    requires Aligned(e) && 0 <= i < |e.skills|
    ensures Aligned(r) && |r.skills| == |e.skills| && r.category == e.category
    ensures GetRaw(r.raw[i], f) == value && GetList(r.skills[i], f) == Text.ParseList(value)
    ensures forall g :: g != f ==> GetRaw(r.raw[i], g) == GetRaw(e.raw[i], g) && GetList(r.skills[i], g) == GetList(e.skills[i], g)
    ensures forall t :: GetText(r.skills[i], t) == GetText(e.skills[i], t)
    ensures forall k :: 0 <= k < |e.skills| && k != i ==> r.skills[k] == e.skills[k] && r.raw[k] == e.raw[k]
  {
    var s := SetList(e.skills[i], f, Text.ParseList(value));
    var b := SetRaw(e.raw[i], f, value);
    Editor(e.category, e.skills[i := s], e.raw[i := b])
  }

  /** Typing into the name, level, experience or details input of skill `i`:
      that text of that skill changes and nothing else. */
  function SetText(e: Editor, i: int, t: TextField, value: string): (r: Editor)
    requires 0 <= i < |e.skills|
    ensures |r.skills| == |e.skills| && r.raw == e.raw && r.category == e.category
    ensures GetText(r.skills[i], t) == value
    ensures forall u :: u != t ==> GetText(r.skills[i], u) == GetText(e.skills[i], u)
    ensures forall f :: GetList(r.skills[i], f) == GetList(e.skills[i], f)
    ensures forall k :: 0 <= k < |e.skills| && k != i ==> r.skills[k] == e.skills[k]
  {
    var s := e.skills[i];
    var s' := match t
      case NameField => s.(name := value)
      case LevelField => s.(level := value)
      case ExperienceField => s.(experience := value)
      case DetailsField => s.(details := value);
    e.(skills := e.skills[i := s'])
  }

  /** Adding a skill keeps the buffers in step with the lists: the new
      buffers are empty and parse to the new skill's empty lists. */
  lemma AddSkillKeepsInSync(e: Editor)
    requires InSync(e)
    ensures InSync(AddSkill(e))
  {
    var a := AddSkill(e);
    Text.ParseEmpty();
    forall k, g | 0 <= k < |a.skills| ensures Text.ParseList(GetRaw(a.raw[k], g)) == GetList(a.skills[k], g) {
      if k < |e.skills| {
        assert a.raw[k] == e.raw[k] && a.skills[k] == e.skills[k];
      }
    }
  }

  /** Removing a skill keeps the buffers in step with the lists. */
  lemma RemoveSkillKeepsInSync(e: Editor, i: int)
    requires InSync(e)
    ensures InSync(RemoveSkill(e, i))
  {
    var d := RemoveSkill(e, i);
    forall k, g | 0 <= k < |d.skills| ensures Text.ParseList(GetRaw(d.raw[k], g)) == GetList(d.skills[k], g) {
      var j := Origin(|e.skills|, i, k);
      assert d.skills[k] == e.skills[j] && d.raw[k] == e.raw[j];
    }
  }

  /** Typing into either list input or any text input keeps the buffers in
      step with the lists. */
  lemma EditsKeepInSync(e: Editor, i: int, f: ListField, t: TextField, value: string)
    requires InSync(e) && 0 <= i < |e.skills|
    ensures InSync(ArrayInputChange(e, i, f, value))
    ensures InSync(SetText(e, i, t, value))
  {
    var c := ArrayInputChange(e, i, f, value);
    forall k, g | 0 <= k < |c.skills| ensures Text.ParseList(GetRaw(c.raw[k], g)) == GetList(c.skills[k], g) {
      if k != i {
        assert c.raw[k] == e.raw[k] && c.skills[k] == e.skills[k];
      }
    }
    var s := SetText(e, i, t, value);
    forall k, g | 0 <= k < |s.skills| ensures Text.ParseList(GetRaw(s.raw[k], g)) == GetList(s.skills[k], g) {
      if k != i {
        assert s.skills[k] == e.skills[k];
      }
    }
  }

  /** `handleSave()`: the parsed skills, never the raw buffers, are sent under
      the editor's category, as a PUT to /about/skills/{category}. */
  function Save(e: Editor): (r: Api.Request<seq<Skill>>)
    ensures r.body == Some(e.skills)
    ensures Api.Locate(r.verb, r.url) == Some(Api.SkillsCall(e.category))
  {
    Api.SkillsRequest(e.category, e.skills)
  }

  /** When the editor is in sync, the saved lists are exactly what the buffers
      on screen parse to. */
  lemma SaveMatchesBuffers(e: Editor)
    requires InSync(e)
    ensures var body := Save(e).body.value;
      |body| == |e.raw| && forall i, f :: 0 <= i < |body| ==> GetList(body[i], f) == Text.ParseList(GetRaw(e.raw[i], f))
  {
  }
}
