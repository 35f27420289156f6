/** The editor of one text section of the About page: a title, a
    description and an ordered list of item lines. Items may be blank or
    repeated; the editor does not tidy them. */
module SectionEditor {
  import opened Optional
  import ArrayField
  import Api

  datatype Section = Section(title: string, description: string, items: seq<string>)

  /** `addItem()`: a blank line is appended, with no blank or duplicate check. */
  function AddItem(s: Section): (r: Section)
    ensures |r.items| == |s.items| + 1 && r.items[..|s.items|] == s.items && r.items[|s.items|] == ""
    ensures r.title == s.title && r.description == s.description
  {
    s.(items := s.items + [""])
  }

  /** `removeItem(i)`: exactly position `i` leaves the list, whatever its
      text; an index outside the list removes nothing. */
  function RemoveItem(s: Section, i: int): (r: Section)
    ensures r.items == ArrayField.RemoveAt(s.items, i)
    ensures r.title == s.title && r.description == s.description
  {
    s.(items := ArrayField.RemoveAt(s.items, i))
  }

  /** Typing into item `i`: that line takes the new text and no other line
      changes. */
  function SetItem(s: Section, i: int, value: string): (r: Section)
    requires 0 <= i < |s.items|
    ensures |r.items| == |s.items| && r.items[i] == value
    ensures forall k :: 0 <= k < |s.items| && k != i ==> r.items[k] == s.items[k]
    ensures r.title == s.title && r.description == s.description
  {
    s.(items := s.items[i := value])
  }

  /** Typing into the title input: only the title changes. */
  function SetTitle(s: Section, value: string): (r: Section)
    ensures r.title == value && r.description == s.description && r.items == s.items
  {
    s.(title := value)
  }

  /** Typing into the description input: only the description changes. */
  function SetDescription(s: Section, value: string): (r: Section)
    ensures r.description == value && r.title == s.title && r.items == s.items
  {
    s.(description := value)
  }

  /** Removing the line just added gives the section back. */
  lemma RemoveUndoesAdd(s: Section)
    ensures RemoveItem(AddItem(s), |s.items|) == s
  {
    var r := RemoveItem(AddItem(s), |s.items|);
    assert r.items == s.items;
  }

  /** Writing a line's own text back leaves the section as it was, and a
      second write to the same line overrides the first. */
  lemma SetItemLaws(s: Section, i: int, a: string, b: string)
    requires 0 <= i < |s.items|
    ensures SetItem(s, i, s.items[i]) == s
    ensures SetItem(SetItem(s, i, a), i, b) == SetItem(s, i, b)
  {
  }

  /** `handleSave()`: the whole edited section is sent under its key, as a
      PUT to /about/section/{key}. */
  function Save(key: string, s: Section): (r: Api.Request<Section>)
    ensures r.body == Some(s)
    ensures Api.Locate(r.verb, r.url) == Some(Api.SectionCall(key))
  {
    Api.SectionRequest(key, s)
  }
}
