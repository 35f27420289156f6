# Portfolio dashboard: a Dafny model of its editing logic

The portfolio dashboard is an admin UI for a personal portfolio site. It has
four paginated entities (blogs, projects, experiences, educations), each with
a create/edit form and a delete dialog, and an About document with two
editors: one for text sections and one for skill categories. Most of the code
is rendering and network plumbing. This project lifts out the sequential
logic underneath it and states that logic as pure Dafny functions over
immutable records and sequences:

- `Text`: ECMAScript `trim`, `split(",")` and `join`, and the comma-list
  parser `split(",").map(trim).filter(Boolean)`. The parser has a proved
  round trip with the `", "`-join.
- `ArrayField`: the tag, technology and achievement editors. An entry is
  added trimmed, and only when it is non-blank and not already present.
  Removal by value drops every equal entry. Removal by index drops exactly
  that index.
- `YouTube`: the video-id extractor of the project editor. It is specified by
  the URL prefixes its pattern recognises and implemented as a leftmost,
  in-order, greedy search. It is proved sound and complete against that
  specification.
- `Api`: the request descriptors of the data layer. This covers the query
  string builder, the URL/method/body of every endpoint, a decoder that reads
  the endpoint back from a method and URL, and the cache tags each endpoint
  provides or invalidates.
- `FormState`: the draft record, `isEditing`, `saving` and the record picked
  for deletion, which all four entity dashboards share. Its transitions are
  edit, reset, save and delete-confirm.
- `EducationDashboard`, `ExperienceDashboard`, `BlogDashboard`,
  `ProjectDashboard`: each entity's own draft, editors and save payload. The
  create payload strips `_id` for projects, experiences and educations. It
  does not strip it for blogs.
- `SkillEditor`, `SectionEditor`: the About page editors. The skill editor
  keeps the raw comma-separated text in a side buffer. That buffer stays
  index-aligned with the skills and parses to their lists.

Calls that the source awaits (save, delete) take a `threw` flag that says
whether the awaited call threw. The mutation triggers are awaited without
`.unwrap()`, so a server error does not throw: it resolves like a success
(`FormState.Settlement`). Uploads are an `Option<string>` URL.
Query-parameter values are `null`, `undefined`, text or an integer.

## Model

| member | source | states |
|---|---|---|
| Text.SkipSpace | src/components/About/SkillEditor.tsx:80 | the first position at or after a start that is not white space; everything skipped is white space |
| Text.BackSpace | src/components/About/SkillEditor.tsx:80 | the end of a range once its trailing white space is cut; everything cut is white space and the new last character is not |
| Text.Trim | src/components/About/SkillEditor.tsx:80 | the result has no leading or trailing whitespace; it is empty exactly when the input is all whitespace; an already-trimmed string is unchanged |
| Text.TrimSlice | src/components/About/SkillEditor.tsx:80 | the trimmed string is a contiguous slice of the input with only whitespace cut on either side |
| Text.Split | src/components/About/SkillEditor.tsx:79 | `split` returns at least one piece, no piece contains the separator, and joining the pieces with the separator gives the input back |
| Text.SplitWhole | src/components/About/SkillEditor.tsx:79 | a string without the separator splits into itself alone |
| Text.Join | src/components/About/SkillEditor.tsx:33-34 | no entries give ""; otherwise the result starts with the first entry (and the delimiter, when there is a second) and its length is the entries' total plus one delimiter per gap |
| Text.Format | src/components/About/SkillEditor.tsx:32-35 | the buffer text of a list is its entries joined by ", ": empty for no entries, the entries' total length plus two per gap; `Text.ParseFormat` is its inverse |
| Text.Clean | src/components/About/SkillEditor.tsx:80-81 | every kept entry is non-empty and trimmed; every piece that trims to something non-empty appears trimmed, and every entry is the trim of some piece |
| Text.ParseList | src/components/About/SkillEditor.tsx:78-81 | every parsed entry is non-empty, trimmed and comma-free |
| Text.CleanKeepsOut | src/components/About/SkillEditor.tsx:80-81 | trimming and dropping empty pieces keeps out a character that no piece contains |
| Text.ParseEmpty | src/components/About/SkillEditor.tsx:78-81 | an empty buffer parses to the empty list |
| Text.ParseSkipsSpace | src/components/About/SkillEditor.tsx:78-81 | a leading space in the buffer does not change the parse |
| Text.ParseSingle | src/components/About/SkillEditor.tsx:78-81 | a lone list entry parses to itself |
| Text.ParseCons | src/components/About/SkillEditor.tsx:78-81 | an entry followed by ", " and more text parses to the entry followed by the parse of the text |
| Text.ParseFormat | src/components/About/SkillEditor.tsx:31-36 | parsing the `", "`-join of a list of non-empty, trimmed, comma-free entries gives that list back |
| ArrayField.Add | src/pages/Dashboard/ProjectDashboard.tsx:207-218 | the list grows by at most one and keeps its prefix; it grows exactly when the trimmed buffer is non-blank and absent; the new last entry is the trimmed buffer and the buffer is cleared; otherwise list and buffer are unchanged |
| ArrayField.RemoveAll | src/pages/Dashboard/ProjectDashboard.tsx:220-225 | the removed value is gone; every other value keeps its membership and its count |
| ArrayField.RemoveAllAppend | src/pages/Dashboard/ProjectDashboard.tsx:220-225 | removal by value distributes over concatenation, so the order of the kept entries is preserved |
| ArrayField.RemoveAbsent | src/pages/Dashboard/ProjectDashboard.tsx:220-225 | removing a value that is absent leaves the list unchanged |
| ArrayField.RemoveDistinct | src/pages/Dashboard/BlogDashboard.tsx:169-174 | in a duplicate-free list, removal by value drops exactly the one position holding it |
| ArrayField.RemoveKeepsDistinct | src/pages/Dashboard/BlogDashboard.tsx:169-174 | removal by value keeps a list duplicate-free |
| ArrayField.AddKeepsTidy | src/pages/Dashboard/ProjectDashboard.tsx:208-215 | adding keeps a list free of blanks and duplicates |
| ArrayField.RemoveKeepsTidy | src/pages/Dashboard/ProjectDashboard.tsx:220-225 | removing keeps a list free of blanks and duplicates |
| ArrayField.AddTwice | src/pages/Dashboard/ExperienceDashboard.tsx:113-124 | a second add of the same text leaves the list as the first add made it |
| ArrayField.RemoveUndoesAdd | src/pages/Dashboard/ExperienceDashboard.tsx:113-133 | after an accepted add, removing the trimmed entry gives the original list back |
| ArrayField.KeepOthers | src/pages/Dashboard/ProjectDashboard.tsx:193-198 | filtering by index keeps the entries before and after the dropped index |
| ArrayField.RemoveAt | src/pages/Dashboard/ProjectDashboard.tsx:193-198 | an in-range index drops exactly that position and shifts the rest down in order; an out-of-range index leaves the list unchanged |
| YouTube.FirstSlash | src/pages/Dashboard/ProjectDashboard.tsx:180 | the first '/' at or after a position, or the end when there is none |
| YouTube.LastSegmentEnd | src/pages/Dashboard/ProjectDashboard.tsx:180 | the greedy segment path: the largest end that is followed by an id, and no larger one exists |
| YouTube.LastQueryEnd | src/pages/Dashboard/ProjectDashboard.tsx:180 | the greedy `v=` query path: the largest end that is followed by an id, and no larger one exists |
| YouTube.PathAt | src/pages/Dashboard/ProjectDashboard.tsx:180 | a long-host path found is followed by an id; none found means no path alternative is followed by an id; a segment path, when one exists, is preferred at its largest end |
| YouTube.MatchAt | src/pages/Dashboard/ProjectDashboard.tsx:179-181 | a match at one start position exists exactly when some recognised prefix there is followed by eleven id characters |
| YouTube.FindFrom | src/pages/Dashboard/ProjectDashboard.tsx:179-181 | the search returns the leftmost start with a match; no earlier start has one |
| YouTube.VideoId | src/pages/Dashboard/ProjectDashboard.tsx:179-181 | an extracted id is eleven characters, none of them `"`, `&`, `?`, `/` or whitespace, and it follows a recognised prefix; nothing is extracted exactly when no recognised prefix is followed by eleven such characters |
| Api.Digits | src/redux/features/blogs/blogApi.ts:12 | the decimal text of a non-negative integer: only digit characters, no leading zero, and reading the digits back gives the number |
| Api.Render | src/redux/features/blogs/blogApi.ts:12 | what `append` stores for a non-null value: "undefined", the text itself, or an integer as a minus sign exactly when negative followed by digits that read back as its magnitude |
| Api.AppendParams | src/redux/features/blogs/blogApi.ts:10-13 | never more parameters than arguments; with no `null` values, one parameter per argument in order with its value rendered; with only `null` values, none |
| Api.BuildParams | src/redux/features/blogs/blogApi.ts:7-14 | absent arguments give no parameters; with no `null` values, the parameters are the arguments in order with values rendered as strings |
| Api.AppendParamsSplit | src/redux/features/blogs/blogApi.ts:10-13 | appending a list of arguments is appending its parts one after the other, so order is kept |
| Api.SkipsOnlyNull | src/redux/features/blogs/blogApi.ts:11-12 | a `null` value adds nothing; an `undefined` value is kept as the text "undefined" |
| Api.PageParams | src/pages/Dashboard/ExperienceDashboard.tsx:58-61 | the list query of every dashboard sends exactly two parameters: the page, then a limit of "5" |
| Api.ListRequest | src/redux/features/blogs/blogApi.ts:16-20 | a list request has no body, carries the built parameters, and is a GET on the resource path |
| Api.AddRequest | src/redux/features/blogs/blogApi.ts:25-30 | a create is a POST on the resource path with the payload as body |
| Api.UpdateRequest | src/redux/features/blogs/blogApi.ts:34-39 | an update is a PUT on the resource path plus the id, with the payload's data as body |
| Api.DeleteRequest | src/redux/features/blogs/blogApi.ts:43-47 | a delete is a DELETE on the resource path plus the id, with no body |
| Api.AboutRequest | src/redux/features/about/aboutApi.ts:5-9 | the About query is a GET on /about with no parameters and no body |
| Api.SectionRequest | src/redux/features/about/aboutApi.ts:13-18 | a section update is a PUT on /about/section/ plus the key, with the data as body |
| Api.SkillsRequest | src/redux/features/about/aboutApi.ts:21-26 | a skills update is a PUT on /about/skills/ plus the category, with the data as body |
| Api.Prefixed | src/redux/features/about/aboutApi.ts:15 | a path built from a prefix starts with that prefix and the rest is the argument |
| Api.ItemPath | src/redux/features/projects/projectApi.ts:36 | an item URL is owned by its own resource and gives the id back |
| Api.Provides | src/redux/features/blogs/blogApi.ts:22 | each query endpoint (a list or the about page) provides exactly one tag, and a mutation provides none |
| Api.Invalidates | src/redux/features/about/aboutApi.ts:19-27 | each mutation endpoint invalidates exactly one tag, a query none, and no endpoint both provides and invalidates a tag |
| Api.MutationRefreshesOwnList | src/redux/features/blogs/blogApi.ts:22-48 | a mutation invalidates a tag a query provides exactly when both belong to the same entity, and then the two tag sets are equal |
| Api.TagsDistinct | src/redux/features/experience/experienceApi.ts:22 | the four entity tags differ from each other and from "about" |
| FormState.Start | src/pages/Dashboard/EducationDashboard.tsx:41-52 | a dashboard mounts with the blank draft, in create mode, not saving, nothing picked |
| FormState.Edit | src/pages/Dashboard/EducationDashboard.tsx:63-67 | the draft becomes the chosen record, in edit mode; the flags are unchanged |
| FormState.Reset | src/pages/Dashboard/EducationDashboard.tsx:78-87 | the draft becomes the blank record, in create mode; the flags are unchanged |
| FormState.Revise | src/pages/Dashboard/ExperienceDashboard.tsx:153-158 | a content change replaces the draft and keeps mode and flags |
| FormState.AskDelete | src/pages/Dashboard/EducationDashboard.tsx:249 | the row's record is picked for deletion; draft and mode are unchanged |
| FormState.CancelDelete | src/pages/Dashboard/EducationDashboard.tsx:266 | nothing is picked; draft and mode are unchanged |
| FormState.DeleteSettled | src/pages/Dashboard/EducationDashboard.tsx:69-76 | after a delete that did not throw nothing is picked; after one that threw the form is unchanged |
| FormState.PickOpensOwnDialog | src/pages/Dashboard/EducationDashboard.tsx:239-243 | picking a record opens the dialog of exactly the rows with its id |
| FormState.CancelClosesDialogs | src/pages/Dashboard/EducationDashboard.tsx:266 | after Cancel no row's dialog is open |
| FormState.SaveStarted | src/pages/Dashboard/EducationDashboard.tsx:90 | saving is set before the call; nothing else changes |
| FormState.SaveSettled | src/pages/Dashboard/EducationDashboard.tsx:89-107 | saving is cleared on every path; a save whose call did not throw resets the form, and one whose call threw keeps the draft and mode |
| FormState.ServerErrorActsAsSuccess | src/pages/Dashboard/EducationDashboard.tsx:69-107 | `Settlement` and `Throws` define how a trigger's outcome maps to the `threw` flag: without `.unwrap()` only a rejected promise throws. From that definition, a save or delete the server refused ends exactly like one it accepted (form reset, pick cleared), and only a rejected promise keeps the draft, the mode and the pick |
| FormState.TransitionsKeepConsistent | src/pages/Dashboard/EducationDashboard.tsx:46-107 | every transition keeps a create-mode draft's id empty |
| EducationDashboard.IdRoundTrip | src/pages/Dashboard/EducationDashboard.tsx:97-98 | stripping the id and putting it back gives the record; a payload with an id added strips back to itself |
| EducationDashboard.SetField | src/pages/Dashboard/EducationDashboard.tsx:127-173 | typing into one input changes that field only; the id, mode and flags are unchanged |
| EducationDashboard.SetFieldKeepsConsistent | src/pages/Dashboard/EducationDashboard.tsx:127-173 | field edits keep a create-mode draft's id empty |
| EducationDashboard.Submit | src/pages/Dashboard/EducationDashboard.tsx:92-99 | editing sends the id and the whole draft; creating sends the draft without its id, nothing else lost |
| EducationDashboard.SubmitRequest | src/pages/Dashboard/EducationDashboard.tsx:92-99 | a create is a POST to /educations with the stripped draft; an update is a PUT to /educations/ plus the id with the record |
| EducationDashboard.SaveSendsDraft | src/pages/Dashboard/EducationDashboard.tsx:89-99 | from a consistent form, a create posts the draft minus its empty id and an update puts the draft under its own id |
| EducationDashboard.SaveCycle | src/pages/Dashboard/EducationDashboard.tsx:89-107 | saving is true while the call is in flight and false after it on every path; success resets to the blank draft |
| EducationDashboard.ConfirmDelete | src/pages/Dashboard/EducationDashboard.tsx:69-76 | confirming in an open dialog deletes the picked record's id with no body; a call that did not throw clears the pick, and one that threw changes nothing |
| ExperienceDashboard.IdRoundTrip | src/pages/Dashboard/ExperienceDashboard.tsx:101-103 | stripping the id and putting it back gives the record; a payload with an id added strips back to itself |
| ExperienceDashboard.ResetForm | src/pages/Dashboard/ExperienceDashboard.tsx:81-91 | blank draft with empty fields and no achievements, in create mode; the achievement buffer is kept |
| ExperienceDashboard.AddAchievement | src/pages/Dashboard/ExperienceDashboard.tsx:113-124 | the achievements list and buffer follow the add rule; every other field, mode and flag is unchanged |
| ExperienceDashboard.RemoveAchievement | src/pages/Dashboard/ExperienceDashboard.tsx:126-133 | the list is the exact-match filter `ArrayField.RemoveAll` of the old list, so the other achievements keep their order and count; the achievement is gone, and nothing else changes |
| ExperienceDashboard.AchievementsStayTidy | src/pages/Dashboard/ExperienceDashboard.tsx:113-133 | adding and removing keep the achievements free of blanks and duplicates |
| ExperienceDashboard.Submit | src/pages/Dashboard/ExperienceDashboard.tsx:96-104 | editing sends the id and the whole draft; creating sends the draft without its id |
| ExperienceDashboard.SubmitRequest | src/pages/Dashboard/ExperienceDashboard.tsx:96-104 | a create is a POST to /experiences; an update is a PUT to /experiences/ plus the id |
| ExperienceDashboard.SaveSettled | src/pages/Dashboard/ExperienceDashboard.tsx:93-111 | saving is cleared on every path and the pick and achievement buffer are kept; when the call did not throw the draft is reset, and when it threw the draft and mode are kept |
| ExperienceDashboard.SaveSendsDraft | src/pages/Dashboard/ExperienceDashboard.tsx:93-104 | from a consistent form, a create posts the draft minus its empty id and an update puts the draft under its id |
| ExperienceDashboard.ConfirmDelete | src/pages/Dashboard/ExperienceDashboard.tsx:72-79 | confirming in an open dialog deletes the picked record's id; a call that did not throw clears the pick, and one that threw changes nothing |
| BlogDashboard.HandleEdit | src/pages/Dashboard/BlogDashboard.tsx:78-82 | the draft becomes the chosen blog, in edit mode; the tag buffer and flags are unchanged |
| BlogDashboard.ResetForm | src/pages/Dashboard/BlogDashboard.tsx:93-106 | empty text fields and id, no tags, status "draft", no cover image, create mode; the tag buffer is kept |
| BlogDashboard.AddTag | src/pages/Dashboard/BlogDashboard.tsx:159-167 | tags and buffer follow the add rule; every other field is unchanged |
| BlogDashboard.RemoveTag | src/pages/Dashboard/BlogDashboard.tsx:169-174 | the list is the exact-match filter `ArrayField.RemoveAll` of the old list, so the other tags keep their order and count; the tag is gone, and nothing else changes |
| BlogDashboard.TagsStayTidy | src/pages/Dashboard/BlogDashboard.tsx:159-174 | adding and removing keep tags free of blanks and duplicates; removing a tag just added restores the list |
| BlogDashboard.CoverUploaded | src/pages/Dashboard/BlogDashboard.tsx:129-140 | a non-empty uploaded URL becomes the cover image; a failed or empty result changes nothing; no other field changes |
| BlogDashboard.Submit | src/pages/Dashboard/BlogDashboard.tsx:144-149 | editing sends the id and the whole draft; creating sends the whole draft, id included |
| BlogDashboard.SubmitRequest | src/pages/Dashboard/BlogDashboard.tsx:144-149 | a create is a POST to /blogs with the draft; an update is a PUT to /blogs/ plus the id |
| BlogDashboard.SaveSendsDraft | src/pages/Dashboard/BlogDashboard.tsx:142-149 | from a consistent form, a create posts the whole draft with id "" and an update puts the draft under its id |
| BlogDashboard.SaveSettled | src/pages/Dashboard/BlogDashboard.tsx:142-157 | saving is cleared on every path; when the call did not throw the form is reset, and when it threw draft and mode are kept |
| BlogDashboard.AskDelete | src/pages/Dashboard/BlogDashboard.tsx:415 | the row's blog is picked; draft, mode and tag buffer are unchanged |
| BlogDashboard.CancelDelete | src/pages/Dashboard/BlogDashboard.tsx:431 | nothing is picked; draft, mode and tag buffer are unchanged |
| BlogDashboard.DeleteDialog | src/pages/Dashboard/BlogDashboard.tsx:405-431 | a row's dialog is open exactly when the picked blog has that row's id; Cancel closes every dialog |
| BlogDashboard.ConfirmDelete | src/pages/Dashboard/BlogDashboard.tsx:84-91 | confirming in an open dialog deletes the picked blog's id; a call that did not throw clears the pick, and one that threw changes nothing |
| ProjectDashboard.IdRoundTrip | src/pages/Dashboard/ProjectDashboard.tsx:236-237 | stripping the id and putting it back gives the record; a payload with an id added strips back to itself |
| ProjectDashboard.HandleEdit | src/pages/Dashboard/ProjectDashboard.tsx:92-96 | the draft becomes the chosen project, in edit mode; the buffers and YouTube input are unchanged |
| ProjectDashboard.ResetForm | src/pages/Dashboard/ProjectDashboard.tsx:107-124 | the default draft with category "Frontend" and username "rakibul58", create mode, YouTube URL cleared and input hidden; the technology buffer is kept |
| ProjectDashboard.Revise | src/pages/Dashboard/ProjectDashboard.tsx:265-270 | a content change replaces the draft and keeps mode, flags and buffers |
| ProjectDashboard.AddTechnology | src/pages/Dashboard/ProjectDashboard.tsx:207-218 | technologies and buffer follow the add rule; a refused add changes nothing; no other field changes |
| ProjectDashboard.RemoveTechnology | src/pages/Dashboard/ProjectDashboard.tsx:220-225 | the list is the exact-match filter `ArrayField.RemoveAll` of the old list, so the other technologies keep their order and count; the technology is gone, and nothing else changes |
| ProjectDashboard.TechnologiesStayTidy | src/pages/Dashboard/ProjectDashboard.tsx:207-225 | adding and removing keep technologies free of blanks and duplicates; an accepted add puts the trimmed buffer last |
| ProjectDashboard.YoutubeAdd | src/pages/Dashboard/ProjectDashboard.tsx:177-191 | an empty URL or no id leaves everything unchanged; an id appends one YouTube item with the URL and id, clears the URL and hides the input |
| ProjectDashboard.YoutubeAddGrowsOnlyOnMatch | src/pages/Dashboard/ProjectDashboard.tsx:177-191 | the media list grows exactly when a recognised prefix in the URL is followed by an id; otherwise nothing changes |
| ProjectDashboard.YoutubeItem | src/pages/Dashboard/ProjectDashboard.tsx:179-187 | an added item's id has eleven id characters and is the slice after a recognised prefix of its URL |
| ProjectDashboard.RemoveMedia | src/pages/Dashboard/ProjectDashboard.tsx:193-198 | an in-range index drops exactly that item; an out-of-range index changes nothing; no other field, flag or buffer changes |
| ProjectDashboard.MediaUploaded | src/pages/Dashboard/ProjectDashboard.tsx:162-175 | a non-empty upload URL appends one image item; anything else changes nothing; no other field, flag or buffer changes |
| ProjectDashboard.ThumbnailUploaded | src/pages/Dashboard/ProjectDashboard.tsx:147-160 | a non-empty upload URL becomes the image; anything else changes nothing; no other field, flag or buffer changes |
| ProjectDashboard.RemoveThumbnail | src/pages/Dashboard/ProjectDashboard.tsx:200-205 | the image is cleared; no other field, flag or buffer changes |
| ProjectDashboard.Submit | src/pages/Dashboard/ProjectDashboard.tsx:230-238 | editing sends the id and the whole draft; creating sends the draft without its id |
| ProjectDashboard.SubmitRequest | src/pages/Dashboard/ProjectDashboard.tsx:230-238 | a create is a POST to /projects; an update is a PUT to /projects/ plus the id |
| ProjectDashboard.SaveSendsDraft | src/pages/Dashboard/ProjectDashboard.tsx:227-238 | from a consistent form, a create posts the draft minus its empty id and an update puts the draft under its id |
| ProjectDashboard.SaveSettled | src/pages/Dashboard/ProjectDashboard.tsx:227-246 | saving is cleared on every path; when the call did not throw the whole view is reset, and when it threw only the flag changes |
| ProjectDashboard.ConfirmDelete | src/pages/Dashboard/ProjectDashboard.tsx:98-105 | confirming in an open dialog deletes the picked project's id; a call that did not throw clears the pick, and one that threw changes nothing |
| ProjectDashboard.EditsKeepConsistent | src/pages/Dashboard/ProjectDashboard.tsx:107-246 | every project editor (technologies, YouTube, media, upload and removal of the thumbnail) and both settled saves keep a create-mode draft's id empty |
| SkillEditor.RawOf | src/components/About/SkillEditor.tsx:32-35 | a skill's starting buffers are its lists joined with ", " |
| SkillEditor.Open | src/components/About/SkillEditor.tsx:29-36 | the editor starts with the given skills and one formatted buffer per skill |
| SkillEditor.OpenInSync | src/components/About/SkillEditor.tsx:29-36 | when list entries are non-empty, trimmed and comma-free, every starting buffer parses back to its list |
| SkillEditor.AddSkill | src/components/About/SkillEditor.tsx:42-55 | a default skill (level "Beginner", empty texts and lists) and an empty buffer are appended, so the arrays stay the same length |
| SkillEditor.RemoveSkill | src/components/About/SkillEditor.tsx:57-60 | both arrays drop the same index, keep equal length, and each remaining skill keeps its own buffer |
| SkillEditor.ArrayInputChange | src/components/About/SkillEditor.tsx:62-91 | the buffer of that field takes the text verbatim and the list takes its parse; other fields, other skills and other buffers are unchanged |
| SkillEditor.SetText | src/components/About/SkillEditor.tsx:113-154 | a text input changes that text of that skill only; lists and buffers are unchanged |
| SkillEditor.AddSkillKeepsInSync | src/components/About/SkillEditor.tsx:42-55 | adding a skill keeps every buffer parsing to its list |
| SkillEditor.RemoveSkillKeepsInSync | src/components/About/SkillEditor.tsx:57-60 | removing a skill keeps every buffer parsing to its list |
| SkillEditor.EditsKeepInSync | src/components/About/SkillEditor.tsx:62-154 | typing into any input keeps every buffer parsing to its list |
| SkillEditor.Save | src/components/About/SkillEditor.tsx:38-40 | the parsed skills are sent under the editor's category as a skills update |
| SkillEditor.SaveMatchesBuffers | src/components/About/SkillEditor.tsx:38-40 | in sync, the saved lists are exactly what the buffers on screen parse to |
| SectionEditor.AddItem | src/components/About/SectionEditor.tsx:32-37 | one empty item is appended with no check; title and description are unchanged |
| SectionEditor.RemoveItem | src/components/About/SectionEditor.tsx:39-44 | exactly that index is dropped, in order; title and description are unchanged |
| SectionEditor.SetItem | src/components/About/SectionEditor.tsx:75-78 | item `i` takes the text; length and every other item are unchanged |
| SectionEditor.SetTitle | src/components/About/SectionEditor.tsx:52-54 | only the title changes |
| SectionEditor.SetDescription | src/components/About/SectionEditor.tsx:61-66 | only the description changes |
| SectionEditor.RemoveUndoesAdd | src/components/About/SectionEditor.tsx:32-44 | removing the item just added gives the section back |
| SectionEditor.SetItemLaws | src/components/About/SectionEditor.tsx:75-78 | writing an item's own text back is no change; a later write to the same item overrides an earlier one |
| SectionEditor.Save | src/components/About/SectionEditor.tsx:28-30 | the whole draft is sent under the section key as a section update |

## Left out

- Network, uploads and rendering: the image upload's `fetch` and `FormData`, `window.scrollTo`, `console.error`, toasts, JSX, the rich-text editor and the pagination component are not modelled. An upload is an `Option<string>` result.
- Query-cache behaviour: de-duplication, refetch on invalidation and `isFetching` belong to the RTK Query library. Tags are modelled as declared data on each endpoint.
- Whether a mutation trigger's promise rejects: this is library behaviour. Save and delete take a `threw` flag instead, and `FormState.Settlement` says which outcomes throw.
- The sign-in page, the About dashboard wrapper (its mutation calls are not awaited, so its try/catch never sees failures), the sidebar, the loading animation, the dashboard landing page, the layouts and the router: no local logic.
- Number query values are integers. Floating-point page values and JavaScript's number-to-string rules for them are not modelled.
- Strings are sequences of Unicode scalar values, not UTF-16 code units. A character outside the Basic Multilingual Plane counts once here but twice in JavaScript.
- The regular expression engine in general: only the one extraction pattern is modelled, as a search over its recognised prefixes.
- Text-input edits of the experience, blog and project drafts (title, company, content, links and the like) are each a whole-draft replacement. `FormState.Revise` and `ProjectDashboard.Revise` cover them as one case and do not name each field.
- SkillEditor.ArrayInputChange: requires an index inside the arrays. The inputs are rendered one per skill, so the source never passes another index.
- SkillEditor.SetText: requires an index inside the list, for the same reason.
- SectionEditor.SetItem: requires an index inside the list, for the same reason.
- EducationDashboard.ConfirmDelete, ExperienceDashboard.ConfirmDelete, BlogDashboard.ConfirmDelete, ProjectDashboard.ConfirmDelete: require the dialog of the confirmed row to be open. The Delete button is only rendered inside an open dialog.
- A project's optional `image` is a plain string, so a record with no image and one with the image `""` are the same value here. Every draft the dashboard builds sets it to `""`, and the page only tests it for truthiness, so the two behave alike.
- `resetForm` in the blog, project and experience dashboards leaves the tag, technology and achievement buffers as they are. The model keeps that behaviour.

## Behaviour worth noting

- The blog create sends the whole draft, including its empty `_id`. The project, experience and education creates strip it (`BlogDashboard.SaveSendsDraft`, `ExperienceDashboard.SaveSendsDraft`).
- The about-section editor's "add item" appends `""` with no check, unlike the tag, technology and achievement editors, which refuse blank and duplicate entries (`SectionEditor.AddItem`, `ArrayField.Add`). The skills' project and keyword lists are parsed from comma-separated text, which drops blank pieces but keeps duplicates (`Text.ParseList`).
- The `catch` blocks of the save and delete handlers are written for failed calls. But the mutation triggers are awaited without `.unwrap()`, so a server error resolves instead of throwing: the form is reset and a refused delete still clears the pick (`FormState.ServerErrorActsAsSuccess`).
- The YouTube links accepted are exactly those the one extraction pattern recognises, no more and no fewer (`YouTube.VideoId`).
