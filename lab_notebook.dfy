/**
  The lab notebook screen: the year-scoped, zero-padded `NB-<year>-<nnn>` id generator,
  the comma-separated tag parser, the edit/create gates, the title/experiment filter, the
  researcher label, and the notebook's state (the note list, the selected note, the editor
  text and the editing flag) with its load, select, save and create steps.
 */
module LabNotebook {
  import opened Wrappers
  import opened JsText
  import opened Lists
  import opened Domain
  import opened ClientIds

  /** The fields of a lab note row the screen reads or writes. */
  datatype LabNote = LabNote(
    id: string,
    title: string,
    content: string,
    experiment_id: Option<string>,
    researcher_id: Option<string>,
    tags: seq<string>,
    has_attachments: bool,
    has_images: bool)

  /** The "new entry" form: a title, an experiment id ("" for none) and raw tag text. */
  datatype NoteForm = NoteForm(title: string, experiment_id: string, tags: string)

  /** The template every new note starts from. */
  const DefaultContent: string :=
    "## Objective\n" +
    "Describe the purpose and goals of this experiment entry.\n" +
    "\n" +
    "## Materials & Reagents\n" +
    "- Reagent A (Cat# 12345): 10 mM stock\n" +
    "- Buffer B: 50 mM PBS, pH 7.4\n" +
    "- Cell line: HeLa (ATCC CCL-2)\n" +
    "\n" +
    "## Procedure\n" +
    "1. Prepare serial dilutions of test compound (0.1 \U{2013} 100 \U{3BC}M)\n" +
    "2. Seed cells at 5 \U{D7} 10\U{2074} cells/well in 96-well plate\n" +
    "3. Incubate for 24h at 37\U{B0}C, 5% CO\U{2082}\n" +
    "4. Add compound and incubate for additional 48h\n" +
    "\n" +
    "## Observations\n" +
    "Record all observations here, including unexpected findings.\n" +
    "\n" +
    "## Results\n" +
    "| Concentration (\U{3BC}M) | Viability (%) |\n" +
    "|---|---|\n" +
    "| 0.1 | 98.2 |\n" +
    "| 1.0 | 87.4 |\n" +
    "| 10 | 42.1 |\n" +
    "| 100 | 5.3 |\n" +
    "\n" +
    "## Conclusions\n" +
    "Summarize key findings and next steps."


  /** `content || defaultContent`: an empty note body opens as the template. */
  function ContentOrDefault(content: string, template: string): (c: string)
    ensures content != "" ==> c == content
    ensures content == "" ==> c == template
    ensures template != "" ==> c != ""
  {
    if content == "" then template else content
  }

  // ---------------------------------------------------------------------------
  // nextNoteId
  // ---------------------------------------------------------------------------

  /** `NB-${year}`: the prefix an id must start with to be considered. */
  function YearPrefix(year: nat): string {
    "NB-" + NatToString(year)
  }

  /** `parseInt(id.split('-')[2])`: the third dash-separated piece, NaN when there is no
      such piece (`parseInt(undefined)`) or it does not parse. The piece holds no dash, so
      the number is never negative. */
  function ThirdSegment(id: string): (o: Option<int>)
    ensures |Split(id, '-')| < 3 ==> o.None?
    ensures |Split(id, '-')| >= 3 ==> o == ParseInt(Split(id, '-')[2])
    ensures o.Some? ==> o.value >= 0
  {
    var parts := Split(id, '-');
    if |parts| >= 3 then
      ParseIntWithoutMinus(parts[2]);
      ParseInt(parts[2])
    else None
  }

  /** What an id contributes: its third piece when it starts with the year prefix,
      nothing (as a NaN does) otherwise. */
  function Contribution(id: string, year: nat): (o: Option<int>)
    ensures o.Some? ==> YearPrefix(year) <= id && o == ThirdSegment(id) && o.value >= 0
    ensures !(YearPrefix(year) <= id) ==> o.None?
  {
    if YearPrefix(year) <= id then ThirdSegment(id) else None
  }

  function Considered(ids: seq<string>, year: nat): (os: seq<Option<int>>)
    ensures |os| == |ids|
    ensures forall i :: 0 <= i < |ids| ==> os[i] == Contribution(ids[i], year)
  {
    seq(|ids|, i requires 0 <= i < |ids| => Contribution(ids[i], year))
  }

  /** `max + 1` with a default of 0, over the considered ids: above every contribution,
      one past one of them when any parsed, and 1 when none did. */
  function NoteNumber(ids: seq<string>, year: nat): (n: nat)
    ensures forall i :: 0 <= i < |ids| && Contribution(ids[i], year).Some? ==>
              Contribution(ids[i], year).value < n
    ensures (forall i :: 0 <= i < |ids| ==> Contribution(ids[i], year).None?) ==> n == 1
    ensures (exists i :: 0 <= i < |ids| && Contribution(ids[i], year).Some?) ==>
              exists i :: 0 <= i < |ids| && Contribution(ids[i], year) == Some(n - 1)
  {
    var os := Considered(ids, year);
    var n := NextAfter(os, 0);
    assert n >= 1 by {
      if exists j :: 0 <= j < |os| && os[j].Some? {
        var j :| 0 <= j < |os| && os[j] == Some(n - 1);
        assert os[j].value >= 0;
      }
    }
    n
  }

  /** `String(n).padStart(3, '0')`: at least three characters, zeros in front of the full
      decimal rendering (never cut), and it parses back to n. */
  function Padded(n: nat): (p: string)
    ensures |p| == if |NatToString(n)| >= 3 then |NatToString(n)| else 3
    ensures p == Repeat('0', |p| - |NatToString(n)|) + NatToString(n)
    ensures p != [] && AllRadixDigits(p, 10)
    ensures ParseInt(p) == Some(n)
  {
    var d := NatToString(n);
    var p := PadStart(d, 3, '0');
    ZeroPadValue(d, |p| - |d|);
    ParseIntOfDigits(p);
    p
  }

  /** The third piece of `NB-<year>-<p>`, for a run of digits p, is p's value. */
  lemma ContributionOfNoteId(year: nat, p: string)
    requires p != [] && AllRadixDigits(p, 10)
    ensures Contribution(YearPrefix(year) + "-" + p, year) == ParseInt(p)
  {
    var ys := NatToString(year);
    var r := YearPrefix(year) + "-" + p;
    var parts := ["NB", ys, p];
    assert Join(parts, '-') == r by {
      JoinThree("NB", ys, p, '-');
      assert "NB" + ['-'] == "NB-";
    }
    assert Split(r, '-') == parts by {
      DigitsHaveNoMinus(ys);
      DigitsHaveNoMinus(p);
      SplitJoin(parts, '-');
    }
    assert YearPrefix(year) <= r;
  }

  function Ids(notes: seq<LabNote>): (ids: seq<string>)
    ensures |ids| == |notes|
    ensures forall i :: 0 <= i < |notes| ==> ids[i] == notes[i].id
  {
    seq(|notes|, i requires 0 <= i < |notes| => notes[i].id)
  }

  /** `nextNoteId(existing)` for the given year: `NB-<year>-<number padded to 3>`; it is
      never the id of a listed note. */
  function NextNoteId(notes: seq<LabNote>, year: nat): (r: string)
    ensures forall i :: 0 <= i < |notes| ==> notes[i].id != r
    ensures r == YearPrefix(year) + "-" + Padded(NoteNumber(Ids(notes), year))
  {
    var ids := Ids(notes);
    var n := NoteNumber(ids, year);
    var p := Padded(n);
    var r := YearPrefix(year) + "-" + p;
    ContributionOfNoteId(year, p);
    forall i | 0 <= i < |notes| ensures notes[i].id != r {
      assert ids[i] == notes[i].id;
    }
    r
  }

  /** The number 1 pads to "001". */
  lemma PaddedOne()
    ensures Padded(1) == "001"
  {
    assert NatToString(1) == "1";
    assert Repeat('0', 1) == "0";
  }

  /** With no considered id parsing, the next id for a year is `NB-<year>-001`. */
  lemma NextNoteIdDefault(notes: seq<LabNote>, year: nat)
    requires forall i :: 0 <= i < |notes| ==> Contribution(notes[i].id, year).None?
    ensures NextNoteId(notes, year) == YearPrefix(year) + "-" + "001"
  {
    var ids := Ids(notes);
    assert forall i :: 0 <= i < |ids| ==> Contribution(ids[i], year).None?;
    var n := NoteNumber(ids, year);
    assert n == 1;
    assert Padded(n) == "001" by { PaddedOne(); }
    var r := NextNoteId(notes, year);
    assert r == YearPrefix(year) + "-" + Padded(n);
  }

  // ---------------------------------------------------------------------------
  // Tags
  // ---------------------------------------------------------------------------

  /** `.map((t) => t.trim())`. */
  function TrimAll(parts: seq<string>): (r: seq<string>)
    ensures |r| == |parts|
    ensures forall i :: 0 <= i < |parts| ==> r[i] == Trim(parts[i])
  {
    seq(|parts|, i requires 0 <= i < |parts| => Trim(parts[i]))
  }

  /** `raw.split(',').map((t) => t.trim()).filter(Boolean)`: the trimmed comma-separated
      pieces, in order, without the empty ones, each non-empty piece as often as it occurs;
      no tag is empty, holds a comma or starts or ends with whitespace. */
  function ParseTags(raw: string): (tags: seq<string>)
    ensures IsSublist(tags, TrimAll(Split(raw, ',')))
    ensures forall i :: 0 <= i < |tags| ==> tags[i] != ""
    ensures forall i :: 0 <= i < |tags| ==>
              !IsJsWhitespace(tags[i][0]) && !IsJsWhitespace(tags[i][|tags[i]| - 1])
    ensures forall i :: 0 <= i < |tags| ==> ',' !in tags[i]
    ensures forall j :: 0 <= j < |Split(raw, ',')| && Trim(Split(raw, ',')[j]) != "" ==>
              Trim(Split(raw, ',')[j]) in tags
    ensures forall t :: multiset(tags)[t] == if t == "" then 0 else multiset(TrimAll(Split(raw, ',')))[t]
  {
    var parts := Split(raw, ',');
    var trimmed := TrimAll(parts);
    TrimmedPieces(parts);
    var keep := (t: string) => t != "";
    forall t ensures multiset(Filter(trimmed, keep))[t] == if t == "" then 0 else multiset(trimmed)[t] {
      FilterCounts(trimmed, keep, t);
    }
    Filter(trimmed, keep)
  }

  /** Trimmed pieces of a comma split hold no comma and neither start nor end with
      whitespace. */
  lemma TrimmedPieces(parts: seq<string>)
    requires forall i :: 0 <= i < |parts| ==> ',' !in parts[i]
    ensures forall t :: t in TrimAll(parts) ==> ',' !in t
    ensures forall t :: t in TrimAll(parts) && t != [] ==> !IsJsWhitespace(t[0]) && !IsJsWhitespace(t[|t| - 1])
  {
    var trimmed := TrimAll(parts);
    forall j | 0 <= j < |trimmed| ensures ',' !in trimmed[j] {
      var k := LeadingWhitespace(parts[j]);
      assert trimmed[j] == parts[j][k..k + |trimmed[j]|];
    }
  }

  // ---------------------------------------------------------------------------
  // Gates, filter and label
  // ---------------------------------------------------------------------------

  /** `note.researcher_id === profile?.id`: never true without a profile, since a null
      or a string id differs from undefined. */
  predicate OwnedBy(note: LabNote, profile: Option<Profile>) {
    profile.Some? && note.researcher_id == Some(profile.value.id)
  }

  /** `canEdit(note)`: a lab manager may edit every note, anyone else only their own;
      without a profile nobody may edit. */
  function CanEdit(note: LabNote, profile: Option<Profile>): (ok: bool)
    ensures ok <==> RoleOf(profile) == Some(LabManager) ||
                    (profile.Some? && note.researcher_id == Some(profile.value.id))
    ensures profile.None? ==> !ok
  {
    IsLabManager(profile) || OwnedBy(note, profile)
  }

  /** The two gates disagree for a reviewer's own note: a reviewer may not create notes
      but may edit one recorded under their id. */
  lemma ReviewerMayEditOwnNote(note: LabNote, p: Profile)
    requires p.role == Reviewer && note.researcher_id == Some(p.id)
    ensures CanEdit(note, Some(p)) && !CanCreate(Some(p))
  {
  }

  /** The filter test: the search (case-insensitive) hits the title or the experiment id
      (a null one never hits). */
  predicate Matches(note: LabNote, search: string) {
    SearchHit(note.title, search) || OptionalHit(note.experiment_id, search)
  }

  /** `filtered`: the notes that match, as an order-preserving sublist. */
  function Filtered(notes: seq<LabNote>, search: string): (r: seq<LabNote>)
    ensures IsSublist(r, notes)
    ensures forall i :: 0 <= i < |r| ==> r[i] in notes && Matches(r[i], search)
    ensures forall i :: 0 <= i < |notes| && Matches(notes[i], search) ==> notes[i] in r
  {
    Filter(notes, n => Matches(n, search))
  }

  /** The empty search shows every note. */
  lemma FilteredShowsAll(notes: seq<LabNote>)
    ensures Filtered(notes, "") == notes
  {
    forall n | n in notes ensures Matches(n, "") {
      EmptySearchHits(n.title);
    }
  }

  /** The researcher shown on the open note: for one's own note the full name, or the
      email when the name is null (the email is never null, so the 'You' fallback cannot
      be reached); for every other note the fixed word "Researcher". */
  function ResearcherLabel(note: LabNote, profile: Option<Profile>): (shown: string)
    ensures !OwnedBy(note, profile) ==> shown == "Researcher"
    ensures OwnedBy(note, profile) && profile.value.full_name.Some? ==> shown == profile.value.full_name.value
    ensures OwnedBy(note, profile) && profile.value.full_name.None? ==> shown == profile.value.email
  {
    if OwnedBy(note, profile) then
      match profile.value.full_name
      case Some(name) => name
      case None => profile.value.email
    else "Researcher"
  }

  /** Another researcher's identity never shows: the label only ever carries the viewing
      profile's own name or email. */
  lemma LabelRevealsNoOtherResearcher(note: LabNote, other: LabNote, profile: Option<Profile>)
    requires !OwnedBy(note, profile) && !OwnedBy(other, profile)
    ensures ResearcherLabel(note, profile) == ResearcherLabel(other, profile)
  {
  }

  // ---------------------------------------------------------------------------
  // saveContent and createNote
  // ---------------------------------------------------------------------------

  /** `prev.map((n) => n.id === id ? { ...n, content } : n)`: same length and order; the
      notes with that id get the new body and keep every other field; all others stay. */
  function ReplaceContent(notes: seq<LabNote>, id: string, content: string): (r: seq<LabNote>)
    ensures |r| == |notes|
    ensures forall i :: 0 <= i < |notes| && notes[i].id == id ==> r[i] == notes[i].(content := content)
    ensures forall i :: 0 <= i < |notes| && notes[i].id != id ==> r[i] == notes[i]
  {
    seq(|notes|, i requires 0 <= i < |notes| =>
      if notes[i].id == id then notes[i].(content := content) else notes[i])
  }

  /** Saving twice keeps only the second body; saving the same body twice is saving it
      once. */
  lemma ReplaceContentLastWins(notes: seq<LabNote>, id: string, c1: string, c2: string)
    ensures ReplaceContent(ReplaceContent(notes, id, c1), id, c2) == ReplaceContent(notes, id, c2)
  {
    var a := ReplaceContent(ReplaceContent(notes, id, c1), id, c2);
    var b := ReplaceContent(notes, id, c2);
    assert |a| == |b|;
    forall i | 0 <= i < |a| ensures a[i] == b[i] {
      var m := ReplaceContent(notes, id, c1);
      assert m[i].id == notes[i].id;
    }
  }

  /** Saving leaves every id in place, so a list without repeated ids keeps none. */
  lemma ReplaceContentKeepsIds(notes: seq<LabNote>, id: string, content: string)
    ensures Ids(ReplaceContent(notes, id, content)) == Ids(notes)
  {
    var r := ReplaceContent(notes, id, content);
    assert forall i :: 0 <= i < |notes| ==> Ids(r)[i] == Ids(notes)[i];
  }

  /** The row a create inserts: the template body, the parsed tags, the creator as
      researcher, an empty experiment id stored as null, no attachments or images. */
  function NewNote(id: string, form: NoteForm, profile: Profile, template: string): (n: LabNote)
    ensures n.id == id && n.title == form.title && n.content == template
    ensures n.tags == ParseTags(form.tags)
    ensures n.researcher_id == Some(profile.id)
    ensures n.experiment_id == OrNull(form.experiment_id)
    ensures n.experiment_id.None? <==> form.experiment_id == ""
    ensures !n.has_attachments && !n.has_images
  {
    LabNote(id, form.title, template, OrNull(form.experiment_id), Some(profile.id),
      ParseTags(form.tags), false, false)
  }

  /** The notebook's state: the loaded notes, the note open in the editor (a snapshot
      taken when it was selected), the editor text and whether the editor is open, over
      the fixed template new and empty notes open with. */
  class Notebook {
    const template: string
    var notes: seq<LabNote>
    var selected: Option<LabNote>
    var content: string
    var isEditing: bool

    /** Loading: the first note, if any, is selected and its body (or the template) is
        put in the editor. */
    constructor(loaded: seq<LabNote>)
      ensures template == DefaultContent
      ensures notes == loaded && !isEditing
      ensures loaded != [] ==> selected == Some(loaded[0]) && content == ContentOrDefault(loaded[0].content, template)
      ensures loaded == [] ==> selected.None? && content == template
    {
      template := DefaultContent;
      notes := loaded;
      isEditing := false;
      if loaded != [] {
        selected := Some(loaded[0]);
        content := ContentOrDefault(loaded[0].content, DefaultContent);
      } else {
        selected := None;
        content := DefaultContent;
      }
    }

    /** A click on a list entry: open it read-only with its body (or the template). */
    method Select(note: LabNote)
      modifies this`selected, this`content, this`isEditing
      ensures selected == Some(note) && content == ContentOrDefault(note.content, template) && !isEditing
    {
      selected := Some(note);
      content := ContentOrDefault(note.content, template);
      isEditing := false;
    }

    /** Typing in the editor. */
    method Type(text: string)
      modifies this`content
      ensures content == text
    {
      content := text;
    }

    /** A toolbar button: its markdown snippet goes at the end of the editor text. */
    method InsertSnippet(snippet: string)
      modifies this`content
      ensures content == old(content) + snippet
      ensures old(content) <= content
    {
      content := content + snippet;
    }

    /** `saveContent()`: with a note selected and the update accepted, every listed note
        with the selected id takes the editor text and the editor closes; otherwise
        nothing changes. The selected snapshot itself is not refreshed. */
    method SaveContent(ok: bool)
      modifies this`notes, this`isEditing
      ensures selected.Some? && ok ==>
                notes == ReplaceContent(old(notes), selected.value.id, content) && !isEditing
      ensures selected.None? || !ok ==> notes == old(notes) && isEditing == old(isEditing)
    {
      if selected.None? {
        return;
      }
      if !ok {
        return;
      }
      notes := ReplaceContent(notes, selected.value.id, content);
      isEditing := false;
    }

    /** `createNote()` in the given year: nothing happens without a trimmed title or a
        profile; otherwise the row built from the form under the next id is sent, and the
        row the server returns (none on error) goes in front of the list and opens in the
        editor with the template body. */
    method CreateNote(form: NoteForm, profile: Option<Profile>, year: nat, reply: Option<LabNote>)
      returns (sent: Option<LabNote>)
      modifies this`notes, this`selected, this`content, this`isEditing
      ensures !CanSubmit(form.title, profile) ==> sent.None?
      ensures CanSubmit(form.title, profile) ==>
                sent == Some(NewNote(NextNoteId(old(notes), year), form, profile.value, template))
      ensures CanSubmit(form.title, profile) && reply.Some? ==>
                && notes == [reply.value] + old(notes)
                && selected == reply && content == template && isEditing
      ensures !CanSubmit(form.title, profile) || reply.None? ==>
                && notes == old(notes) && selected == old(selected)
                && content == old(content) && isEditing == old(isEditing)
    {
      if Trim(form.title) == "" || profile.None? {
        return None;
      }
      var id := NextNoteId(notes, year);
      sent := Some(NewNote(id, form, profile.value, template));
      if reply.Some? {
        OpenCreated(reply.value);
      }
    }

    /** The `if (data)` block of a create: the returned row goes in front of the list and
        opens in the editor with the template body. */
    method OpenCreated(row: LabNote)
      modifies this`notes, this`selected, this`content, this`isEditing
      ensures notes == [row] + old(notes)
      ensures selected == Some(row) && content == template && isEditing
    {
      notes := [row] + notes;
      selected := Some(row);
      content := template;
      isEditing := true;
    }
  }
}
