/** What the section index of the notes page should show, stated on the list of notes alone
    (apps/web/src/features/notes/NotesPage.tsx).  The module NoteTree proves that the mutable
    tree shows exactly this. */
module NoteSections {

  import opened Sequences

  type Path = seq<string>

  /** The parts of a note record that the index uses; `id` stands for everything else. */
  datatype Note = Note(id: string, sectionPath: Path)

  const UNFILED: string := "\U{672A}\U{5206}\U{7C7B}"

  function SectionPath(note: Note): (p: Path)
    ensures p != []
  {
    if note.sectionPath != [] then note.sectionPath else [UNFILED]
  }

  /** The notes filed at exactly this path, in input order. */
  function NotesAt(notes: seq<Note>, path: Path): seq<Note> {
    if notes == [] then []
    else NotesAt(Init(notes), path) + if SectionPath(Last(notes)) == path then [Last(notes)] else []
  }

  /** The labels that continue `path` in some note's section path, in order of first occurrence. */
  function ChildLabels(notes: seq<Note>, path: Path): seq<string> {
    if notes == [] then []
    else
      var before, section := ChildLabels(Init(notes), path), SectionPath(Last(notes));
      if path < section && section[|path|] !in before then before + [section[|path|]] else before
  }

  /** Some note is filed at `path` or below it. */
  predicate InUse(notes: seq<Note>, path: Path) {
    exists i :: 0 <= i < |notes| && path <= SectionPath(notes[i])
  }

  lemma InUseAppend(notes: seq<Note>, note: Note, path: Path)
    ensures InUse(notes + [note], path) <==> InUse(notes, path) || path <= SectionPath(note)
  {
    var all := notes + [note];
    if i :| 0 <= i < |notes| && path <= SectionPath(notes[i]) {
      assert all[i] == notes[i];
    }
    assert all[|notes|] == note;
  }

  /** A label continues a path exactly when the longer path is in use. */
  lemma {:induction false} ChildLabelsMeaning(notes: seq<Note>, path: Path, name: string)
    ensures name in ChildLabels(notes, path) <==> InUse(notes, path + [name])
    decreases |notes|
  {
    if notes == [] {
    } else {
      var front, section := Init(notes), SectionPath(Last(notes));
      ChildLabelsMeaning(front, path, name);
      assert notes == front + [Last(notes)];
      InUseAppend(front, Last(notes), path + [name]);
      assert path + [name] <= section <==> path < section && section[|path|] == name;
    }
  }

  /** Sibling labels differ. */
  lemma {:induction false} ChildLabelsDistinct(notes: seq<Note>, path: Path)
    ensures Distinct(ChildLabels(notes, path))
    decreases |notes|
  {
    if notes == [] {
    } else {
      ChildLabelsDistinct(Init(notes), path);
    }
  }

  lemma {:induction false} NotesAtAppend(notes: seq<Note>, note: Note, path: Path)
    ensures NotesAt(notes + [note], path) == NotesAt(notes, path) + if SectionPath(note) == path then [note] else []
  {
    assert Init(notes + [note]) == notes;
  }

  /** At a path are exactly the occurrences of the notes filed there: a note appears at its own
      path as often as in the input, and nowhere else. */
  lemma {:induction false} NotesAtOccurrences(notes: seq<Note>, path: Path, note: Note)
    ensures multiset(NotesAt(notes, path))[note] == if SectionPath(note) == path then multiset(notes)[note] else 0
    decreases |notes|
  {
    if notes == [] {
    } else {
      NotesAtOccurrences(Init(notes), path, note);
      NotesAtAppend(Init(notes), Last(notes), path);
      assert notes == Init(notes) + [Last(notes)];
      hide NotesAt, SectionPath;
    }
  }

  /** A note of the input lies at its own path, and a note that lies at a path is one of the input
      with that section path, or one without any at the label for unfiled notes. */
  lemma {:induction false} NotePlaces(notes: seq<Note>, path: Path, note: Note)
    ensures note in NotesAt(notes, path) <==>
      note in notes
      && (if note.sectionPath != [] then path == note.sectionPath else path == ["\U{672A}\U{5206}\U{7C7B}"])
    ensures note in NotesAt(notes, path) ==> path != [] && InUse(notes, path)
  {
    hide NotesAt;
    NotesAtOccurrences(notes, path, note);
    assert note in notes <==> note in multiset(notes);
    assert note in NotesAt(notes, path) <==> note in multiset(NotesAt(notes, path));
    if note in NotesAt(notes, path) {
      var n :| 0 <= n < |notes| && notes[n] == note;
      assert path <= SectionPath(notes[n]);
    }
  }

  /** No branch is without notes: below every path in use some path holds a note. */
  lemma {:induction false} BranchHasNotes(notes: seq<Note>, path: Path) returns (full: Path)
    requires InUse(notes, path)
    ensures path <= full && NotesAt(notes, full) != []
  {
    var i :| 0 <= i < |notes| && path <= SectionPath(notes[i]);
    full := SectionPath(notes[i]);
    NotesAtOccurrences(notes, full, notes[i]);
    assert multiset(notes)[notes[i]] > 0;
  }

  // ---------- Everything the tree shows ----------

  /** The notes filed at `path` or below it, in input order. */
  ghost function NotesUnder(notes: seq<Note>, path: Path): seq<Note> {
    if notes == [] then []
    else NotesUnder(Init(notes), path) + if path <= SectionPath(Last(notes)) then [Last(notes)] else []
  }

  ghost function Height(notes: seq<Note>): nat {
    if notes == [] then 0
    else
      var h, n := Height(Init(notes)), |SectionPath(Last(notes))|;
      if h >= n then h else n
  }

  lemma {:induction false} InUseHeight(notes: seq<Note>, path: Path)
    requires InUse(notes, path)
    ensures |path| <= Height(notes)
    decreases |notes|
  {
    assert notes == Init(notes) + [Last(notes)];
    InUseAppend(Init(notes), Last(notes), path);
    if !InUse(Init(notes), path) {
    } else {
      InUseHeight(Init(notes), path);
    }
  }

  /** The notes of a node and then those of its children, one after the other. */
  ghost function Shown(notes: seq<Note>, path: Path): seq<Note>
    requires path == [] || InUse(notes, path)
    decreases Height(notes) - |path|, 1
  {
    if path != [] then
      InUseHeight(notes, path);
      NotesAt(notes, path) + ShownBelow(notes, path, ChildLabels(notes, path))
    else NotesAt(notes, path) + ShownBelow(notes, path, ChildLabels(notes, path))
  }

  ghost function ShownBelow(notes: seq<Note>, path: Path, labels: seq<string>): seq<Note>
    requires forall l :: l in labels ==> l in ChildLabels(notes, path)
    decreases Height(notes) - |path|, 0, |labels|
  {
    if labels == [] then []
    else
      ChildLabelsMeaning(notes, path, Last(labels));
      InUseHeight(notes, path + [Last(labels)]);
      ShownBelow(notes, path, Init(labels)) + Shown(notes, path + [Last(labels)])
  }

  /** The notes under the given children, as a multiset. */
  ghost function UnderChildren(notes: seq<Note>, path: Path, labels: seq<string>): multiset<Note> {
    if labels == [] then multiset{}
    else UnderChildren(notes, path, Init(labels)) + multiset(NotesUnder(notes, path + [Last(labels)]))
  }

  lemma StepDown(path: Path, name: string, section: Path)
    ensures path + [name] <= section <==> path < section && section[|path|] == name
  {
  }

  lemma {:induction false} NotesUnderAppend(notes: seq<Note>, note: Note, path: Path)
    ensures NotesUnder(notes + [note], path)
         == NotesUnder(notes, path) + if path <= SectionPath(note) then [note] else []
  {
    assert Init(notes + [note]) == notes;
  }

  /** What a further note adds to the children named in `labels`. */
  ghost function Added(note: Note, path: Path, labels: seq<string>): multiset<Note> {
    if path < SectionPath(note) && SectionPath(note)[|path|] in labels then multiset{note} else multiset{}
  }

  lemma AddedSplits(note: Note, path: Path, front: seq<string>, name: string)
    requires name !in front
    ensures Added(note, path, front + [name])
         == Added(note, path, front) + multiset(if path + [name] <= SectionPath(note) then [note] else [])
  {
    StepDown(path, name, SectionPath(note));
  }

  lemma {:induction false} UnderChildrenAppend(notes: seq<Note>, note: Note, path: Path, labels: seq<string>)
    requires Distinct(labels)
    ensures UnderChildren(notes + [note], path, labels)
         == UnderChildren(notes, path, labels) + Added(note, path, labels)
    decreases |labels|
  {
    if labels == [] {
    } else {
      var front, name := Init(labels), Last(labels);
      assert labels == front + [name];
      UnderChildrenAppend(notes, note, path, front);
      NotesUnderAppend(notes, note, path + [name]);
      AddedSplits(note, path, front, name);
      hide NotesUnder, Added;
    }
  }

  /** Every label that continues `path` in some note is among `labels`. */
  ghost predicate Covers(notes: seq<Note>, path: Path, labels: seq<string>) {
    forall i :: 0 <= i < |notes| && path < SectionPath(notes[i]) ==> SectionPath(notes[i])[|path|] in labels
  }

  lemma ChildLabelsCover(notes: seq<Note>, path: Path)
    ensures Covers(notes, path, ChildLabels(notes, path))
  {
    forall i | 0 <= i < |notes| && path < SectionPath(notes[i])
      ensures SectionPath(notes[i])[|path|] in ChildLabels(notes, path)
    {
      var name := SectionPath(notes[i])[|path|];
      StepDown(path, name, SectionPath(notes[i]));
      ChildLabelsMeaning(notes, path, name);
    }
  }

  lemma CoversFront(notes: seq<Note>, note: Note, path: Path, labels: seq<string>)
    requires Covers(notes + [note], path, labels)
    ensures Covers(notes, path, labels)
    ensures path < SectionPath(note) ==> SectionPath(note)[|path|] in labels
  {
    var all := notes + [note];
    assert forall i :: 0 <= i < |notes| ==> notes[i] == all[i];
    assert all[|notes|] == note;
  }

  lemma OwnOrAdded(note: Note, path: Path, labels: seq<string>)
    requires path < SectionPath(note) ==> SectionPath(note)[|path|] in labels
    ensures multiset(if path <= SectionPath(note) then [note] else [])
         == multiset(if SectionPath(note) == path then [note] else []) + Added(note, path, labels)
  {
  }

  lemma {:induction false} NothingUnder(path: Path, labels: seq<string>)
    ensures UnderChildren([], path, labels) == multiset{}
    decreases |labels|
  {
    if labels == [] {
    } else {
      NothingUnder(path, Init(labels));
    }
  }

  lemma {:induction false} UnderSplits(notes: seq<Note>, path: Path, labels: seq<string>)
    requires Distinct(labels) && Covers(notes, path, labels)
    ensures multiset(NotesUnder(notes, path)) == multiset(NotesAt(notes, path)) + UnderChildren(notes, path, labels)
    decreases |notes|
  {
    if notes == [] {
      NothingUnder(path, labels);
    } else {
      hide NotesUnder, NotesAt, UnderChildren, Added, Covers, SectionPath;
      var front, note := Init(notes), Last(notes);
      assert notes == front + [note];
      CoversFront(front, note, path, labels);
      UnderSplits(front, path, labels);
      UnderChildrenAppend(front, note, path, labels);
      NotesUnderAppend(front, note, path);
      NotesAtAppend(front, note, path);
      OwnOrAdded(note, path, labels);
    }
  }

  lemma {:induction false} ShownBelowIsUnder(notes: seq<Note>, path: Path, labels: seq<string>)
    requires forall l :: l in labels ==> l in ChildLabels(notes, path)
    ensures multiset(ShownBelow(notes, path, labels)) == UnderChildren(notes, path, labels)
    decreases Height(notes) - |path|, 0, |labels|
  {
    if labels == [] {
    } else {
      ChildLabelsMeaning(notes, path, Last(labels));
      InUseHeight(notes, path + [Last(labels)]);
      ShownBelowIsUnder(notes, path, Init(labels));
      ShownIsUnder(notes, path + [Last(labels)]);
    }
  }

  lemma {:induction false} ShownIsUnder(notes: seq<Note>, path: Path)
    requires path == [] || InUse(notes, path)
    ensures multiset(Shown(notes, path)) == multiset(NotesUnder(notes, path))
    decreases Height(notes) - |path|, 1
  {
    if path != [] {
      InUseHeight(notes, path);
    }
    var labels := ChildLabels(notes, path);
    ShownBelowIsUnder(notes, path, labels);
    ChildLabelsDistinct(notes, path);
    ChildLabelsCover(notes, path);
    UnderSplits(notes, path, labels);
  }

  lemma RootIsPrefix(note: Note)
    ensures [] <= SectionPath(note)
  {
  }

  lemma {:induction false} AllUnderRoot(notes: seq<Note>)
    ensures NotesUnder(notes, []) == notes
    decreases |notes|
  {
    if notes == [] {
    } else {
      var front, note := Init(notes), Last(notes);
      assert notes == front + [note];
      AllUnderRoot(front);
      RootIsPrefix(note);
      hide NotesUnder, SectionPath;
      NotesUnderAppend(front, note, []);
    }
  }

  /** Walking the whole index from the roots shows every note exactly once. */
  lemma EveryNoteShownOnce(notes: seq<Note>)
    ensures multiset(Shown(notes, [])) == multiset(notes)
  {
    ShownIsUnder(notes, []);
    AllUnderRoot(notes);
  }
}
