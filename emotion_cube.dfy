/**
 * The emotion cube's note store.  Each of the six faces keeps a `notes` value,
 * which starts as an empty list and is whatever the saved or imported JSON put
 * there afterwards; the cube remembers the selected face and emits
 * `selectedFaceChanged` when the selection changes.  The window around it adds
 * notes from its side panel, deletes the highlighted one and imports a JSON
 * file.  Rendering, picking a face under the mouse, the dialogs and reading files
 * are outside: the face hit, the dialog's answer, the list's current row and the
 * decoded file contents arrive as parameters.  A Python exception that aborts an
 * operation is modelled by keeping every effect made before it.
 */
module EmotionCubeGui {
  import opened Wrappers
  import opened Text
  import opened Json

  const FaceCount: int := 6

  /** The ids of the six faces, the keys of `emotions`. */
  predicate IsFace(id: int) {
    0 <= id < FaceCount
  }

  const FaceIds: set<int> := {0, 1, 2, 3, 4, 5}

  /** The `notes` values of a fresh cube: an empty list for each face. */
  function FreshNotes(): (m: map<int, Json>)
    ensures forall id :: id in m <==> IsFace(id)
    ensures forall id :: id in m ==> m[id] == JList([])
  {
    map id | id in FaceIds :: JList([])
  }

  /** The number `selectedFaceChanged` carries: -1 for no face, the face's id otherwise. */
  function FaceSignal(face: Option<int>): int {
    if face.None? then -1 else face.value
  }

  /** Distinct selections are told apart by the signal. */
  lemma FaceSignalInjective(a: Option<int>, b: Option<int>)
    requires a.Some? ==> IsFace(a.value)
    requires b.Some? ==> IsFace(b.value)
    ensures FaceSignal(a) == FaceSignal(b) <==> a == b
  {
  }

  // Reading dict keys as face ids

  /** The digits of an integer literal after its optional sign, and whether the sign is a minus. */
  function SignAndDigits(t: string): (string, bool) {
    if t != [] && (t[0] == '+' || t[0] == '-') then (t[1..], t[0] == '-') else (t, false)
  }

  /**
   * `int(s)` for a dict key: surrounding blanks, an optional sign, then one or
   * more decimal digits; anything else raises, here `None`.
   */
  function IntKey(s: string): (r: Option<int>)
    ensures r.Some? ==> !IsBlank(s)
    ensures AllDigits(Strip(s)) && Strip(s) != [] ==> r == Some(ParseDigits(Strip(s)))
  {
    var t := Strip(s);
    var (digits, negative) := SignAndDigits(t);
    if digits != [] && AllDigits(digits) then
      Some(if negative then -(ParseDigits(digits) as int) else ParseDigits(digits) as int)
    else
      None
  }

  /** `int(str(n))` gives `n` back, so every face id written as a key reads back. */
  lemma IntKeyRoundTrip(n: int)
    ensures IntKey(IntToString(n)) == Some(n)
  {
    var d := NatToString(if n < 0 then -n else n);
    ParseNatToString(if n < 0 then -n else n);
    var s := IntToString(n);
    if n < 0 {
      assert s == "-" + d;
      assert IsStripped(s) by {
        assert s[|s| - 1] == d[|d| - 1];
      }
      assert s[1..] == d;
      assert SignAndDigits(s) == (d, true);
    } else {
      assert s == d;
      assert !IsSpace(d[0]) && !IsSpace(d[|d| - 1]);
      assert SignAndDigits(s) == (d, false);
    }
    StripStripped(s);
  }

  // The note operations on the per-face values

  /** `notes.append(x)` on one face: only a list has `append`, otherwise nothing changes. */
  function Appended(notes: map<int, Json>, fid: int, x: Json): (r: map<int, Json>)
    requires fid in notes
    ensures r.Keys == notes.Keys
    ensures forall id :: id in notes && id != fid ==> r[id] == notes[id]
    ensures notes[fid].JList? ==> r[fid].JList? && r[fid].items == notes[fid].items + [x]
    ensures !notes[fid].JList? ==> r == notes
  {
    match notes[fid]
    case JList(items) => notes[fid := JList(items + [x])]
    case _ => notes
  }

  /** `del notes[row]` on one face for `row >= 0`: a list loses that entry; any other case raises and changes nothing. */
  function Removed(notes: map<int, Json>, fid: int, row: int): (r: map<int, Json>)
    requires fid in notes
    ensures r.Keys == notes.Keys
    ensures forall id :: id in notes && id != fid ==> r[id] == notes[id]
    ensures notes[fid].JList? && 0 <= row < |notes[fid].items| ==>
      && r[fid].JList?
      && |r[fid].items| == |notes[fid].items| - 1
      && (forall k :: 0 <= k < row ==> r[fid].items[k] == notes[fid].items[k])
      && (forall k :: row <= k < |r[fid].items| ==> r[fid].items[k] == notes[fid].items[k + 1])
    ensures !(notes[fid].JList? && 0 <= row < |notes[fid].items|) ==> r == notes
  {
    match notes[fid]
    case JList(items) =>
      if 0 <= row < |items| then notes[fid := JList(items[..row] + items[row + 1..])] else notes
    case _ => notes
  }

  /** Adding a note and deleting the last row gives the notes back. */
  lemma RemoveUndoesAppend(notes: map<int, Json>, fid: int, x: Json)
    requires fid in notes && notes[fid].JList?
    ensures Removed(Appended(notes, fid, x), fid, |notes[fid].items|) == notes
  {
    var items := notes[fid].items;
    var m := Appended(notes, fid, x);
    assert m[fid] == JList(items + [x]);
    assert (items + [x])[..|items|] + (items + [x])[|items| + 1..] == items;
    assert Removed(m, fid, |items|) == m[fid := JList(items)];
    assert notes[fid := JList(items)] == notes;
  }

  /** The outcome of one loop iteration: the loop ends (an exception), or goes on with these notes. */
  datatype Step = Stop | Go(notes: map<int, Json>)

  /** One iteration of the `load_emotions` loop. */
  function LoadStep(notes: map<int, Json>, entry: (string, Json)): (s: Step)
    ensures s.Go? ==> s.notes.Keys == notes.Keys
  {
    var (key, info) := entry;
    match IntKey(key)
    case None => Stop
    case Some(fid) =>
      if fid !in notes then Go(notes)
      else if !info.JDict? then Stop
      else Go(notes[fid := GetOr(info.entries, "notes", JList([]))])
  }

  /**
   * What `load_emotions` makes of the saved dict's entries, in order: a key that
   * is no integer raises and ends the loop; an id that is no face is skipped; the
   * value of a face must be a dict (anything else raises), and its `notes`, or an
   * empty list, replaces that face's notes.
   */
  function Loaded(notes: map<int, Json>, entries: seq<(string, Json)>): (r: map<int, Json>)
    ensures r.Keys == notes.Keys
  {
    if entries == [] then notes
    else
      match LoadStep(notes, entries[0])
      case Stop => notes
      case Go(next) => Loaded(next, entries[1..])
  }

  /** The whole saved document: only a dict has `items`, anything else leaves the notes alone. */
  function LoadedJson(notes: map<int, Json>, data: Json): (r: map<int, Json>)
    ensures r.Keys == notes.Keys
  {
    if data.JDict? then Loaded(notes, data.entries) else notes
  }

  /**
   * Loading replaces, it never merges: every face ends with its old value or with
   * the `notes` of some entry naming it, and a face no entry names keeps its value.
   */
  lemma {:induction false} LoadReplaces(notes: map<int, Json>, entries: seq<(string, Json)>, fid: int)
    requires fid in notes
    ensures var r := Loaded(notes, entries);
      || r[fid] == notes[fid]
      || exists i :: 0 <= i < |entries| && IntKey(entries[i].0) == Some(fid) && entries[i].1.JDict?
           && r[fid] == GetOr(entries[i].1.entries, "notes", JList([]))
    ensures (forall i :: 0 <= i < |entries| ==> IntKey(entries[i].0) != Some(fid)) ==>
      Loaded(notes, entries)[fid] == notes[fid]
  {
    if entries != [] {
      var (key, info) := entries[0];
      var rest := entries[1..];
      assert forall i :: 0 <= i < |rest| ==> rest[i] == entries[i + 1];
      match IntKey(key)
      case None =>
      case Some(f) =>
        if f !in notes {
          LoadReplaces(notes, rest, fid);
        } else if info.JDict? {
          var m := notes[f := GetOr(info.entries, "notes", JList([]))];
          LoadReplaces(m, rest, fid);
          if f == fid && Loaded(m, rest)[fid] == m[fid] {
            assert IntKey(entries[0].0) == Some(fid) && entries[0].1.JDict?;
          }
        }
    }
  }

  /** A saved document with one face's entry sets exactly that face's notes. */
  lemma LoadOneFace(notes: map<int, Json>, fid: nat, v: Json)
    requires fid in notes
    ensures Loaded(notes, [(IntToString(fid), JDict([("notes", v)]))]) == notes[fid := v]
  {
    IntKeyRoundTrip(fid);
    var entries := [(IntToString(fid), JDict([("notes", v)]))];
    assert entries[1..] == [];
  }

  /** One iteration of the `import_json` loop. */
  function ImportStep(notes: map<int, Json>, entry: (string, Json)): (s: Step)
    ensures s.Go? ==> s.notes.Keys == notes.Keys
  {
    var (key, info) := entry;
    match IntKey(key)
    case None => Stop
    case Some(fid) =>
      if fid !in notes then Go(notes)
      else if !info.JDict? then Stop
      else
        var added := GetOr(info.entries, "notes", JList([]));
        if !added.JList? then Go(notes)
        else if !notes[fid].JList? then Stop
        else Go(notes[fid := JList(notes[fid].items + added.items)])
  }

  /**
   * What `import_json` makes of the imported dict's entries, in order: as for
   * loading, a bad key or a face value that is no dict ends the loop; a face's
   * `notes` that is a list is appended to the face's current list, and if the
   * current value is no list the `extend` raises and ends the loop; other
   * `notes` values are skipped.
   */
  function Imported(notes: map<int, Json>, entries: seq<(string, Json)>): (r: map<int, Json>)
    ensures r.Keys == notes.Keys
  {
    if entries == [] then notes
    else
      match ImportStep(notes, entries[0])
      case Stop => notes
      case Go(next) => Imported(next, entries[1..])
  }

  function ImportedJson(notes: map<int, Json>, data: Json): (r: map<int, Json>)
    ensures r.Keys == notes.Keys
  {
    if data.JDict? then Imported(notes, data.entries) else notes
  }

  /** Importing only appends: a face's list stays a list and keeps its notes in front. */
  lemma {:induction false} ImportKeepsExisting(notes: map<int, Json>, entries: seq<(string, Json)>, fid: int)
    requires fid in notes && notes[fid].JList?
    ensures var r := Imported(notes, entries);
      r[fid].JList? && |notes[fid].items| <= |r[fid].items| && r[fid].items[..|notes[fid].items|] == notes[fid].items
  {
    if entries != [] {
      var (key, info) := entries[0];
      var rest := entries[1..];
      match IntKey(key)
      case None =>
      case Some(f) =>
        if f !in notes {
          ImportKeepsExisting(notes, rest, fid);
        } else if info.JDict? {
          var added := GetOr(info.entries, "notes", JList([]));
          if !added.JList? {
            ImportKeepsExisting(notes, rest, fid);
          } else if notes[f].JList? {
            var m := notes[f := JList(notes[f].items + added.items)];
            ImportKeepsExisting(m, rest, fid);
            var old_ := notes[fid].items;
            assert m[fid].items[..|old_|] == old_;
          }
        }
    }
  }

  /** A face no imported entry names keeps its notes. */
  lemma {:induction false} ImportLeavesOthers(notes: map<int, Json>, entries: seq<(string, Json)>, fid: int)
    requires fid in notes
    requires forall i :: 0 <= i < |entries| ==> IntKey(entries[i].0) != Some(fid)
    ensures Imported(notes, entries)[fid] == notes[fid]
  {
    if entries != [] {
      var (key, info) := entries[0];
      var rest := entries[1..];
      assert forall i :: 0 <= i < |rest| ==> rest[i] == entries[i + 1];
      match IntKey(key)
      case None =>
      case Some(f) =>
        if f !in notes {
          ImportLeavesOthers(notes, rest, fid);
        } else if info.JDict? {
          var added := GetOr(info.entries, "notes", JList([]));
          if !added.JList? {
            ImportLeavesOthers(notes, rest, fid);
          } else if notes[f].JList? {
            ImportLeavesOthers(notes[f := JList(notes[f].items + added.items)], rest, fid);
          }
        }
    }
  }

  /** Importing one face's list appends it to that face's list. */
  lemma ImportOneFace(notes: map<int, Json>, fid: nat, added: seq<Json>)
    requires fid in notes && notes[fid].JList?
    ensures Imported(notes, [(IntToString(fid), JDict([("notes", JList(added))]))])
      == notes[fid := JList(notes[fid].items + added)]
  {
    IntKeyRoundTrip(fid);
    var entries := [(IntToString(fid), JDict([("notes", JList(added))]))];
    assert entries[1..] == [];
  }

  class EmotionCube {
    /** The `notes` value of each face of `emotions`. */
    var notes: map<int, Json>
    /** `_selected_face`. */
    var selectedFace: Option<int>
    /** The values `selectedFaceChanged` has emitted, oldest first. */
    var emitted: seq<int>

    ghost predicate Valid()
      reads this
    {
      && (forall id :: id in notes <==> IsFace(id))
      && (selectedFace.Some? ==> IsFace(selectedFace.value))
    }

    /** A new cube: empty notes, then `load_emotions` on the saved file if there is one. */
    constructor (saved: Option<Json>)
      ensures Valid()
      ensures saved.None? ==> notes == FreshNotes()
      ensures saved.Some? ==> notes == LoadedJson(FreshNotes(), saved.value)
      ensures selectedFace == None && emitted == []
    {
      notes := FreshNotes();
      selectedFace := None;
      emitted := [];
      new;
      if saved.Some? {
        LoadEmotions(saved.value);
      }
    }

    /** The `selected_face` setter: stores and emits only when the value changes. */
    method SetSelectedFace(value: Option<int>)
      modifies this`selectedFace, this`emitted
      ensures selectedFace == value
      ensures old(selectedFace) == value ==> emitted == old(emitted)
      ensures old(selectedFace) != value ==> emitted == old(emitted) + [FaceSignal(value)]
    {
      var signal := if value.None? then -1 else value.value;
      if selectedFace != value {
        selectedFace := value;
        emitted := emitted + [signal];
      }
    }

    /** `load_emotions` over the decoded file. */
    method LoadEmotions(data: Json)
      requires Valid()
      modifies this`notes
      ensures Valid()
      ensures notes == LoadedJson(old(notes), data)
    {
      if !data.JDict? {
        return;
      }
      var entries := data.entries;
      var i := 0;
      while i < |entries|
        invariant 0 <= i <= |entries|
        invariant Valid()
        invariant Loaded(notes, entries[i..]) == Loaded(old(notes), entries)
      {
        assert entries[i..][0] == entries[i] && entries[i..][1..] == entries[i + 1..];
        var step := LoadStep(notes, entries[i]);
        if step.Stop? {
          return;
        }
        notes := step.notes;
        i := i + 1;
      }
    }

    /**
     * A released left click without a drag.  On a face: select it, and append
     * the dialog's text when the dialog was accepted with a non-empty text.  Off
     * the cube: clear the selection.
     */
    method Click(face: Option<int>, ok: bool, text: string)
      requires Valid()
      requires face.Some? ==> IsFace(face.value)
      modifies this`selectedFace, this`emitted, this`notes
      ensures Valid()
      ensures selectedFace == face
      ensures old(selectedFace) == face ==> emitted == old(emitted)
      ensures old(selectedFace) != face ==> emitted == old(emitted) + [FaceSignal(face)]
      ensures face.Some? && ok && text != [] ==> notes == Appended(old(notes), face.value, JStr(text))
      ensures !(face.Some? && ok && text != []) ==> notes == old(notes)
    {
      if face.Some? {
        SetSelectedFace(face);
        if ok && text != [] {
          notes := Appended(notes, face.value, JStr(text));
        }
      } else {
        SetSelectedFace(None);
      }
    }
  }

  class MainWindow {
    const cube: EmotionCube
    /** The text of the side panel's note box. */
    var noteInput: string

    ghost predicate Valid()
      reads this, cube
    {
      cube.Valid()
    }

    constructor (saved: Option<Json>)
      ensures Valid() && fresh(cube)
      ensures saved.None? ==> cube.notes == FreshNotes()
      ensures saved.Some? ==> cube.notes == LoadedJson(FreshNotes(), saved.value)
      ensures cube.selectedFace == None && noteInput == ""
    {
      cube := new EmotionCube(saved);
      noteInput := "";
    }

    /**
     * `add_note_from_panel`: with a face selected and a non-blank note box, the
     * stripped text is appended to that face's list and the box is cleared; if
     * the face's value is no list the `append` raises; the model then changes
     * nothing, where the real program aborts.
     */
    method AddNoteFromPanel()
      requires Valid()
      modifies this`noteInput, cube`notes
      ensures Valid()
      ensures var fid := old(cube.selectedFace);
        && (fid.None? || IsBlank(old(noteInput)) || !old(cube.notes)[fid.value].JList? ==>
              cube.notes == old(cube.notes) && noteInput == old(noteInput))
        && (fid.Some? && !IsBlank(old(noteInput)) && old(cube.notes)[fid.value].JList? ==>
              cube.notes == Appended(old(cube.notes), fid.value, JStr(Strip(old(noteInput)))) && noteInput == "")
    {
      var fid := cube.selectedFace;
      if fid.None? {
        return;
      }
      var text := Strip(noteInput);
      if text == [] {
        return;
      }
      if !cube.notes[fid.value].JList? {
        return;
      }
      cube.notes := Appended(cube.notes, fid.value, JStr(text));
      noteInput := "";
    }

    /** `delete_selected_note` with the list's current row: removes that note when there is one. */
    method DeleteSelectedNote(row: int)
      requires Valid()
      modifies cube`notes
      ensures Valid()
      ensures var fid := old(cube.selectedFace);
        && (fid.None? || row < 0 ==> cube.notes == old(cube.notes))
        && (fid.Some? && row >= 0 ==> cube.notes == Removed(old(cube.notes), fid.value, row))
    {
      var fid := cube.selectedFace;
      if fid.None? {
        return;
      }
      if row >= 0 {
        cube.notes := Removed(cube.notes, fid.value, row);
      }
    }

    /** `clear_selection`. */
    method ClearSelection()
      requires Valid()
      modifies cube`selectedFace, cube`emitted
      ensures Valid()
      ensures cube.selectedFace == None
      ensures old(cube.selectedFace).None? ==> cube.emitted == old(cube.emitted)
      ensures old(cube.selectedFace).Some? ==> cube.emitted == old(cube.emitted) + [-1]
    {
      cube.SetSelectedFace(None);
    }

    /** `import_json` with the decoded file, or `None` when no file was chosen. */
    method ImportJson(data: Option<Json>)
      requires Valid()
      modifies cube`notes
      ensures Valid()
      ensures data.None? ==> cube.notes == old(cube.notes)
      ensures data.Some? ==> cube.notes == ImportedJson(old(cube.notes), data.value)
    {
      if data.None? || !data.value.JDict? {
        return;
      }
      var entries := data.value.entries;
      var i := 0;
      while i < |entries|
        invariant 0 <= i <= |entries|
        invariant Valid()
        invariant Imported(cube.notes, entries[i..]) == Imported(old(cube.notes), entries)
      {
        assert entries[i..][0] == entries[i] && entries[i..][1..] == entries[i + 1..];
        var step := ImportStep(cube.notes, entries[i]);
        if step.Stop? {
          return;
        }
        cube.notes := step.notes;
        i := i + 1;
      }
    }
  }
}
