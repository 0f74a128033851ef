/**
 * Hint lists for the tutorial's lessons: `normalize_hints` turns any list into
 * its non-blank, stripped string renderings, and `extract_hints_from_lesson`
 * takes a lesson's `hints` list, or else the `hint` strings of its `notes`.
 */
module Hints {
  import opened Wrappers
  import opened Text
  import opened Json

  /** `("" if item is None else str(item)).strip()`: the text one list item contributes. */
  function HintText(item: Json): (t: string)
    ensures IsStripped(t)
  {
    Strip(if item.JNull? then "" else Str(item))
  }

  /** A note's hint: the stripped `hint` string of a dict, or nothing. */
  function NoteHint(note: Json): (t: string)
    ensures IsStripped(t)
  {
    if note.JDict? && Get(note.entries, "hint").JStr? then Strip(Get(note.entries, "hint").s) else ""
  }

  /** The non-blank texts of `xs`, in order: what both hint loops collect. */
  function Picked<T>(xs: seq<T>, text: T -> string): (out: seq<string>)
    ensures |out| <= |xs|
    ensures forall k :: 0 <= k < |out| ==> out[k] != []
  {
    if xs == [] then []
    else
      var t := text(xs[|xs| - 1]);
      Picked(xs[..|xs| - 1], text) + (if t != [] then [t] else [])
  }

  /** The positions whose text is kept. */
  function Kept<T>(xs: seq<T>, text: T -> string): (idx: seq<nat>)
    ensures forall k :: 0 <= k < |idx| ==> idx[k] < |xs|
  {
    if xs == [] then []
    else Kept(xs[..|xs| - 1], text) + (if text(xs[|xs| - 1]) != [] then [|xs| - 1] else [])
  }

  /** `out` is the texts of `xs` at the strictly increasing positions `idx`. */
  ghost predicate PickedInOrder<T>(out: seq<string>, xs: seq<T>, text: T -> string, idx: seq<nat>) {
    && |idx| == |out|
    && (forall k :: 0 <= k < |idx| ==> idx[k] < |xs| && out[k] == text(xs[idx[k]]))
    && (forall k, l :: 0 <= k < l < |idx| ==> idx[k] < idx[l])
  }

  /** Picking keeps relative order: the result is the texts at the kept positions, in increasing order. */
  lemma {:induction false} PickedKeepsOrder<T>(xs: seq<T>, text: T -> string)
    ensures PickedInOrder(Picked(xs, text), xs, text, Kept(xs, text))
  {
    if xs != [] {
      var init := xs[..|xs| - 1];
      PickedKeepsOrder(init, text);
      forall k | 0 <= k < |Kept(init, text)|
        ensures xs[Kept(init, text)[k]] == init[Kept(init, text)[k]]
      {
      }
    }
  }

  /** No item with a non-blank text is lost. */
  lemma {:induction false} PickedKeepsAll<T>(xs: seq<T>, text: T -> string, i: nat)
    requires i < |xs| && text(xs[i]) != []
    ensures text(xs[i]) in Picked(xs, text)
  {
    var init := xs[..|xs| - 1];
    if i < |xs| - 1 {
      assert xs[i] == init[i];
      PickedKeepsAll(init, text, i);
    }
  }

  /** The hints a list's items normalise to. */
  function Normalized(items: seq<Json>): seq<string> {
    Picked(items, HintText)
  }

  /** `normalize_hints` as a value: a non-list gives no hints. */
  function NormalizedHints(raw: Json): seq<string> {
    if raw.JList? then Normalized(raw.items) else []
  }

  /** Each normalised hint is some item's text: stripped and non-blank, in the items' order,
      and no item with text is dropped. */
  lemma NormalizedClean(items: seq<Json>)
    ensures |Normalized(items)| <= |items|
    ensures forall k :: 0 <= k < |Normalized(items)| ==> Normalized(items)[k] != [] && IsStripped(Normalized(items)[k])
    ensures PickedInOrder(Normalized(items), items, HintText, Kept(items, HintText))
    ensures forall i :: 0 <= i < |items| && HintText(items[i]) != [] ==> HintText(items[i]) in Normalized(items)
  {
    PickedKeepsOrder(items, HintText);
    forall i | 0 <= i < |items| && HintText(items[i]) != []
      ensures HintText(items[i]) in Normalized(items)
    {
      PickedKeepsAll(items, HintText, i);
    }
  }

  /** `normalize_hints`. */
  method NormalizeHints(raw: Json) returns (out: seq<string>)
    ensures out == NormalizedHints(raw)
  {
    if !raw.JList? {
      return [];
    }
    var items := raw.items;
    out := [];
    var i := 0;
    while i < |items|
      invariant 0 <= i <= |items|
      invariant out == Normalized(items[..i])
    {
      var s := if items[i].JNull? then "" else Str(items[i]);
      s := Strip(s);
      assert s == HintText(items[i]);
      ghost var next := items[..i + 1];
      assert next[..i] == items[..i] && next[i] == items[i];
      assert Normalized(next) == out + (if s != [] then [s] else []);
      if s != [] {
        out := out + [s];
      }
      i := i + 1;
    }
    assert items[..i] == items;
  }

  /** The `hint` strings of the dicts among `notes`, stripped, blank ones dropped. */
  function NoteHints(notes: seq<Json>): seq<string> {
    Picked(notes, NoteHint)
  }

  /** `any(isinstance(x, str) for x in hints)`. */
  predicate HasStringItem(v: Json) {
    v.JList? && exists i :: 0 <= i < |v.items| && v.items[i].JStr?
  }

  /** `extract_hints_from_lesson` as a value. */
  function ExtractedHints(data: Json): seq<string> {
    if !data.JDict? then []
    else
      var hints := GetOr(data.entries, "hints", JList([]));
      if HasStringItem(hints) then NormalizedHints(hints)
      else
        var notes := GetOr(data.entries, "notes", JList([]));
        if notes.JList? then NoteHints(notes.items) else []
  }

  /** `extract_hints_from_lesson`. */
  method ExtractHints(data: Json) returns (out: seq<string>)
    ensures out == ExtractedHints(data)
  {
    if !data.JDict? {
      return [];
    }
    var hints := GetOr(data.entries, "hints", JList([]));
    if HasStringItem(hints) {
      out := NormalizeHints(hints);
      return;
    }
    var notes := GetOr(data.entries, "notes", JList([]));
    if !notes.JList? {
      return [];
    }
    var items := notes.items;
    out := [];
    var i := 0;
    while i < |items|
      invariant 0 <= i <= |items|
      invariant out == NoteHints(items[..i])
    {
      ghost var next := items[..i + 1];
      assert next[..i] == items[..i] && next[i] == items[i];
      ghost var t := NoteHint(items[i]);
      assert NoteHints(next) == out + (if t != [] then [t] else []);
      var n := items[i];
      if n.JDict? {
        var h := Get(n.entries, "hint");
        if h.JStr? && Strip(h.s) != [] {
          out := out + [Strip(h.s)];
        }
      }
      i := i + 1;
    }
    assert items[..i] == items;
  }

  /** Every extracted hint is stripped and non-blank; a non-dict lesson has none. */
  lemma ExtractedHintsClean(data: Json)
    ensures !data.JDict? ==> ExtractedHints(data) == []
    ensures forall k :: 0 <= k < |ExtractedHints(data)| ==>
      ExtractedHints(data)[k] != [] && IsStripped(ExtractedHints(data)[k])
  {
    if data.JDict? {
      var hints := GetOr(data.entries, "hints", JList([]));
      var notes := GetOr(data.entries, "notes", JList([]));
      if HasStringItem(hints) {
        NormalizedClean(hints.items);
      } else if notes.JList? {
        PickedKeepsOrder(notes.items, NoteHint);
      }
    }
  }

  /** Without a string among `hints`, the result is the notes' hints: the stripped
      non-blank `hint` strings of the dicts in `notes`, in order. */
  lemma NotesFallback(entries: seq<(string, Json)>)
    requires !HasStringItem(GetOr(entries, "hints", JList([])))
    requires HasKey(entries, "notes") && Get(entries, "notes").JList?
    ensures ExtractedHints(JDict(entries)) == Picked(Get(entries, "notes").items, NoteHint)
    ensures PickedInOrder(ExtractedHints(JDict(entries)), Get(entries, "notes").items, NoteHint,
                          Kept(Get(entries, "notes").items, NoteHint))
  {
    PickedKeepsOrder(Get(entries, "notes").items, NoteHint);
  }

  /** A `hints` list holding a string wins: `notes` is then not looked at, so any
      `notes` added after it leave the result as it was. */
  lemma HintsOverrideNotes(entries: seq<(string, Json)>, notes: Json)
    requires HasKey(entries, "hints") && HasStringItem(Get(entries, "hints"))
    ensures ExtractedHints(JDict(entries)) == NormalizedHints(Get(entries, "hints"))
    ensures ExtractedHints(JDict(entries + [("notes", notes)])) == NormalizedHints(Get(entries, "hints"))
  {
    var e2 := entries + [("notes", notes)];
    assert e2[..|entries|] == entries;
    LookupPrefix(entries, e2, "hints");
  }

  /** Appending entries does not change the value of a key already present. */
  lemma {:induction false} LookupPrefix(e: seq<(string, Json)>, e2: seq<(string, Json)>, key: string)
    requires HasKey(e, key) && |e| <= |e2| && e2[..|e|] == e
    ensures Lookup(e2, key) == Lookup(e, key)
  {
    if e[0].0 != key {
      assert HasKey(e[1..], key) by {
        var i :| 0 <= i < |e| && e[i].0 == key;
        assert e[1..][i - 1].0 == key;
      }
      assert e2[1..][..|e[1..]|] == e[1..];
      LookupPrefix(e[1..], e2[1..], key);
    }
  }
}
