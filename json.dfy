/**
 * Decoded JSON values as the Python code sees them after `json.load`:
 * `None`, booleans, integers, strings, lists and dicts. A dict is kept as its
 * list of entries in insertion order, as Python keeps it.
 */
module Json {
  import opened Text
  import opened Wrappers

  datatype Json =
    | JNull
    | JBool(b: bool)
    | JInt(n: int)
    | JStr(s: string)
    | JList(items: seq<Json>)
    | JDict(entries: seq<(string, Json)>)

  /** `key in d` for a dict's entries. */
  predicate HasKey(entries: seq<(string, Json)>, key: string) {
    exists i :: 0 <= i < |entries| && entries[i].0 == key
  }

  /** `d[key]`, or None when the key is absent. */
  function Lookup(entries: seq<(string, Json)>, key: string): (r: Option<Json>)
    ensures r.Some? <==> HasKey(entries, key)
  {
    if entries == [] then None
    else if entries[0].0 == key then Some(entries[0].1)
    else Lookup(entries[1..], key)
  }

  /** The value found is the one at the key's first position. */
  lemma {:induction false} LookupAt(entries: seq<(string, Json)>, key: string, i: nat)
    requires i < |entries| && entries[i].0 == key
    requires forall j :: 0 <= j < i ==> entries[j].0 != key
    ensures Lookup(entries, key) == Some(entries[i].1)
  {
    if i > 0 {
      assert entries[1..][i - 1] == entries[i];
      LookupAt(entries[1..], key, i - 1);
    }
  }

  /** `d.get(key, default)` on a dict. */
  function GetOr(entries: seq<(string, Json)>, key: string, default: Json): Json {
    match Lookup(entries, key)
    case Some(v) => v
    case None => default
  }

  /** `d.get(key)`: a missing key reads as `None`. */
  function Get(entries: seq<(string, Json)>, key: string): Json {
    GetOr(entries, key, JNull)
  }

  /** Python truthiness: `None`, `False`, `0`, `""`, `[]` and `{}` are false. */
  predicate Truthy(v: Json) {
    match v
    case JNull => false
    case JBool(b) => b
    case JInt(n) => n != 0
    case JStr(s) => s != ""
    case JList(items) => items != []
    case JDict(entries) => entries != []
  }

  /** `a or b`: the first operand when it is truthy, otherwise the second. */
  function Or(a: Json, b: Json): Json {
    if Truthy(a) then a else b
  }

  /** `d.get(k1) or d.get(k2) or ...`: the first truthy value, or else the last key's value. */
  function GetFirst(entries: seq<(string, Json)>, keys: seq<string>): (r: Json)
    requires keys != []
    ensures exists i :: (0 <= i < |keys| && r == Get(entries, keys[i])
                         && (forall j :: 0 <= j < i ==> !Truthy(Get(entries, keys[j])))
                         && (Truthy(r) || i == |keys| - 1))
  {
    if |keys| == 1 then Get(entries, keys[0])
    else
      var rest := GetFirst(entries, keys[1..]);
      assert forall j :: 0 <= j < |keys| - 1 ==> keys[1..][j] == keys[j + 1];
      Or(Get(entries, keys[0]), rest)
  }

  /** The first key whose value is truthy decides the result. */
  lemma GetFirstPicks(entries: seq<(string, Json)>, keys: seq<string>, i: nat)
    requires i < |keys| && Truthy(Get(entries, keys[i]))
    requires forall j :: 0 <= j < i ==> !Truthy(Get(entries, keys[j]))
    ensures GetFirst(entries, keys) == Get(entries, keys[i])
  {
  }

  /** `str(v)`: a string is itself; other values are rendered as by `repr`. */
  function Str(v: Json): string {
    if v.JStr? then v.s else Repr(v)
  }

  /** `repr(v)`, with strings quoted in single quotes and not escaped. */
  function Repr(v: Json): string
    decreases v, 1
  {
    match v
    case JNull => "None"
    case JBool(b) => if b then "True" else "False"
    case JInt(n) => IntToString(n)
    case JStr(s) => Quote(s)
    case JList(items) => "[" + ReprItems(items) + "]"
    case JDict(entries) => "{" + ReprEntries(v, 0) + "}"
  }

  function Quote(s: string): string {
    "'" + s + "'"
  }

  /** The list items' `repr`s, separated by `", "`. */
  function ReprItems(items: seq<Json>): string
    decreases items, 0
  {
    if items == [] then ""
    else if |items| == 1 then Repr(items[0])
    else Repr(items[0]) + ", " + ReprItems(items[1..])
  }

  /** The entries of dict `v` from position `i` on, as `'key': repr(value)` separated by `", "`. */
  function ReprEntries(v: Json, i: nat): string
    requires v.JDict? && i <= |v.entries|
    decreases v, 0, |v.entries| - i
  {
    if i == |v.entries| then ""
    else
      var first := Quote(v.entries[i].0) + ": " + Repr(v.entries[i].1);
      if i + 1 == |v.entries| then first else first + ", " + ReprEntries(v, i + 1)
  }

  /** The keys of a dict, in order (what iterating a dict yields). */
  function Keys(entries: seq<(string, Json)>): (r: seq<string>)
    ensures |r| == |entries|
    ensures forall i :: 0 <= i < |entries| ==> r[i] == entries[i].0
  {
    seq(|entries|, i requires 0 <= i < |entries| => entries[i].0)
  }
}
