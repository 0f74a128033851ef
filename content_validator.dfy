/**
 * The interactive tutorial's content validators: a lesson or a task, as decoded
 * JSON, is checked field by field and the first failed check's message is
 * returned.  A task whose `statement` key is missing makes the validator index a
 * missing key, which raises instead of returning; `KeyError` models that.
 */
module ContentValidator {
  import opened Wrappers
  import opened Text
  import opened Json

  /** What a validator call ends in: a returned `(ok, message)` pair, or a raised `KeyError`. */
  datatype Outcome = Return(ok: bool, message: Option<string>) | KeyError(key: string)

  /** `_err(msg)`: a failed check and its message. */
  function Err(msg: string): (r: Outcome)
    ensures r.Return? && !r.ok && r.message == Some(msg)
  {
    Return(false, Some(msg))
  }

  const Accepted: Outcome := Return(true, None)

  /** The first index whose element is bad, if any. */
  function FirstBad(xs: seq<Json>, bad: Json -> bool): (r: Option<nat>)
    ensures r.Some? ==> r.value < |xs| && bad(xs[r.value]) && forall j :: 0 <= j < r.value ==> !bad(xs[j])
    ensures r.None? <==> forall j :: 0 <= j < |xs| ==> !bad(xs[j])
  {
    if xs == [] then None
    else if bad(xs[0]) then Some(0)
    else match FirstBad(xs[1..], bad)
      case None => None
      case Some(k) => Some(k + 1)
  }

  predicate IsString(v: Json) { v.JStr? }

  predicate NotString(v: Json) { !v.JStr? }

  predicate IsDictWithHint(v: Json) {
    v.JDict? && HasKey(v.entries, "hint") && Get(v.entries, "hint").JStr?
  }

  predicate NotNote(v: Json) { !IsDictWithHint(v) }

  /** `key in d and isinstance(d[key], str)`. */
  predicate HasString(e: seq<(string, Json)>, key: string) {
    HasKey(e, key) && Get(e, key).JStr?
  }

  /** `key in d and isinstance(d[key], str) and d[key].strip()`. */
  predicate HasNonBlankString(e: seq<(string, Json)>, key: string) {
    HasString(e, key) && Strip(Get(e, key).s) != []
  }

  /** `"[" + str(i) + "]"`. */
  function Index(i: nat): string {
    "[" + NatToString(i) + "]"
  }

  /** A list-valued optional field whose items must all satisfy `good`: absent, or a list of such items. */
  predicate OptionalListOf(e: seq<(string, Json)>, key: string, good: Json -> bool) {
    HasKey(e, key) ==> Get(e, key).JList? && forall i :: 0 <= i < |Get(e, key).items| ==> good(Get(e, key).items[i])
  }

  /** What a valid lesson looks like, stated over all of its items at once. */
  ghost predicate WellFormedLesson(data: Json) {
    && data.JDict?
    && var e := data.entries;
    && HasString(e, "title") && !IsBlank(Get(e, "title").s)
    && HasString(e, "example")
    && (HasKey(e, "summary") ==> Get(e, "summary").JStr?)
    && OptionalListOf(e, "text", IsString)
    && OptionalListOf(e, "notes", IsDictWithHint)
  }

  /**
   * An optional field that must be a list of strings, checked item by item
   * (lesson `text` and task `hints`): the message for a non-list, or for the
   * first non-string item, by its index.
   */
  function CheckStringList(e: seq<(string, Json)>, key: string, listMsg: string, itemPrefix: string): (r: Option<string>)
    ensures r.None? <==> OptionalListOf(e, key, IsString)
    ensures HasKey(e, key) && !Get(e, key).JList? ==> r == Some(listMsg)
    ensures HasKey(e, key) && Get(e, key).JList? ==>
      forall i :: (0 <= i < |Get(e, key).items| && !Get(e, key).items[i].JStr?
        && (forall j :: 0 <= j < i ==> Get(e, key).items[j].JStr?)) ==>
        r == Some(itemPrefix + Index(i) + " must be a string")
  {
    if !HasKey(e, key) then None
    else if !Get(e, key).JList? then Some(listMsg)
    else match FirstBad(Get(e, key).items, NotString)
      case None => None
      case Some(i) => Some(itemPrefix + Index(i) + " must be a string")
  }

  function CheckLessonText(e: seq<(string, Json)>): Option<string> {
    CheckStringList(e, "text", "Lesson.text must be a list of strings", "Lessons.text")
  }

  /** The loop over lesson `notes`: the first item that is not an object, or lacks a string hint. */
  function CheckLessonNotes(e: seq<(string, Json)>): (r: Option<string>)
    ensures r.None? <==> OptionalListOf(e, "notes", IsDictWithHint)
    ensures HasKey(e, "notes") && !Get(e, "notes").JList? ==> r == Some("Lesson.notes must be a list of objects")
    ensures HasKey(e, "notes") && Get(e, "notes").JList? ==>
      forall i :: (0 <= i < |Get(e, "notes").items| && NotNote(Get(e, "notes").items[i])
        && (forall j :: 0 <= j < i ==> IsDictWithHint(Get(e, "notes").items[j]))) ==>
        r == Some(if !Get(e, "notes").items[i].JDict? then "Lesson.notes" + Index(i) + " must be an object"
                  else "Lesson.notes" + Index(i) + ".hint is required and must be a string")
  {
    if !HasKey(e, "notes") then None
    else if !Get(e, "notes").JList? then Some("Lesson.notes must be a list of objects")
    else match FirstBad(Get(e, "notes").items, NotNote)
      case None => None
      case Some(i) =>
        if !Get(e, "notes").items[i].JDict? then Some("Lesson.notes" + Index(i) + " must be an object")
        else Some("Lesson.notes" + Index(i) + ".hint is required and must be a string")
  }

  /** An optional `summary` must be a string. */
  predicate SummaryOk(e: seq<(string, Json)>) {
    HasKey(e, "summary") ==> Get(e, "summary").JStr?
  }

  /**
   * `validate_lesson`.  The checks run in the order `validate_lesson` tests them,
   * and the first one that fails decides the message: each `ensures` below names
   * one check, with every earlier check passing.
   */
  function ValidateLesson(data: Json): (r: Outcome)
    ensures r.Return? && (r.ok <==> r.message.None?)
    ensures r.ok <==> WellFormedLesson(data)
    ensures !data.JDict? ==> r == Err("Lesson must be a JSON object")
    ensures data.JDict? && !HasNonBlankString(data.entries, "title") ==>
      r == Err("Lesson.title is required and must be a non-empty string")
    ensures data.JDict? && HasNonBlankString(data.entries, "title") && !HasString(data.entries, "example") ==>
      r == Err("Lesson.example is required and must be a string")
    ensures (data.JDict? && HasNonBlankString(data.entries, "title") && HasString(data.entries, "example")
      && !SummaryOk(data.entries)) ==>
      r == Err("Lesson.summary must be a string")
    ensures (data.JDict? && HasNonBlankString(data.entries, "title") && HasString(data.entries, "example")
      && SummaryOk(data.entries) && CheckLessonText(data.entries).Some?) ==>
      r == Err(CheckLessonText(data.entries).value)
    ensures (data.JDict? && HasNonBlankString(data.entries, "title") && HasString(data.entries, "example")
      && SummaryOk(data.entries) && CheckLessonText(data.entries).None? && CheckLessonNotes(data.entries).Some?) ==>
      r == Err(CheckLessonNotes(data.entries).value)
  {
    if !data.JDict? then Err("Lesson must be a JSON object")
    else
      var e := data.entries;
      if !HasNonBlankString(e, "title") then Err("Lesson.title is required and must be a non-empty string")
      else if !HasString(e, "example") then Err("Lesson.example is required and must be a string")
      else if !SummaryOk(e) then Err("Lesson.summary must be a string")
      else if CheckLessonText(e).Some? then Err(CheckLessonText(e).value)
      else if CheckLessonNotes(e).Some? then Err(CheckLessonNotes(e).value)
      else Accepted
  }

  /** The text check reports the first non-string item, by its index. */
  lemma LessonTextIndex(data: Json, i: nat)
    requires data.JDict? && HasNonBlankString(data.entries, "title") && HasString(data.entries, "example")
    requires !HasKey(data.entries, "summary")
    requires HasKey(data.entries, "text") && Get(data.entries, "text").JList?
    requires i < |Get(data.entries, "text").items| && !Get(data.entries, "text").items[i].JStr?
    requires forall j :: 0 <= j < i ==> Get(data.entries, "text").items[j].JStr?
    ensures ValidateLesson(data) == Err("Lessons.text" + Index(i) + " must be a string")
  {
    var xs := Get(data.entries, "text").items;
    assert NotString(xs[i]);
    assert forall j :: 0 <= j < i ==> !NotString(xs[j]);
    assert FirstBad(xs, NotString) == Some(i);
  }

  /** What a valid task looks like.  The statement must be present but may have any type. */
  ghost predicate WellFormedTask(data: Json) {
    && data.JDict?
    && var e := data.entries;
    && HasString(e, "title") && !IsBlank(Get(e, "title").s)
    && HasKey(e, "statement")
    && HasString(e, "template")
    && HasKey(e, "check") && Get(e, "check").JDict?
    && var c := Get(e, "check").entries;
    && HasString(c, "type") && Get(c, "type").s == "stdout_equals"
    && HasString(c, "expected")
    && OptionalListOf(e, "hints", IsString)
  }

  function CheckTaskHints(e: seq<(string, Json)>): Option<string> {
    CheckStringList(e, "hints", "Task.hints must be a list of strings", "Task.hints")
  }

  /** The task tests that run before the statement is read. */
  predicate ReachesStatement(data: Json) {
    data.JDict? && HasNonBlankString(data.entries, "title")
  }

  /** The task tests that run before the `check` object's own fields are read. */
  predicate ReachesCheck(data: Json) {
    && ReachesStatement(data)
    && HasKey(data.entries, "statement")
    && HasString(data.entries, "template")
    && HasKey(data.entries, "check") && Get(data.entries, "check").JDict?
  }

  /** The entries of the task's `check` object. */
  function CheckOf(data: Json): seq<(string, Json)>
    requires ReachesCheck(data)
  {
    Get(data.entries, "check").entries
  }

  /** The `check` object has a string `type` equal to `stdout_equals`. */
  predicate StdoutCheck(data: Json)
    requires ReachesCheck(data)
  {
    HasString(CheckOf(data), "type") && Get(CheckOf(data), "type").s == "stdout_equals"
  }

  /** The checks of `validate_task` that read the `check` object and then `hints`, in the order `validate_task` tests them. */
  function ValidateCheck(data: Json): (r: Outcome)
    requires ReachesCheck(data)
    ensures r.Return? && (r.ok <==> r.message.None?)
    ensures r.ok <==> StdoutCheck(data) && HasString(CheckOf(data), "expected")
                      && OptionalListOf(data.entries, "hints", IsString)
    ensures !HasString(CheckOf(data), "type") ==> r == Err("Task.check.type is required and must be a string")
    ensures HasString(CheckOf(data), "type") && !StdoutCheck(data) ==>
      r == Err("Unsupported check.type: " + Get(CheckOf(data), "type").s)
    ensures StdoutCheck(data) && !HasString(CheckOf(data), "expected") ==>
      r == Err("Task.check.expected is required and must be a string for stdout_equals")
    ensures StdoutCheck(data) && HasString(CheckOf(data), "expected") && CheckTaskHints(data.entries).Some? ==>
      r == Err(CheckTaskHints(data.entries).value)
  {
    var c := CheckOf(data);
    if !HasString(c, "type") then Err("Task.check.type is required and must be a string")
    else if Get(c, "type").s != "stdout_equals" then Err("Unsupported check.type: " + Get(c, "type").s)
    else if !HasString(c, "expected") then
      Err("Task.check.expected is required and must be a string for stdout_equals")
    else if CheckTaskHints(data.entries).Some? then Err(CheckTaskHints(data.entries).value)
    else Accepted
  }

  /**
   * `validate_task`.  As for lessons, the first failing check decides the
   * message; a missing `statement` raises instead.
   */
  function ValidateTask(data: Json): (r: Outcome)
    ensures r.Return? ==> (r.ok <==> r.message.None?)
    ensures r == Accepted <==> WellFormedTask(data)
    ensures r.KeyError? <==> ReachesStatement(data) && !HasKey(data.entries, "statement")
    ensures r.KeyError? ==> r.key == "statement"
    ensures !data.JDict? ==> r == Err("Task must be a JSON object")
    ensures data.JDict? && !HasNonBlankString(data.entries, "title") ==>
      r == Err("Task.title is required and must be a non-empty string")
    ensures ReachesStatement(data) && HasKey(data.entries, "statement") && !HasString(data.entries, "template") ==>
      r == Err("Task.template is required and must be a string")
    ensures (ReachesStatement(data) && HasKey(data.entries, "statement") && HasString(data.entries, "template")
      && !(HasKey(data.entries, "check") && Get(data.entries, "check").JDict?)) ==>
      r == Err("Task.check is required and must be an object")
    ensures ReachesCheck(data) && !HasString(CheckOf(data), "type") ==>
      r == Err("Task.check.type is required and must be a string")
    ensures ReachesCheck(data) && HasString(CheckOf(data), "type") && !StdoutCheck(data) ==>
      r == Err("Unsupported check.type: " + Get(CheckOf(data), "type").s)
    ensures ReachesCheck(data) && StdoutCheck(data) && !HasString(CheckOf(data), "expected") ==>
      r == Err("Task.check.expected is required and must be a string for stdout_equals")
    ensures (ReachesCheck(data) && StdoutCheck(data) && HasString(CheckOf(data), "expected")
      && CheckTaskHints(data.entries).Some?) ==>
      r == Err(CheckTaskHints(data.entries).value)
  {
    if !data.JDict? then Err("Task must be a JSON object")
    else
      var e := data.entries;
      if !HasNonBlankString(e, "title") then Err("Task.title is required and must be a non-empty string")
      else if !HasKey(e, "statement") then KeyError("statement")
      else if !HasString(e, "template") then Err("Task.template is required and must be a string")
      else if !(HasKey(e, "check") && Get(e, "check").JDict?) then Err("Task.check is required and must be an object")
      else ValidateCheck(data)
  }
}
