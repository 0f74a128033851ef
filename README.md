# Verified model of Test1's game, timer, validators and GUI helpers

This project is a Dafny model of the logic inside a collection of small
PyQt5 desktop programs. Each file models one program, or one part of one.

- **Snake** (`snake.dfy`). The snake game on a 30×20 grid:
  - a direction buffer that refuses reversals;
  - the move/crash/eat automaton and the speed rule;
  - a food allocator that picks a free cell;
  - the capped particle pool;
  - the Running/Paused/Game-over state machine.

  The game instance is a class whose methods update its fields. Its invariant is:
  - the body is distinct and on the board;
  - the buffered direction is never the reverse of the current one;
  - food is never on the body;
  - the pool stays within 60 particles.
- **FocusTimer** (`focus_timer.dfy`). The stopwatch:
  - the `HH:MM:SS.mmm` rendering, with a proof that it is injective and reads back exactly;
  - the window's start/pause/reset/tick state machine;
  - the button states and the daily-goal bar.
- **Interactive tutorial**:
  - `content_validator.dfy` holds the lesson and task validators over decoded JSON;
  - `hints.dfy` holds hint normalisation and extraction.
- **FreelanceHelper**:
  - `freelance_gui.dfy`: the table's text and link sanitisers, the 200-row trim, the field fallbacks and the link-opening test;
  - `remoteok.dfy`: the RemoteOK client's text normaliser, URL repair, query match and item loop;
  - `wework.dfy`: the We Work Remotely client's normaliser, link rule and limited result loop.
- **ImageDownloader** (`image_downloader.dfy`): file-name sanitising and first-occurrence de-duplication.
- **Commander and Mdredactor** (`ext_filter.dfy`, `commander.dfy`, `mdredactor.dfy`):
  - the extension-filter rule both file managers share;
  - Mdredactor's terminal command history with Up/Down navigation.
- **Emotion cube** (`emotion_cube.dfy`):
  - the per-face note store;
  - the change-detecting selection setter and its signal;
  - loading, clicking, adding, deleting and importing notes.

Shared helpers:
- `wrappers.dfy`: `Option`, `Max`, `Min`.
- `text.dfy`: Python string operations. These are `strip` over the `isspace` set, `lower` on ASCII, `startswith`, `in`, replacing characters, truncation and decimal digits.
- `json.dfy`: decoded JSON values with `dict.get`, truthiness, `or` chains and `str()`.
- `links.dfy`: the `//` and `/` link prefixing that two programs share.

Python exceptions that end an operation are modelled by keeping the effects made before them. An error of that kind in a loop stops the loop, and an error in an event handler leaves the rest of the handler undone. Two handlers raise outside any `try`, where the real program ends instead; "## Left out" names them.

Unlike the prose description of the game, the Snake collision test checks the new head against the whole current body, tail included, as the code does (`new_head in self.snake`). A move into the cell the tail is about to leave is therefore a crash.

Mdredactor defines `apply_filter` and `clear_filter` twice with identical bodies. Python keeps the later pair, and the table cites that pair.

`validate_task` tests the statement with `"statement" not in data and not isinstance(...)`. The model follows that code: a missing `statement` raises a `KeyError` (`Outcome.KeyError`), and a present statement of any type is accepted.

## Model

| member | source | states |
|---|---|---|
| Snake.FreeCells | Games/Snake/snake.py:114-116 | a cell is free exactly when it is on the 30×20 board and not on the snake |
| Snake.ChooseFood | Games/Snake/snake.py:114-116 | the chosen food is an on-board cell off the snake, and it is None exactly when no cell is free |
| Snake.InitialSnakeValid | Games/Snake/snake.py:87-90 | the reset body is `[(15,10),(14,10),(13,10)]`, three distinct on-board cells |
| Snake.SpawnCount | Games/Snake/snake.py:339-343 | a burst adds between 0 and 18 particles; it adds none exactly when the pool holds 60 or more; it never pushes the pool past 60, and it is either 18 or exactly fills the pool |
| Snake.SlideKeepsBody | Games/Snake/snake.py:324-335 | prepending a free head and popping the tail keeps the length, and keeps the body distinct and on the board |
| Snake.GrowKeepsBody | Games/Snake/snake.py:324-326 | prepending a free head without popping adds exactly one cell and keeps the body valid |
| Snake.SlideKeepsFoodOff | Games/Snake/snake.py:324-335 | food the head did not reach is still off the body after a plain move |
| Snake.FullBoardCrashes | Games/Snake/snake.py:315-322 | when no cell is free, every move crashes, so missing food never meets a live tick |
| Snake.ReverseDiffers | Games/Snake/snake.py:271-276 | a unit direction is never its own reverse, and its reverse is a unit direction |
| Snake.Particle.constructor | Games/Snake/snake.py:36-42 | a new particle's life and maximum life are both the given lifetime, and it has the given colour |
| Snake.Particle.Step | Games/Snake/snake.py:49-54 | a frame lowers the particle's life by one |
| Snake.Survivors | Games/Snake/snake.py:128-134 | culling never lengthens the pool |
| Snake.SurvivorsMembers | Games/Snake/snake.py:126-134 | the kept particles are exactly the live ones of the pool, and none is kept twice |
| Snake.StepAll | Games/Snake/snake.py:128-134 | every particle in the pool ages by one, and the result is the live particles in pool order |
| Snake.StepNext | Games/Snake/snake.py:129-132 | one loop iteration ages that particle and appends it when it is still alive |
| Snake.SnakeGame.constructor | Games/Snake/snake.py:82-85 | a new widget satisfies the invariant and holds a fresh running round: the initial body with `prevSnake` equal to it, heading right with right buffered, food placed, score 0, speed 150, Running and no particles |
| Snake.SnakeGame.ResetGame | Games/Snake/snake.py:87-101 | the reset sets the initial body, direction right, food on the board, score 0, speed 150, Running and no particles, and the invariant holds |
| Snake.SnakeGame.SpawnFood | Games/Snake/snake.py:114-116 | food is on a free cell, or None only on a full board |
| Snake.SnakeGame.KeyPress | Games/Snake/snake.py:257-278 | Space toggles Running and Paused; R restarts only a lost round, to the initial snake, score and speed with fresh food and no particles; an arrow is buffered only while Running and never as the reverse of the current direction; nothing else changes |
| Snake.SnakeGame.Pause | Games/Snake/snake.py:284-290 | pausing acts only from Running, and is a no-op otherwise |
| Snake.SnakeGame.Resume | Games/Snake/snake.py:292-299 | resuming acts only from Paused, and is a no-op otherwise |
| Snake.SnakeGame.ChangeSpeed | Games/Snake/snake.py:301-305 | the interval becomes `max(30, speed + delta)` |
| Snake.SnakeGame.EndGame | Games/Snake/snake.py:356-357 | the state becomes Game over |
| Snake.SnakeGame.GameStep | Games/Snake/snake.py:307-337 | commits the buffered direction, which is never the reverse of the old one. A crash (off the board or onto the body) ends the round and leaves body, food, score, speed and pool unchanged. Eating grows the body by one, adds one point, applies the speed rule and adds a burst. A plain move keeps the length. The invariant holds after every outcome |
| Snake.SnakeGame.MoveTo | Games/Snake/snake.py:324-335 | on a free head: eat when the head holds the food, slide otherwise, with the effects of each |
| Snake.SnakeGame.EatAt | Games/Snake/snake.py:324-333 | the body grows by the head, the score rises by one, the speed drops by 10 (never below 30) on each multiple of 3, a burst is appended, and new food lies off the body (or is none on a full board) |
| Snake.SnakeGame.SlideTo | Games/Snake/snake.py:324-335 | the head is prepended and the tail dropped; the body stays valid and the food stays off it |
| Snake.SnakeGame.SpawnParticles | Games/Snake/snake.py:339-354 | exactly `SpawnCount` fresh particles are appended after the old ones, each with life in [10,24] equal to its maximum and a palette colour |
| Snake.SnakeGame.AnimTick | Games/Snake/snake.py:118-137 | every particle ages by one, the pool becomes its live members in order, and the round (body, food, score, speed, state) is untouched |
| FocusTimer.Split | FocusTimer/focus_timer.py:28-31 | minutes and seconds lie in [0,60) and millis in [0,1000); recombining the parts gives `ms`; hours are negative exactly when `ms` is |
| FocusTimer.SplitUnique | FocusTimer/focus_timer.py:28-31 | the decomposition is the only one with those bounds |
| FocusTimer.PadInt | FocusTimer/focus_timer.py:32 | `format(n, "0wd")` is at least `w` wide and reads back as `n`, with a leading minus for negatives |
| FocusTimer.FormatElapsed | FocusTimer/focus_timer.py:28-32 | every rendering is at least 12 characters |
| FocusTimer.ParseElapsed | FocusTimer/focus_timer.py:32 | a reader for the `HH:MM:SS.mmm` shape: when it accepts, the separators sit at their fixed places and the fields are digits |
| FocusTimer.CsvRowReadsBack | FocusTimer/focus_timer.py:152-158 | the row logged for a session fills the four header columns (focus_timer.py:117) with the timestamp first and the stripped comment last; its `duration_ms` and `duration_str` columns both read back as the session's duration |
| FocusTimer.ParseFormatElapsed | FocusTimer/focus_timer.py:28-32 | every duration, negative ones included, reads back exactly from its rendering |
| FocusTimer.FormatElapsedShape | FocusTimer/focus_timer.py:32 | the rendering is at least 12 characters, with `:`, `:` and `.` at their fixed places from the end and two-digit minutes, two-digit seconds and three-digit millis between them |
| FocusTimer.FormatElapsedZero | FocusTimer/focus_timer.py:127-128 | a zero duration renders as `00:00:00.000` |
| FocusTimer.FormatElapsedInjective | FocusTimer/focus_timer.py:28-32 | distinct durations never render alike |
| FocusTimer.Progress | FocusTimer/focus_timer.py:255-263 | the bar never exceeds 100, and is 0 when there is no positive goal |
| FocusTimer.ProgressBounds | FocusTimer/focus_timer.py:255-263 | with a goal of at least a minute and no negative time, the bar lies in [0,100] and is full exactly when the goal is reached |
| FocusTimer.ProgressMonotone | FocusTimer/focus_timer.py:255-263 | more time never lowers the bar |
| FocusTimer.ClampGoal | FocusTimer/focus_timer.py:69 | the spin box keeps the goal in [1,600] and leaves in-range values alone |
| FocusTimer.FocusTimerWindow.constructor | FocusTimer/focus_timer.py:39-75 | a new window is stopped at zero with no last tick, a goal of 120 minutes and consistent widgets |
| FocusTimer.FocusTimerWindow.UpdateUiState | FocusTimer/focus_timer.py:122-125 | start is enabled iff stopped, pause iff running, and reset iff time has been counted |
| FocusTimer.FocusTimerWindow.UpdateProgress | FocusTimer/focus_timer.py:255-263 | the bar shows the progress of the saved total, plus the running session when there is one |
| FocusTimer.FocusTimerWindow.OnStart | FocusTimer/focus_timer.py:131-138 | a no-op while running; otherwise it starts and records the current time as the last tick |
| FocusTimer.FocusTimerWindow.OnPause | FocusTimer/focus_timer.py:140-146 | the timer ends stopped, keeping its elapsed time |
| FocusTimer.FocusTimerWindow.OnReset | FocusTimer/focus_timer.py:148-174 | always ends stopped at zero with no last tick and an empty comment; a session with its stripped comment is logged only when time was counted and the write succeeded |
| FocusTimer.FocusTimerWindow.OnTick | FocusTimer/focus_timer.py:176-187 | adds the timer interval when no last tick is recorded, and otherwise the non-negative time since the last tick; elapsed time never decreases, and the tick time is recorded |
| FocusTimer.FocusTimerWindow.SetGoalMinutes | FocusTimer/focus_timer.py:69-71 | the goal becomes the clamped value and the invariant holds |
| FocusTimer.FocusTimerWindow.SetComment | FocusTimer/focus_timer.py:57 | the comment becomes the typed text |
| ContentValidator.Err | interactive-tutorial/content_validator.py:4-5 | a failure carrying exactly its message |
| ContentValidator.FirstBad | interactive-tutorial/content_validator.py:24-26 | the `enumerate` loops find the first bad index, and find none exactly when every item is good |
| ContentValidator.CheckStringList | interactive-tutorial/content_validator.py:21-26 | the check of a string-list field (lesson `text` here, task `hints` at lines 64-69) gives no message exactly when the field is absent or a list of strings; a present non-list gives the list message, and otherwise the first non-string item is reported by its index |
| ContentValidator.CheckLessonNotes | interactive-tutorial/content_validator.py:28-35 | no message exactly when `notes` is absent or a list of objects, each with a string `hint`; a present non-list gives the list message, and otherwise the first bad note is reported by its index, as not an object or as lacking a string hint |
| ContentValidator.ValidateLesson | interactive-tutorial/content_validator.py:7-37 | accepted exactly when the lesson is well formed, and a failure always carries a message. The checks run in the order `validate_lesson` tests them, and the first failing one gives its message: non-object, title, example, summary, then the text check's and the notes check's messages |
| ContentValidator.LessonTextIndex | interactive-tutorial/content_validator.py:24-26 | the text check reports the first non-string item by its index |
| ContentValidator.ValidateTask | interactive-tutorial/content_validator.py:39-71 | accepted exactly when the task is well formed. It raises a `KeyError` on `statement` exactly when the title check passes and `statement` is missing. Otherwise the first failing check gives its message, in the order `validate_task` tests them: non-object, title, template, check object, then check type, unsupported type, expected and hints |
| ContentValidator.ValidateCheck | interactive-tutorial/content_validator.py:52-69 | once the `check` object is reached, the task passes exactly when the type is `stdout_equals`, `expected` is a string and `hints` is absent or a list of strings; otherwise the type, unsupported-type, expected or hints message comes first, in that order |
| Hints.HintText | interactive-tutorial/ui/hints_utils.py:14-17 | each item's text is stripped |
| Hints.NoteHint | interactive-tutorial/ui/hints_utils.py:44-48 | a note's hint is stripped |
| Hints.Picked | interactive-tutorial/ui/hints_utils.py:11-20 | the collected texts are no more than the items, and none is empty |
| Hints.PickedKeepsOrder | interactive-tutorial/ui/hints_utils.py:11-20 | the result is the texts at strictly increasing item positions |
| Hints.PickedKeepsAll | interactive-tutorial/ui/hints_utils.py:18-19 | no item with a non-blank text is lost |
| Hints.NormalizedClean | interactive-tutorial/ui/hints_utils.py:9-20 | normalised hints are stripped, non-empty, no more than the items, in the items' order, and complete |
| Hints.NormalizeHints | interactive-tutorial/ui/hints_utils.py:4-20 | the loop returns the normalised hints of a list, and none for a non-list |
| Hints.ExtractHints | interactive-tutorial/ui/hints_utils.py:23-51 | the loop returns the extracted hints |
| Hints.ExtractedHintsClean | interactive-tutorial/ui/hints_utils.py:31-51 | a non-dict lesson has no hints, and every extracted hint is stripped and non-blank |
| Hints.NotesFallback | interactive-tutorial/ui/hints_utils.py:40-49 | without a string among `hints`, the result is the notes' stripped non-blank hints, in order |
| Hints.HintsOverrideNotes | interactive-tutorial/ui/hints_utils.py:35-37 | a `hints` list holding a string decides the result, and `notes` appended after it leave the result unchanged |
| Json.GetFirst | FreelanceHelper/gui.py:158-170 | an `a or b or c` chain of `get`s yields the first truthy value, or the last key's value when none is truthy |
| Json.GetFirstPicks | FreelanceHelper/gui.py:158-170 | the first truthy key decides the chain |
| Json.Lookup | FreelanceHelper/gui.py:158 | `dict.get` finds a value exactly when the key is present |
| Text.Cleaned | FreelanceHelper/gui.py:31 | the cleaned text is stripped, holds no `\r`, `\n` or `\t`, is no longer than the input, and is empty exactly when the input is blank |
| Text.Strip | FreelanceHelper/gui.py:31 | `strip()` gives a stripped text no longer than the input, and it is empty exactly when the input is blank |
| Text.StripIdempotent | FreelanceHelper/gui.py:31 | stripping twice is stripping once |
| Text.BreaksToSpaces | FreelanceHelper/gui.py:31 | the three `replace` calls keep the length, turn each `\r`, `\n` and `\t` into a space, and leave no break |
| Text.Truncate | FreelanceHelper/gui.py:32-33 | text within the cap is kept; longer text becomes its first `max_len` characters followed by `…` |
| Text.Lower | FreelanceHelper/api_clients/remoteok_client.py:48 | `lower()` keeps the length, lower-cases each ASCII letter and keeps every other character |
| Text.ParseNatToString | emotion_cube/gui.py:80 | reading the decimal rendering of a natural number gives the number back |
| Links.Prefixed | FreelanceHelper/gui.py:45-48 | `//x` becomes `https://x`, `/p` becomes `https://remoteok.com/p`, and anything else is unchanged |
| Links.HttpAnyCase | FreelanceHelper/api_clients/remoteok_client.py:31 | a link that passes the case-sensitive test also passes the case-insensitive one |
| Links.PrefixedKeepsHttp | FreelanceHelper/gui.py:45-50 | prefixing leaves an http(s) link unchanged |
| FreelanceGui.SafeStr | FreelanceHelper/gui.py:17-34 | `None` gives `—`; the result has no breaks and is at most `max_len + 1` long; it is empty exactly for blank text; it is the cleaned text, or its first `max_len` characters plus `…` |
| FreelanceGui.NormalizeLink | FreelanceHelper/gui.py:37-51 | a falsy value gives `-`; any other result is `-`, or a stripped prefixed link that starts case-insensitively with http(s) |
| FreelanceGui.DashIsNotHttp | FreelanceHelper/gui.py:49-51 | the placeholder `-` is never taken for a link |
| FreelanceGui.NormalizeLinkKeepsValid | FreelanceHelper/gui.py:45-50 | a stripped http(s) link is returned unchanged |
| FreelanceGui.NormalizeLinkIdempotent | FreelanceHelper/gui.py:37-51 | normalising a normalised link changes nothing |
| FreelanceGui.NormalizeStripped | FreelanceHelper/gui.py:42-51 | for stripped text the result is the prefixed text when it is an http(s) link, and `-` otherwise |
| FreelanceGui.SchemeRelativeLink | FreelanceHelper/gui.py:45-46 | `//x` becomes `https://x` |
| FreelanceGui.SiteRelativeLink | FreelanceHelper/gui.py:47-48 | `/p` becomes `https://remoteok.com/p` |
| FreelanceGui.TrimResults | FreelanceHelper/gui.py:138-141 | at most 200 results are kept, and they are the first ones |
| FreelanceGui.RowOf | FreelanceHelper/gui.py:155-173 | a non-dict result shows placeholders; cells respect the length caps; the link cell is `-` or a stripped http(s) link; the title has no breaks |
| FreelanceGui.RowTitleKey | FreelanceHelper/gui.py:158 | the title comes from the first truthy key of `title`, `position` and `name` |
| FreelanceGui.RowLinkKey | FreelanceHelper/gui.py:170-171 | the link comes from the first truthy key of `link`, `url`, `apply_url` and `company_url` |
| FreelanceGui.RowMissingTitle | FreelanceHelper/gui.py:158 | with none of the title keys present, the title is `—` |
| FreelanceGui.OpenedLink | FreelanceHelper/gui.py:220-229 | a link is opened exactly for a column 3 cell whose stripped text starts case-insensitively with http(s); the opened text is that stripped text and is non-empty |
| FreelanceGui.RowLinkOpens | FreelanceHelper/gui.py:220-229 | clicking a row's link cell opens that link exactly when it is not `-` |
| FreelanceGui.LinkRepairsAgree | FreelanceHelper/gui.py:37-51 | whenever the RemoteOK client accepts a link, the table's rule yields the same link |
| FreelanceGui.LinkRepairsDiffer | FreelanceHelper/gui.py:49 | the rules differ on case: `HTTP://x` is kept by the table and rejected by the client |
| FreelanceGui.SafeStrKeeps | FreelanceHelper/gui.py:31-34 | stripped break-free text within the cap is shown as it is |
| FreelanceGui.ClientTextKeeps | FreelanceHelper/gui.py:17-34 | the RemoteOK client's dash-defaulted text passes through `safe_str` unchanged |
| FreelanceGui.ItemRowShowsItem | FreelanceHelper/gui.py:155-173 | a result dict whose fields are already clean is shown field by field |
| FreelanceGui.RemoteOkRowShowsItem | FreelanceHelper/gui.py:155-173 | every RemoteOK result is shown in the table exactly as the client built it |
| FreelanceGui.WeworkTextIsSafeStr | FreelanceHelper/api_clients/wework_client.py:6-9 | the We Work Remotely normaliser agrees with `safe_str` on every string |
| RemoteOk.Strs | FreelanceHelper/api_clients/remoteok_client.py:15 | `map(str, items)` keeps the count and renders each item |
| RemoteOk.DropBreaks | FreelanceHelper/api_clients/remoteok_client.py:9 | drops a leading run of breaks, leaving a suffix that starts with no break |
| RemoteOk.CollapseBreaks | FreelanceHelper/api_clients/remoteok_client.py:18 | the substitution leaves no break and never lengthens the text |
| RemoteOk.CollapseBreakFree | FreelanceHelper/api_clients/remoteok_client.py:18 | break-free text is unchanged |
| RemoteOk.CollapseLeadingRun | FreelanceHelper/api_clients/remoteok_client.py:18 | a leading run of breaks becomes one space |
| RemoteOk.CollapseRun | FreelanceHelper/api_clients/remoteok_client.py:18 | a run of breaks between texts becomes exactly one space |
| RemoteOk.Flattened | FreelanceHelper/api_clients/remoteok_client.py:18 | the collapsed, stripped text is stripped and break-free |
| RemoteOk.NormalizeText | FreelanceHelper/api_clients/remoteok_client.py:11-21 | `None` gives `""`; the result is break-free, at most `max_len + 1` long, and stripped whenever `max_len` is positive; it is the flattened text, or its first `max_len` characters plus `…` |
| RemoteOk.SafeUrl | FreelanceHelper/api_clients/remoteok_client.py:23-33 | a falsy value gives `-`; any other result is `-`, or a stripped prefixed link that starts case-sensitively with http(s) |
| RemoteOk.Fields | FreelanceHelper/api_clients/remoteok_client.py:40-47 | the query is matched against four texts |
| RemoteOk.JoinedParts | FreelanceHelper/api_clients/remoteok_client.py:48 | the combined text is the four lower-cased fields joined by spaces |
| RemoteOk.JoinedContains | FreelanceHelper/api_clients/remoteok_client.py:48-49 | text found in one field is found in the combined text |
| RemoteOk.MatchesField | FreelanceHelper/api_clients/remoteok_client.py:35-49 | a query found case-insensitively in any one of title, company, tags or description matches |
| RemoteOk.ItemJsonFields | FreelanceHelper/api_clients/remoteok_client.py:90-94 | the result dict's four fields read back as the item's fields |
| RemoteOk.OrDash | FreelanceHelper/api_clients/remoteok_client.py:85-87 | the `or "—"` fallback is never empty, and keeps non-empty text |
| RemoteOk.RawFields | FreelanceHelper/api_clients/remoteok_client.py:95 | each raw entry keeps its key and normalises its value to 200 characters |
| RemoteOk.ItemOf | FreelanceHelper/api_clients/remoteok_client.py:85-95 | title, company and salary are never empty and respect their caps; the link is `-` or a stripped http(s) link; `raw` holds the first 10 entries, with their keys |
| RemoteOk.Accepted | FreelanceHelper/api_clients/remoteok_client.py:77-96 | there are never more results than jobs |
| RemoteOk.AcceptedSound | FreelanceHelper/api_clients/remoteok_client.py:78-83 | every result comes from a job dict that matches the query |
| RemoteOk.AcceptedComplete | FreelanceHelper/api_clients/remoteok_client.py:78-90 | no matching job dict is dropped |
| RemoteOk.EmptyQueryKeepsAll | FreelanceHelper/api_clients/remoteok_client.py:36-37 | with an empty query every job dict yields a result |
| RemoteOk.SearchRemoteOk | FreelanceHelper/api_clients/remoteok_client.py:70-96 | the loop returns the search results: none for a non-list, otherwise the accepted jobs after the first element |
| Wework.NormalizeText | FreelanceHelper/api_clients/wework_client.py:6-9 | `None` gives `—`; the result is always stripped, break-free and at most `max_len + 1` long; it is the cleaned text, or its first `max_len` characters plus `…` |
| Wework.JobLink | FreelanceHelper/api_clients/wework_client.py:31 | an href starting with `/` gets the site prepended, others are kept, and the link never starts with `/` |
| Wework.JobLinkIsHttp | FreelanceHelper/api_clients/wework_client.py:31 | a site-relative href becomes an https link on the board's site |
| Wework.JobOf | FreelanceHelper/api_clients/wework_client.py:31-37 | the salary is `—`, the link follows the link rule, and title and company respect the cap |
| Wework.Anchored | FreelanceHelper/api_clients/wework_client.py:28-37 | there are never more results than listings |
| Wework.Collected | FreelanceHelper/api_clients/wework_client.py:28-39 | the result is the first `max(limit, 1)` anchored jobs, or all of them when there are fewer |
| Wework.CollectedAtStop | FreelanceHelper/api_clients/wework_client.py:38-39 | stopping at the append that reaches the limit leaves exactly the collected results |
| Wework.CollectedAtEnd | FreelanceHelper/api_clients/wework_client.py:28-40 | running out of listings below the limit leaves every anchored result |
| Wework.CollectJobs | FreelanceHelper/api_clients/wework_client.py:25-40 | the loop returns the collected results |
| ImageDownloader.Sanitized | ImageDownloader/image_downloader.py:23-27 | the length is kept, every reserved character becomes `_`, and every other character is kept |
| ImageDownloader.SanitizedIsSafe | ImageDownloader/image_downloader.py:23-27 | a sanitised name holds none of `<>:"/\|?*` |
| ImageDownloader.SanitizedIdempotent | ImageDownloader/image_downloader.py:23-27 | sanitising twice is sanitising once |
| ImageDownloader.SanitizeFilename | ImageDownloader/image_downloader.py:23-27 | the replace loop yields the sanitised name |
| ImageDownloader.Dedupe | ImageDownloader/image_downloader.py:97 | no longer than the input, the same elements in both directions, and no duplicates |
| ImageDownloader.DedupeKeepsFirstOrder | ImageDownloader/image_downloader.py:97 | kept pairs come in the order of their first occurrences |
| ExtFilter.NormalizeExt | Commander/main.py:379-383 | the filter is empty or a stripped lower-case text starting with `.`, and it is empty exactly when the input is blank |
| ExtFilter.NormalizedFilterIsFixed | Commander/main.py:379-383 | a normalised filter is its own normal form |
| ExtFilter.NormalizeExtIdempotent | Mdredactor/main.py:540-544 | applying the rule twice is applying it once |
| ExtFilter.NormalizeExtAddsDot | Commander/main.py:381-383 | a bare extension gets a `.` in front and is lower-cased |
| ExtFilter.NormalizeExtIgnoresBlanks | Commander/main.py:380 | surrounding blanks do not matter |
| Commander.FileManager.constructor | Commander/main.py:66 | a new window has no filter |
| Commander.FileManager.SetFilterInput | Commander/main.py:380 | the filter box holds the typed text |
| Commander.FileManager.ApplyFilter | Commander/main.py:379-383 | the filter becomes the normalised box text; it is empty exactly when the box is blank |
| Commander.FileManager.ClearFilter | Commander/main.py:386-388 | the box and the filter both become empty |
| Mdredactor.UpIndex | Mdredactor/main.py:474 | Up moves one entry back, never before the first |
| Mdredactor.DownIndex | Mdredactor/main.py:479 | Down moves one entry forward, never past the newest |
| Mdredactor.ArrowsStayInHistory | Mdredactor/main.py:472-479 | from any index the window can hold, both keys land on an entry of the history |
| Mdredactor.UpRecallsNewest | Mdredactor/main.py:449 | right after a command is recorded, Up recalls it |
| Mdredactor.DownNeverClears | Mdredactor/main.py:478-483 | Down never reaches the position where the line would be cleared, and stays on the newest entry |
| Mdredactor.FileManager.constructor | Mdredactor/main.py:62-66 | no filter, an empty history and index -1 |
| Mdredactor.FileManager.ApplyFilter | Mdredactor/main.py:540-545 | the filter becomes the normalised box text; it is empty exactly when the box is blank |
| Mdredactor.FileManager.ClearFilter | Mdredactor/main.py:547-550 | the box and the filter both become empty |
| Mdredactor.FileManager.ExecuteCommand | Mdredactor/main.py:439-465 | a blank line, or any line while the shell is not running, changes nothing; otherwise the stripped command is appended, the index moves to the history's length and the line is cleared |
| Mdredactor.FileManager.KeyPress | Mdredactor/main.py:467-485 | with a history, Up and Down move the clamped index and show that entry, and the key is consumed; otherwise nothing changes and the key is passed on |
| EmotionCubeGui.FreshNotes | emotion_cube/gui.py:44-51 | the six faces 0 to 5 each start with an empty note list |
| EmotionCubeGui.FaceSignalInjective | emotion_cube/gui.py:63-67 | the emitted number (-1 for none) tells distinct selections apart |
| EmotionCubeGui.IntKey | emotion_cube/gui.py:80 | blank keys are rejected, and a key of digits reads as its value |
| EmotionCubeGui.IntKeyRoundTrip | emotion_cube/gui.py:80 | `int(str(n))` is `n`, so every face id written as a key reads back |
| EmotionCubeGui.Appended | emotion_cube/gui.py:258-263 | appending changes only that face; a list gains the note at its end; any other value stays as it was |
| EmotionCubeGui.Removed | emotion_cube/gui.py:433-444 | deleting changes only that face; an in-range row of a list is removed and the rest closes up; otherwise nothing changes |
| EmotionCubeGui.RemoveUndoesAppend | emotion_cube/gui.py:433-444 | deleting the last row right after adding a note gives the notes back |
| EmotionCubeGui.LoadStep | emotion_cube/gui.py:79-82 | one load iteration never changes which faces exist |
| EmotionCubeGui.Loaded | emotion_cube/gui.py:74-84 | loading never changes which faces exist |
| EmotionCubeGui.LoadedJson | emotion_cube/gui.py:74-84 | loading a document never changes which faces exist |
| EmotionCubeGui.LoadReplaces | emotion_cube/gui.py:79-82 | loading replaces rather than merges: each face keeps its value or takes the `notes` of an entry naming it, and a face no entry names is untouched |
| EmotionCubeGui.LoadOneFace | emotion_cube/gui.py:79-82 | a saved entry for one face sets exactly that face's notes |
| EmotionCubeGui.ImportStep | emotion_cube/gui.py:456-461 | one import iteration never changes which faces exist |
| EmotionCubeGui.Imported | emotion_cube/gui.py:449-468 | importing never changes which faces exist |
| EmotionCubeGui.ImportedJson | emotion_cube/gui.py:449-468 | importing a document never changes which faces exist |
| EmotionCubeGui.ImportKeepsExisting | emotion_cube/gui.py:456-461 | importing only appends: a face's list stays a list and keeps its notes in front |
| EmotionCubeGui.ImportLeavesOthers | emotion_cube/gui.py:456-461 | a face no imported entry names keeps its notes |
| EmotionCubeGui.ImportOneFace | emotion_cube/gui.py:456-461 | importing one face's list appends it after that face's notes |
| EmotionCubeGui.EmotionCube.constructor | emotion_cube/gui.py:43-52 | a new cube has six empty lists, then the saved file loaded over them, and no selection |
| EmotionCubeGui.EmotionCube.SetSelectedFace | emotion_cube/gui.py:63-71 | the selection becomes the value; the signal is emitted once with -1 or the id when the value differs, and not at all otherwise |
| EmotionCubeGui.EmotionCube.LoadEmotions | emotion_cube/gui.py:74-84 | the loop leaves the loaded notes: a non-dict document changes nothing |
| EmotionCubeGui.EmotionCube.Click | emotion_cube/gui.py:250-268 | a click on a face selects it and appends the dialog's text only when accepted and non-empty; a click off the cube clears the selection |
| EmotionCubeGui.MainWindow.constructor | emotion_cube/gui.py:356-370 | the window's cube starts loaded with no selection, and the note box is empty |
| EmotionCubeGui.MainWindow.AddNoteFromPanel | emotion_cube/gui.py:421-431 | with no selection, blank text or a non-list value nothing changes; otherwise the stripped text is appended to the selected face only, and the box is cleared |
| EmotionCubeGui.MainWindow.DeleteSelectedNote | emotion_cube/gui.py:433-444 | with no selection or a negative row nothing changes; otherwise exactly that row of the selected face is removed when it exists |
| EmotionCubeGui.MainWindow.ClearSelection | emotion_cube/gui.py:446-447 | the selection becomes none, signalled once only if there was one |
| EmotionCubeGui.MainWindow.ImportJson | emotion_cube/gui.py:449-468 | no file or a non-dict document changes nothing; otherwise the loop leaves the imported notes |

## Left out

- Qt widgets, painting, OpenGL, dialogs, styling, menus and timers are not modelled. The timers' effect is that a tick only runs while its timer does, so `GameStep` requires a Running round.
- Snake.Particle.constructor: the colour is taken as an RGB triple; the source's fallback to `(255, 200, 80)` for a malformed colour is not modelled, because every burst passes a palette colour.
- Floating-point state is not modelled:
  - particle positions and velocities;
  - animation progress and the apple pulse;
  - camera rotation in the emotion cube.
- FocusTimer.Progress: `int(total / goal * 100)` is computed in floating point in the source. The model uses exact integer division truncated toward zero, so rounding in the last place can differ.
- Randomness in food placement and particle bursts is modelled as an unconstrained choice within the stated ranges.
- The clock comes in as a parameter: `OnStart`/`OnTick` take the current time and `OnReset` the ISO timestamp.
- File I/O is not modelled:
  - the FocusTimer CSV file itself (parameters: whether the append succeeded, and the day's saved total). The rows it receives are modelled, as `CsvRow` of the logged session;
  - the emotion cube's `emotions.json`, taken as the decoded document or none;
  - `save_emotions` and `export_notes`;
  - the stats dialog.
- Network requests, HTML parsing and JSON decoding are not modelled. The clients start from decoded data. A We Work Remotely listing is reduced to its first anchor with an href and the texts of its title and company elements, if found. Whether an element counts as found is taken as given.
- The print and debug output of the clients and the GUIs is not modelled.
- Mdredactor's shell process is not modelled: starting it, writing commands to it, and its output. Whether it is running is a parameter of `ExecuteCommand`.
- Commander's and Mdredactor's file operations and directory listing are not modelled. They are `shutil` calls (Commander/main.py:287-302) and directory views.
- The refresh of the notes list after a change in the emotion cube (`on_selected_face_changed`) is not modelled. Neither is picking a face under the mouse: the hit face, the dialog answer and the list's current row are parameters.
- Python's `str()` of non-string JSON values is simplified:
  - no quote escaping in `repr`;
  - JSON floats are not a value kind.
- Text.Lower: Python's `lower()` also folds non-ASCII letters, Cyrillic among them; the model folds only A–Z, so a case-insensitive match of non-ASCII text (the RemoteOK query match, the extension filters) is not captured.
- Text.Strip: modelled over exactly the characters Python's `str.isspace` accepts, so nothing is lost there.
- EmotionCubeGui.EmotionCube.Click: when the clicked face's `notes` is not a list (a hand-edited `emotions.json` can load one), the `append` at emotion_cube/gui.py:263 raises outside any `try`. PyQt5 then aborts the application, so `closeEvent` never saves. The model keeps only the selection change and the notes as they were, and goes on.
- EmotionCubeGui.MainWindow.AddNoteFromPanel: likewise, the `append` at emotion_cube/gui.py:428 raises for a non-list `notes` and the real program aborts. The model leaves the notes and the note box as they were, and goes on.
- EmotionCubeGui.IntKey: `int()` also accepts underscores between digits and non-ASCII digits. The model rejects both.
- Duplicate keys in a decoded dict are assumed absent. `Lookup` takes the first occurrence.
- The hh.ru client and the HHParser, Myproject1 and tutorial-viewer programs are not part of this model.
