/**
 * The Markdown editor's file-manager window: the same extension filter as
 * PyCommander, plus the embedded terminal's command history, which Enter
 * appends to and the Up and Down keys walk through.  The shell process is
 * outside: whether it is running arrives as a parameter, and what is written
 * to it or shown in the terminal pane is not modelled.
 */
module Mdredactor {
  import opened Wrappers
  import opened Text
  import opened ExtFilter

  /** The keys the command line's event filter distinguishes. */
  datatype Key = Up | Down | OtherKey

  /** Where Up moves the history index: one entry back, never before the first. */
  function UpIndex(index: int): (r: int)
    ensures r >= 0
    ensures r <= index || r == 0
    ensures index > 0 ==> r == index - 1
  {
    Max(0, index - 1)
  }

  /** Where Down moves the history index in a history of `n` entries: one forward, never past the newest. */
  function DownIndex(n: nat, index: int): (r: int)
    requires n > 0
    ensures r <= n - 1
    ensures index < n - 1 ==> r == index + 1
  {
    Min(n - 1, index + 1)
  }

  /** From any index the window can hold, both keys land on an entry of the history. */
  lemma ArrowsStayInHistory(n: nat, index: int)
    requires n > 0 && 0 <= index <= n
    ensures 0 <= UpIndex(index) < n
    ensures 0 <= DownIndex(n, index) < n
  {
  }

  /** Right after a command is recorded, Up recalls that command. */
  lemma UpRecallsNewest(n: nat)
    requires n > 0
    ensures UpIndex(n) == n - 1
  {
  }

  /** Down from the newest entry stays there, so the branch that would clear the line is dead. */
  lemma DownNeverClears(n: nat, index: int)
    requires n > 0 && 0 <= index <= n
    ensures DownIndex(n, index) < n
    ensures index >= n - 1 ==> DownIndex(n, index) == n - 1
  {
  }

  class FileManager {
    var filterExt: string
    var filterInput: string
    /** `cmd_history`: the commands sent to the shell, oldest first. */
    var cmdHistory: seq<string>
    /** `cmd_history_index`: the history position the arrow keys are at. */
    var cmdHistoryIndex: int
    /** The text of the command line. */
    var commandInput: string

    ghost predicate Valid()
      reads this
    {
      && IsExtFilter(filterExt)
      && (cmdHistory == [] ==> cmdHistoryIndex == -1)
      && (cmdHistory != [] ==> 0 <= cmdHistoryIndex <= |cmdHistory|)
      && forall k :: 0 <= k < |cmdHistory| ==> cmdHistory[k] != [] && IsStripped(cmdHistory[k])
    }

    constructor ()
      ensures Valid()
      ensures filterExt == "" && filterInput == "" && commandInput == ""
      ensures cmdHistory == [] && cmdHistoryIndex == -1
    {
      filterExt := "";
      filterInput := "";
      cmdHistory := [];
      cmdHistoryIndex := -1;
      commandInput := "";
    }

    /** `apply_filter`: the rule shared with PyCommander. */
    method ApplyFilter()
      requires Valid()
      modifies this`filterExt
      ensures Valid()
      ensures filterExt == NormalizeExt(filterInput)
      ensures filterExt == "" <==> IsBlank(filterInput)
    {
      filterExt := NormalizeExt(filterInput);
    }

    /** `clear_filter`. */
    method ClearFilter()
      requires Valid()
      modifies this`filterExt, this`filterInput
      ensures Valid()
      ensures filterExt == "" && filterInput == ""
    {
      filterInput := "";
      filterExt := "";
    }

    /**
     * `execute_command`.  A blank command line, or any command while the shell
     * is not running, changes nothing.  Otherwise the stripped command is
     * recorded, the index moves one past the newest entry and the line is cleared.
     */
    method ExecuteCommand(shellRunning: bool)
      requires Valid()
      modifies this`cmdHistory, this`cmdHistoryIndex, this`commandInput
      ensures Valid()
      ensures IsBlank(old(commandInput)) || !shellRunning ==>
        cmdHistory == old(cmdHistory) && cmdHistoryIndex == old(cmdHistoryIndex) && commandInput == old(commandInput)
      ensures !IsBlank(old(commandInput)) && shellRunning ==>
        && cmdHistory == old(cmdHistory) + [Strip(old(commandInput))]
        && cmdHistoryIndex == |cmdHistory|
        && commandInput == ""
    {
      var cmd := Strip(commandInput);
      if cmd == [] {
        return;
      }
      if !shellRunning {
        return;
      }
      cmdHistory := cmdHistory + [cmd];
      cmdHistoryIndex := |cmdHistory|;
      commandInput := "";
    }

    /**
     * `eventFilter` for a key press on the command line.  With a history, Up
     * moves the index one entry back and Down one entry forward, both clamped to
     * the history, and the line shows the entry there; the key is then consumed.
     * Any other key, or an empty history, is passed on with nothing changed.
     */
    method KeyPress(key: Key) returns (handled: bool)
      requires Valid()
      modifies this`cmdHistoryIndex, this`commandInput
      ensures Valid()
      ensures handled <==> key != OtherKey && cmdHistory != []
      ensures !handled ==> cmdHistoryIndex == old(cmdHistoryIndex) && commandInput == old(commandInput)
      ensures handled ==> 0 <= cmdHistoryIndex < |cmdHistory| && commandInput == cmdHistory[cmdHistoryIndex]
      ensures handled && key == Up ==> cmdHistoryIndex == UpIndex(old(cmdHistoryIndex))
      ensures handled && key == Down ==> cmdHistoryIndex == DownIndex(|cmdHistory|, old(cmdHistoryIndex))
    {
      handled := false;
      if key == Up {
        if cmdHistory != [] {
          cmdHistoryIndex := UpIndex(cmdHistoryIndex);
          commandInput := cmdHistory[cmdHistoryIndex];
          handled := true;
        }
      } else if key == Down {
        if cmdHistory != [] {
          cmdHistoryIndex := DownIndex(|cmdHistory|, cmdHistoryIndex);
          if cmdHistoryIndex >= |cmdHistory| {
            // The index was just clamped to the newest entry: the line is never cleared here.
            assert false;
          } else {
            commandInput := cmdHistory[cmdHistoryIndex];
          }
          handled := true;
        }
      }
    }
  }
}
