/** The client's record of the commands sent to its equipment connections (for example a
    phone used as an extra webcam). Every incoming command is put at the head of a bounded
    history under a fresh number; a command's completion marks its entry executed, with the
    error it failed with; a failed initialisation of the equipment is remembered. */
module EquipmentReducer {
  import opened Common

  /** The most previous entries kept when a command arrives. */
  const MaxHistoryLength: nat := 128

  datatype DomainError = DomainError(code: string, message: string)

  /** A command for the equipment, as the hub delivers it. */
  datatype EquipmentCommand = EquipmentCommand(connectionId: string, source: string, deviceId: Option<string>,
                                               action: string)

  /** One history entry; a new entry is not executed and has no error. */
  datatype CommandResult = CommandResult(command: EquipmentCommand, id: nat, executed: bool, error: Option<DomainError>)

  /** The history after a command arrives: the new entry first, then at most
      MaxHistoryLength previous entries, newest first. */
  function Pushed(history: seq<CommandResult>, command: EquipmentCommand, id: nat): seq<CommandResult>
  {
    [CommandResult(command, id, false, None)]
    + (if |history| <= MaxHistoryLength then history else history[..MaxHistoryLength])
  }

  /** The history after the command with number `id` completed: matching entries are executed
      with the given error, all others stay as they were. */
  function MarkExecuted(history: seq<CommandResult>, id: nat, error: Option<DomainError>): seq<CommandResult>
  {
    seq(|history|, i requires 0 <= i < |history| =>
      if history[i].id == id then history[i].(executed := true, error := error) else history[i])
  }

  /** The numbers in a history strictly decrease from the head and are below `next`, so no
      two entries share one. */
  predicate NumberedBelow(history: seq<CommandResult>, next: nat)
  {
    && (forall i :: 0 <= i < |history| ==> history[i].id < next)
    && (forall i, j :: 0 <= i < j < |history| ==> history[j].id < history[i].id)
  }

  /** A new command is at the head under the current counter and the counter moves on, so the
      numbering stays strictly decreasing and unique; at most MaxHistoryLength previous
      entries are kept, newest first in their old order, so the history has at most
      MaxHistoryLength + 1 entries. */
  lemma PushKeepsNumbering(history: seq<CommandResult>, command: EquipmentCommand, next: nat)
    requires NumberedBelow(history, next)
    ensures var after := Pushed(history, command, next);
      && NumberedBelow(after, next + 1)
      && after[0] == CommandResult(command, next, false, None)
      && |after| <= MaxHistoryLength + 1
      && after[1..] == history[..|after| - 1]
      && (|history| <= MaxHistoryLength ==> after[1..] == history)
  {
  }

  /** Once the history holds MaxHistoryLength entries or more, a new command leaves it at
      MaxHistoryLength + 1 entries: the new one and the newest MaxHistoryLength previous ones;
      older entries are dropped. */
  lemma LongHistoryKeepsNewest(history: seq<CommandResult>, command: EquipmentCommand, id: nat)
    requires |history| >= MaxHistoryLength
    ensures |Pushed(history, command, id)| == MaxHistoryLength + 1
    ensures Pushed(history, command, id)[1..] == history[..MaxHistoryLength]
  {
  }

  /** Completing a command changes exactly the entries with its number, each to executed with
      the given error, and nothing else: the length, the order, the commands and the numbers
      stay, so the numbering invariant is kept. */
  lemma MarkExecutedChangesOnlyMatching(history: seq<CommandResult>, id: nat, error: Option<DomainError>, next: nat)
    ensures var after := MarkExecuted(history, id, error);
      && |after| == |history|
      && (forall i :: 0 <= i < |history| ==>
            && after[i].command == history[i].command
            && after[i].id == history[i].id
            && (history[i].id == id ==> after[i].executed && after[i].error == error)
            && (history[i].id != id ==> after[i] == history[i]))
      && (NumberedBelow(history, next) ==> NumberedBelow(after, next))
  {
  }

  /** Completing the same command twice with the same error is the same as completing it
      once, and completing a number not in the history changes nothing. */
  lemma MarkExecutedIdempotent(history: seq<CommandResult>, id: nat, error: Option<DomainError>)
    ensures MarkExecuted(MarkExecuted(history, id, error), id, error) == MarkExecuted(history, id, error)
    ensures (forall i :: 0 <= i < |history| ==> history[i].id != id) ==> MarkExecuted(history, id, error) == history
  {
  }

  /** The equipment slice of the client store; `nextId` is the counter that numbers the
      commands. */
  class EquipmentState {
    var commandHistory: seq<CommandResult>
    var initializeError: Option<DomainError>
    var nextId: nat

    predicate Valid()
      reads this
    {
      NumberedBelow(commandHistory, nextId) && |commandHistory| <= MaxHistoryLength + 1
    }

    constructor ()
      ensures commandHistory == [] && initializeError == None && nextId == 0
      ensures Valid()
    {
      commandHistory := [];
      initializeError := None;
      nextId := 0;
    }

    /** A command completed, with or without an error. */
    method CommandExecuted(id: nat, error: Option<DomainError>)
      requires Valid()
      modifies this
      ensures Valid()
      ensures commandHistory == MarkExecuted(old(commandHistory), id, error)
      ensures initializeError == old(initializeError) && nextId == old(nextId)
    {
      MarkExecutedChangesOnlyMatching(commandHistory, id, error, nextId);
      commandHistory := MarkExecuted(commandHistory, id, error);
    }

    /** A command arrived from the equipment hub. */
    method OnEquipmentCommand(command: EquipmentCommand)
      requires Valid()
      modifies this
      ensures Valid()
      ensures commandHistory == Pushed(old(commandHistory), command, old(nextId))
      ensures nextId == old(nextId) + 1 && initializeError == old(initializeError)
    {
      PushKeepsNumbering(commandHistory, command, nextId);
      commandHistory := Pushed(commandHistory, command, nextId);
      nextId := nextId + 1;
    }

    /** The equipment initialisation answered: a failure stores its error, a success leaves
        any earlier error in place. */
    method Initialize(success: bool, error: Option<DomainError>)
      modifies this
      ensures initializeError == (if success then old(initializeError) else error)
      ensures commandHistory == old(commandHistory) && nextId == old(nextId)
    {
      if !success {
        initializeError := error;
      }
    }
  }

  /** Two commands arrive and the first completes with an error: the newest is at the head,
      the first is executed with its error and the second is still pending. */
  method TwoCommandsScenario(first: EquipmentCommand, second: EquipmentCommand, failure: DomainError)
  {
    var state := new EquipmentState();
    state.OnEquipmentCommand(first);
    state.OnEquipmentCommand(second);
    state.CommandExecuted(0, Some(failure));
    assert state.commandHistory == [CommandResult(second, 1, false, None), CommandResult(first, 0, true, Some(failure))];
    state.Initialize(false, Some(failure));
    state.Initialize(true, None);
    assert state.initializeError == Some(failure);
  }
}
