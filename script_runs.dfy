/** What each AppleScript of the catalog does when it runs, as a trace: the UI actions it
    performs (clicks, keystrokes, sends; opaque), the lines it logs, and how it ends. The state of
    the Messages window that a script reads is an input: the chat list, which window was in
    front, whether the details popover was already open, and the element lists of the transcript.
    Results are read from the log and from a raised error. The one returned value, the 0 that
    startMessages.scpt returns when Messages is already running, carries no information and is
    modelled as finishing with an empty log. */
module ScriptRuns {
  import opened Wrappers
  import opened UiScan
  import opened TextItems

  /** The UI side effects, as opaque actions. Row and item numbers are 0-based positions in the
      list the script scanned (newest first for transcript items). */
  datatype Action =
    | ReopenMessages                        // `tell application "Messages" to reopen`
    | SendFile(chat: string, file: string)  // `send theAttachment to targetChat`
    | SendText(chat: string, text: string)  // `send message to targetChat`
    | Pause(millis: nat)                    // `delay`, where the scripts require one
    | HideMessages                          // set the Messages process invisible
    | ActivateMessages                      // `reopen` and `activate` before typing into it
    | SelectChat(row: nat)                  // `select groupMatch`
    | ClickDetails                          // `click` on the "Details" button
    | SetGroupName(name: string)            // set text field 1 of the popover and `confirm`
    | EnterAddress(address: string)         // set text field 2, focus it, press Enter
    | PressDialogButton                     // press button 1 of the front window
    | PressEscape                           // key code 53
    | SelectParticipant(row: nat)           // `select contactRow`
    | PressDelete                           // key code 51
    | SelectMessage(item: nat)              // `select chatRow`
    | ShowMenu(item: nat)                   // "AXShowMenu" on the item before the message
    | PressDown                             // key code 125
    | PressReturn                           // `keystroke return`
    | PressReaction(control: nat, reaction: int) // press radio button `reaction` of the control

  /** How a script ends: it runs to its end or returns early, it raises an error with a message,
      or AppleScript fails to get an item of a list (1-based index). */
  datatype Outcome = Finished | Raised(message: string) | ItemMissing(index: nat)

  datatype Run = Run(actions: seq<Action>, log: seq<string>, outcome: Outcome)

  const SuccessLine := "success"
  const NotIMessageLine := "Error: Not an iMessage address"
  const NotParticipantLine := "Error: Address is not a participant"
  const RenameFailedPrefix := "execution error: Failed to rename group -> "

  /** The delay between sending the attachment and sending the text, in milliseconds. */
  const AttachmentPause := 500

  /** What the UI scripts read when they start: the name of the front window of the frontmost
      process (`None` when that query failed) and the chat list's `entire contents`. */
  datatype Screen = Screen(frontWindow: Option<string>, chatRows: seq<Element>)

  /** `isForeground`: the front window's name is equal to "Messages", case ignored. */
  predicate WasForeground(screen: Screen)
  {
    screen.frontWindow.Some? && SameText(screen.frontWindow.value, "Messages")
  }

  /** startMessages.scpt: reopen Messages only when it is not running. */
  method StartMessages(running: bool) returns (run: Run)
    ensures run.outcome == Finished && run.log == []
    ensures ReopenMessages in run.actions <==> !running
    ensures |run.actions| <= 1
  {
    if running {
      return Run([], [], Finished);
    }
    run := Run([ReopenMessages], [], Finished);
  }

  /** sendMessage.scpt with its argument list `argv`: nothing at all with fewer than two
      arguments; otherwise the attachment (third argument) first, then the pause, then the text
      when it is not empty, and Messages is hidden at the end whether or not it was in front. */
  method SendMessage(argv: seq<string>) returns (run: Run)
    ensures run.outcome == Finished && run.log == []
    ensures |argv| < 2 ==> run.actions == []
    ensures (exists k :: 0 <= k < |run.actions| && run.actions[k].SendFile?) <==> |argv| > 2
    ensures (exists k :: 0 <= k < |run.actions| && run.actions[k].SendText?) <==>
              |argv| >= 2 && argv[1] != ""
    ensures |argv| > 2 ==>
              |run.actions| >= 2 &&
              run.actions[0] == SendFile(argv[0], argv[2]) && run.actions[1] == Pause(AttachmentPause)
    ensures |argv| >= 2 && argv[1] != "" ==> SendText(argv[0], argv[1]) in run.actions
    ensures forall i, j :: 0 <= i < j < |run.actions| ==>
              !(run.actions[i].SendText? && run.actions[j].SendFile?)
    ensures |argv| >= 2 ==> |run.actions| > 0 && run.actions[|run.actions| - 1] == HideMessages
    // each send happens once: the whole trace
    ensures |argv| >= 2 ==>
              run.actions ==
                (if |argv| > 2 then [SendFile(argv[0], argv[2]), Pause(AttachmentPause)] else []) +
                (if argv[1] != "" then [SendText(argv[0], argv[1])] else []) +
                [HideMessages]
  {
    var actions: seq<Action> := [];
    if |argv| >= 2 {
      var chatGuid := argv[0];
      var message := argv[1];
      if |argv| > 2 {
        actions := actions + [SendFile(chatGuid, argv[2]), Pause(AttachmentPause)];
      }
      if message != "" {
        actions := actions + [SendText(chatGuid, message)];
      }
      actions := actions + [HideMessages];
      assert |argv| > 2 ==> actions[0].SendFile?;
      assert message != "" ==> actions[if |argv| > 2 then 2 else 0].SendText?;
    }
    run := Run(actions, [], Finished);
  }

  /** The common start of the scripts that type into Messages: Messages is brought to the front,
      the first chat row named `chatName` is selected, and the third action is a click on
      "Details" exactly when `clickDetails`. */
  ghost predicate OpensChat(actions: seq<Action>, rows: seq<Element>, chatName: string, clickDetails: bool)
  {
    |actions| >= 2 && actions[0] == ActivateMessages && actions[1].SelectChat? &&
    IsFirstChatMatch(rows, chatName, actions[1].row) &&
    (|actions| > 2 && actions[2] == ClickDetails <==> clickDetails)
  }

  /** The actions the shared opening consists of. */
  predicate IsOpeningAction(a: Action)
  {
    a == ActivateMessages || a.SelectChat? || a == ClickDetails
  }

  /** The opening the popover scripts share: find the first chat row named `chatName` (or raise
      "Group chat does not exist"), bring Messages to the front, select the row, and, when
      `clickDetails`, click "Details" to open the popover. */
  method OpenChat(rows: seq<Element>, chatName: string, clickDetails: bool)
    returns (r: Result<seq<Action>, string>)
    ensures r.Failure? <==> !ChatListed(rows, chatName)
    ensures r.Failure? ==> r.error == ChatMissing
    ensures r.Success? ==>
              OpensChat(r.value, rows, chatName, clickDetails) &&
              |r.value| == (if clickDetails then 3 else 2)
    ensures r.Success? ==> forall a :: a in r.value ==> IsOpeningAction(a)
  {
    var groupMatch := LocateChat(rows, chatName);
    if groupMatch.Failure? {
      return Failure(groupMatch.error);
    }
    var actions := [ActivateMessages, SelectChat(groupMatch.value)];
    if clickDetails {
      actions := actions + [ClickDetails];
    }
    r := Success(actions);
  }

  /** Actions appended after the opening keep it, unless they start with a click on "Details"
      the opening did not make. */
  lemma OpensChatExtended(
    opening: seq<Action>, rest: seq<Action>, rows: seq<Element>, chatName: string, clickDetails: bool)
    requires OpensChat(opening, rows, chatName, clickDetails)
    requires |opening| == (if clickDetails then 3 else 2)
    requires clickDetails || rest == [] || rest[0] != ClickDetails
    ensures OpensChat(opening + rest, rows, chatName, clickDetails)
  {
    if !clickDetails && rest != [] {
      assert (opening + rest)[2] == rest[0];
    }
  }

  /** An action that is not part of the opening is performed after it exactly when the rest of
      the script performs it. */
  lemma PerformedAfterOpening(opening: seq<Action>, rest: seq<Action>, a: Action)
    requires forall b :: b in opening ==> IsOpeningAction(b)
    requires !IsOpeningAction(a)
    ensures a in opening + rest <==> a in rest
  {
  }

  /** renameGroupChat.scpt. The error raised when the rename fails ends the script: the Escape
      written after it is never pressed and Messages is not hidden again. */
  method RenameGroupChat(
    screen: Screen, currentName: string, newName: string,
    popoverOpen: bool, renameError: Option<string>)
    returns (run: Run)
    ensures run.log == []
    ensures run.outcome == Raised(ChatMissing) <==> !ChatListed(screen.chatRows, currentName)
    ensures !ChatListed(screen.chatRows, currentName) ==> run.actions == []
    ensures ChatListed(screen.chatRows, currentName) ==>
              OpensChat(run.actions, screen.chatRows, currentName, !popoverOpen)
    ensures run.outcome == Finished <==> ChatListed(screen.chatRows, currentName) && renameError.None?
    ensures ChatListed(screen.chatRows, currentName) && renameError.Some? ==>
              run.outcome == Raised(RenameFailedPrefix + renameError.value) &&
              PressEscape !in run.actions
    ensures SetGroupName(newName) in run.actions <==> run.outcome == Finished
    ensures HideMessages in run.actions <==> run.outcome == Finished && !WasForeground(screen)
    // after the opening: nothing when the rename failed; otherwise set the name, click Details
    // to close the popover, and hide Messages when it was not in front
    ensures ChatListed(screen.chatRows, currentName) && renameError.Some? ==>
              |run.actions| == (if popoverOpen then 2 else 3)
    ensures ChatListed(screen.chatRows, currentName) && renameError.None? ==>
              var j := if popoverOpen then 2 else 3;
              |run.actions| >= j &&
              run.actions[j..] ==
                [SetGroupName(newName), ClickDetails] + (if WasForeground(screen) then [] else [HideMessages])
  {
    var isForeground := WasForeground(screen);
    var opening := OpenChat(screen.chatRows, currentName, !popoverOpen);
    if opening.Failure? {
      return Run([], [], Raised(opening.error));
    }
    if renameError.Some? {
      // the error is raised inside the tell block, after the popover was reached
      assert RenameFailedPrefix[0] != ChatMissing[0];
      assert !IsOpeningAction(PressEscape) && !IsOpeningAction(SetGroupName(newName));
      assert !IsOpeningAction(HideMessages);
      return Run(opening.value, [], Raised(RenameFailedPrefix + renameError.value));
    }
    var rest := RenameInPopover(newName, isForeground);
    OpensChatExtended(opening.value, rest, screen.chatRows, currentName, !popoverOpen);
    PerformedAfterOpening(opening.value, rest, SetGroupName(newName));
    PerformedAfterOpening(opening.value, rest, HideMessages);
    run := Run(opening.value + rest, [], Finished);
    assert run.actions[|opening.value|..] == rest;
  }

  /** What renameGroupChat.scpt does once the popover is open and the name was set without
      error: set the name, click "Details" to close the popover, and hide Messages when it was
      not in front. */
  method RenameInPopover(newName: string, isForeground: bool) returns (rest: seq<Action>)
    ensures rest == [SetGroupName(newName), ClickDetails] + (if isForeground then [] else [HideMessages])
    ensures rest[0] != ClickDetails
    ensures SetGroupName(newName) in rest
    ensures HideMessages in rest <==> !isForeground
  {
    rest := [SetGroupName(newName), ClickDetails];
    if !isForeground {
      rest := rest + [HideMessages];
    }
  }

  /** What happens in addParticipant.scpt after the chat is selected: the number of windows
      counted after Enter was pressed on the address, or the error an earlier step raised. */
  datatype EnterOutcome = WindowsAfterEnter(count: nat) | DetailsFailed(message: string)

  /** The dismissal loop of addParticipant: press button 1 of the front window `count` times. */
  method DismissWindows(actions: seq<Action>, count: nat) returns (pressed: seq<Action>)
    ensures |pressed| == |actions| + count
    ensures forall k :: 0 <= k < |actions| ==> pressed[k] == actions[k]
    ensures forall k :: |actions| <= k < |pressed| ==> pressed[k] == PressDialogButton
  {
    pressed := actions;
    var n := 0;
    while n < count
      invariant 0 <= n <= count
      invariant |pressed| == |actions| + n
      invariant forall k :: 0 <= k < |actions| ==> pressed[k] == actions[k]
      invariant forall k :: |actions| <= k < |pressed| ==> pressed[k] == PressDialogButton
    {
      pressed := pressed + [PressDialogButton];
      n := n + 1;
    }
  }

  /** The part of addParticipant after the chat is selected: enter the address and press Enter;
      with extra windows, dismiss them, log "Error: Not an iMessage address" and return; otherwise
      press Escape, log "success" and hide Messages when it was not in front. An error on the way
      is logged and the script returns. */
  method AddInPopover(participant: string, entered: EnterOutcome, isForeground: bool)
    returns (rest: seq<Action>, log: seq<string>)
    ensures entered.DetailsFailed? ==> rest == [] && log == [entered.message]
    ensures entered.WindowsAfterEnter? && entered.count <= 1 ==>
              log == [SuccessLine] &&
              rest == [EnterAddress(participant), PressEscape] + (if isForeground then [] else [HideMessages])
    ensures entered.WindowsAfterEnter? && entered.count > 1 ==>
              log == [NotIMessageLine] && |rest| == entered.count &&
              rest[0] == EnterAddress(participant) &&
              forall k :: 0 < k < |rest| ==> rest[k] == PressDialogButton
    ensures rest == [] || rest[0] != ClickDetails
    ensures forall a :: a in rest ==> !IsOpeningAction(a)
    ensures HideMessages in rest <==> entered.WindowsAfterEnter? && entered.count <= 1 && !isForeground
  {
    match entered
    case DetailsFailed(message) =>
      return [], [message];
    case WindowsAfterEnter(totalWindows) =>
      if totalWindows > 1 {
        rest := DismissWindows([EnterAddress(participant)], totalWindows - 1);
        assert rest[0] == EnterAddress(participant);
        assert forall k :: 0 <= k < |rest| ==> rest[k] != HideMessages && !IsOpeningAction(rest[k]);
        return rest, [NotIMessageLine];
      }
      rest := [EnterAddress(participant), PressEscape];
      if !isForeground {
        rest := rest + [HideMessages];
      }
      log := [SuccessLine];
  }

  /** addParticipant.scpt. "success" is logged only when no extra window appeared after Enter;
      extra windows are dismissed, "Error: Not an iMessage address" is logged and the script
      returns; an error is logged and the script returns. Both early returns skip hiding. */
  method AddParticipant(
    screen: Screen, currentName: string, participant: string,
    popoverOpen: bool, entered: EnterOutcome)
    returns (run: Run)
    ensures run.outcome == Raised(ChatMissing) <==> !ChatListed(screen.chatRows, currentName)
    ensures run.outcome != Raised(ChatMissing) ==> run.outcome == Finished
    ensures !ChatListed(screen.chatRows, currentName) ==> run.actions == [] && run.log == []
    ensures ChatListed(screen.chatRows, currentName) ==>
              OpensChat(run.actions, screen.chatRows, currentName, !popoverOpen)
    ensures ChatListed(screen.chatRows, currentName) && entered.WindowsAfterEnter? ==>
              (run.log == [SuccessLine] <==> entered.count <= 1) &&
              (entered.count > 1 ==> run.log == [NotIMessageLine])
    ensures ChatListed(screen.chatRows, currentName) && entered.DetailsFailed? ==>
              run.log == [entered.message]
    ensures HideMessages in run.actions <==>
              ChatListed(screen.chatRows, currentName) && entered.WindowsAfterEnter? &&
              entered.count <= 1 && !WasForeground(screen)
    ensures ChatListed(screen.chatRows, currentName) && entered.DetailsFailed? ==>
              |run.actions| == (if popoverOpen then 2 else 3)
    ensures ChatListed(screen.chatRows, currentName) && entered.WindowsAfterEnter? &&
            entered.count <= 1 ==>
              var j := if popoverOpen then 2 else 3;
              |run.actions| >= j &&
              run.actions[j..] ==
                [EnterAddress(participant), PressEscape] + (if WasForeground(screen) then [] else [HideMessages])
    ensures ChatListed(screen.chatRows, currentName) && entered.WindowsAfterEnter? &&
            entered.count > 1 ==>
              |run.actions| == (if popoverOpen then 2 else 3) + entered.count &&
              run.actions[|run.actions| - entered.count] == EnterAddress(participant) &&
              forall k :: |run.actions| - entered.count < k < |run.actions| ==>
                run.actions[k] == PressDialogButton
  {
    var isForeground := WasForeground(screen);
    var opening := OpenChat(screen.chatRows, currentName, !popoverOpen);
    if opening.Failure? {
      return Run([], [], Raised(opening.error));
    }
    var rest, log := AddInPopover(participant, entered, isForeground);
    OpensChatExtended(opening.value, rest, screen.chatRows, currentName, !popoverOpen);
    PerformedAfterOpening(opening.value, rest, HideMessages);
    run := Run(opening.value + rest, log, Finished);
    assert run.actions[|opening.value|..] == rest;
  }


  /** Some row of the popover's participant table is named `address`. */
  ghost predicate ParticipantListed(rows: seq<Element>, address: string)
  {
    exists k :: 0 <= k < |rows| && IsParticipantMatch(rows[k], address)
  }

  /** What removeParticipant.scpt finds in the details popover: the participant table's
      `entire contents`, or the error raised while opening or reading it. */
  datatype ParticipantList = Listed(rows: seq<Element>) | ListFailed(message: string)

  /** Row `j` is the first participant row named `address`. */
  ghost predicate IsFirstParticipantMatch(rows: seq<Element>, address: string, j: nat)
  {
    j < |rows| && IsParticipantMatch(rows[j], address) &&
    forall k :: 0 <= k < j ==> !IsParticipantMatch(rows[k], address)
  }

  /** The part of removeParticipant inside the opened popover: select the first participant row
      named `address`, delete it and close the popover; or log that the address is not a
      participant and return; or log the error raised on the way. "success" is logged and
      Messages hidden (when it was not in front) unless the script returned early. */
  method RemoveFromPopover(participants: ParticipantList, address: string, isForeground: bool)
    returns (rest: seq<Action>, log: seq<string>, returned: bool)
    ensures returned <==> participants.Listed? && !ParticipantListed(participants.rows, address)
    ensures returned ==> rest == [PressEscape] && log == [NotParticipantLine]
    ensures participants.ListFailed? ==>
              log == [participants.message, SuccessLine] &&
              rest == (if isForeground then [] else [HideMessages])
    ensures participants.Listed? && ParticipantListed(participants.rows, address) ==>
              log == [SuccessLine] && |rest| >= 3 && rest[0].SelectParticipant? &&
              IsFirstParticipantMatch(participants.rows, address, rest[0].row) &&
              rest[1] == PressDelete && rest[2] == PressEscape &&
              rest[3..] == (if isForeground then [] else [HideMessages])
    ensures rest == [] || rest[0] != ClickDetails
    ensures forall a :: a in rest ==> !IsOpeningAction(a)
    ensures PressDelete in rest <==> participants.Listed? && ParticipantListed(participants.rows, address)
    ensures HideMessages in rest <==> !returned && !isForeground
  {
    rest, log, returned := [], [], false;
    match participants {
      case ListFailed(errorMessage) =>
        log := log + [errorMessage];
      case Listed(rows) =>
        var contactRow := LocateParticipant(rows, address);
        if contactRow.None? {
          return [PressEscape], [NotParticipantLine], true;
        }
        rest := [SelectParticipant(contactRow.value), PressDelete, PressEscape];
    }
    log := log + [SuccessLine];
    if !isForeground {
      rest := rest + [HideMessages];
    }
  }

  /** removeParticipant.scpt. An address that is not a participant logs
      "Error: Address is not a participant" and returns before "success" and before hiding; an
      error inside the block is logged and "success" is still logged after it. */
  method RemoveParticipant(
    screen: Screen, currentName: string, address: string,
    popoverOpen: bool, participants: ParticipantList)
    returns (run: Run)
    ensures run.outcome == Raised(ChatMissing) <==> !ChatListed(screen.chatRows, currentName)
    ensures run.outcome != Raised(ChatMissing) ==> run.outcome == Finished
    ensures !ChatListed(screen.chatRows, currentName) ==> run.actions == [] && run.log == []
    ensures ChatListed(screen.chatRows, currentName) ==>
              OpensChat(run.actions, screen.chatRows, currentName, !popoverOpen)
    ensures ChatListed(screen.chatRows, currentName) && participants.Listed? &&
            !ParticipantListed(participants.rows, address) ==>
              var j := if popoverOpen then 2 else 3;
              run.log == [NotParticipantLine] && |run.actions| == j + 1 && run.actions[j] == PressEscape
    ensures ChatListed(screen.chatRows, currentName) && participants.Listed? &&
            ParticipantListed(participants.rows, address) ==>
              var j := if popoverOpen then 2 else 3;
              run.log == [SuccessLine] && |run.actions| > j + 2 && run.actions[j].SelectParticipant? &&
              IsFirstParticipantMatch(participants.rows, address, run.actions[j].row) &&
              run.actions[j + 1] == PressDelete && run.actions[j + 2] == PressEscape &&
              run.actions[j + 3..] == (if WasForeground(screen) then [] else [HideMessages])
    ensures ChatListed(screen.chatRows, currentName) && participants.ListFailed? ==>
              var j := if popoverOpen then 2 else 3;
              run.log == [participants.message, SuccessLine] && |run.actions| >= j &&
              run.actions[j..] == (if WasForeground(screen) then [] else [HideMessages])
    ensures PressDelete in run.actions <==>
              ChatListed(screen.chatRows, currentName) && participants.Listed? &&
              ParticipantListed(participants.rows, address)
    ensures HideMessages in run.actions <==>
              ChatListed(screen.chatRows, currentName) &&
              !(participants.Listed? && !ParticipantListed(participants.rows, address)) &&
              !WasForeground(screen)
  {
    var isForeground := WasForeground(screen);
    var opening := OpenChat(screen.chatRows, currentName, !popoverOpen);
    if opening.Failure? {
      return Run([], [], Raised(opening.error));
    }
    var rest, log, _ := RemoveFromPopover(participants, address, isForeground);
    OpensChatExtended(opening.value, rest, screen.chatRows, currentName, !popoverOpen);
    PerformedAfterOpening(opening.value, rest, PressDelete);
    PerformedAfterOpening(opening.value, rest, HideMessages);
    run := Run(opening.value + rest, log, Finished);
    assert run.actions[|opening.value|..] == rest;
  }

  /** Item `n` of the newest-first transcript is the first one toggleTapback matches. */
  ghost predicate IsFirstTapbackMatch(items: seq<Element>, messageText: string, n: nat)
  {
    IsTapbackMatch(items, n, messageText) &&
    forall k :: 0 <= k < n ==> !IsTapbackMatch(items, k, messageText)
  }

  /** There is at most one first match. */
  lemma FirstTapbackMatchUnique(items: seq<Element>, messageText: string, m: nat, n: nat)
    requires IsFirstTapbackMatch(items, messageText, m)
    requires IsFirstTapbackMatch(items, messageText, n)
    ensures m == n
  {
  }

  /** Select the message at newest-first position `n`, open the menu of the item before it and
      choose the tap-back entry. */
  function MessageMenuActions(n: nat): (actions: seq<Action>)
    requires n >= 1
    ensures |actions| == 4 && actions[0] == SelectMessage(n) && actions[1] == ShowMenu(n - 1)
  {
    [SelectMessage(n), ShowMenu(n - 1), PressDown, PressReturn]
  }

  /** The reaction press on the tap-back control, when the control could be found. */
  function ReactionActions(newRows: seq<Element>, n: nat, reactionIndex: int): (actions: seq<Action>)
    requires n >= 1
    ensures TapbackControl(newRows, n).Failure? ==> actions == []
    ensures TapbackControl(newRows, n).Success? ==>
              actions == [PressReaction(TapbackControl(newRows, n).value, reactionIndex), PressReturn]
  {
    var control := TapbackControl(newRows, n);
    if control.Failure? then [] else [PressReaction(control.value, reactionIndex), PressReturn]
  }

  /** How the script ends after the menu: the missing item when the control could not be got. */
  function ReactionOutcome(newRows: seq<Element>, n: nat): (outcome: Outcome)
    requires n >= 1
    ensures outcome == Finished <==> TapbackControl(newRows, n).Success?
    ensures outcome != Finished ==> outcome == ItemMissing(n + 2)
  {
    var control := TapbackControl(newRows, n);
    if control.Failure? then ItemMissing(control.error) else Finished
  }

  /** The part of toggleTapback after the message at newest-first position `n` was found: select
      it, open the menu of the item before it, choose the tap-back entry, then press the reaction
      on the control found in the re-fetched transcript. */
  method ReactToMessage(n: nat, refetched: seq<Element>, reactionIndex: int)
    returns (rest: seq<Action>, outcome: Outcome)
    requires n >= 1
    ensures rest == MessageMenuActions(n) + ReactionActions(NewestFirst(refetched), n, reactionIndex)
    ensures outcome == ReactionOutcome(NewestFirst(refetched), n)
  {
    rest := [SelectMessage(n), ShowMenu(n - 1), PressDown, PressReturn];
    var newRows := NewestFirst(refetched);
    var tapBack := TapbackControl(newRows, n);
    if tapBack.Failure? {
      return rest, ItemMissing(tapBack.error);
    }
    rest := rest + [PressReaction(tapBack.value, reactionIndex), PressReturn];
    outcome := Finished;
  }

  /** toggleTapback.scpt. `contents` is the transcript before the menu opens, `refetched` the
      transcript read again after it opened, both in document order. With no matching message
      the script ends silently; Messages is never hidden again. */
  method ToggleTapback(
    screen: Screen, realChatName: string, messageText: string, reactionIndex: int,
    contents: seq<Element>, refetched: seq<Element>)
    returns (run: Run)
    ensures run.outcome == Raised(ChatMissing) <==> !ChatListed(screen.chatRows, realChatName)
    ensures !ChatListed(screen.chatRows, realChatName) ==> run.actions == [] && run.log == []
    ensures ChatListed(screen.chatRows, realChatName) ==>
              OpensChat(run.actions, screen.chatRows, realChatName, false)
    ensures HideMessages !in run.actions
    ensures ChatListed(screen.chatRows, realChatName) &&
            (forall k :: 0 <= k < |contents| ==> !IsTapbackMatch(NewestFirst(contents), k, messageText)) ==>
              run.outcome == Finished && |run.actions| == 2 &&
              run.log == CandidateValues(NewestFirst(contents), |contents|)
    ensures forall n: nat ::
              ChatListed(screen.chatRows, realChatName) &&
              IsFirstTapbackMatch(NewestFirst(contents), messageText, n) ==>
              run.log == CandidateValues(NewestFirst(contents), n + 1) &&
              |run.actions| >= 2 &&
              run.actions[2..] == MessageMenuActions(n) + ReactionActions(NewestFirst(refetched), n, reactionIndex) &&
              run.outcome == ReactionOutcome(NewestFirst(refetched), n)
  {
    var opening := OpenChat(screen.chatRows, realChatName, false);
    if opening.Failure? {
      return Run([], [], Raised(opening.error));
    }
    var chatItems := NewestFirst(contents);
    var target, logged := FindTapbackMessage(chatItems, messageText);
    if target.None? {
      return Run(opening.value, logged, Finished);
    }
    var n := target.value;
    forall m: nat | IsFirstTapbackMatch(chatItems, messageText, m)
      ensures m == n
    {
      FirstTapbackMatchUnique(chatItems, messageText, m, n);
    }
    var rest, outcome := ReactToMessage(n, refetched, reactionIndex);
    OpensChatExtended(opening.value, rest, screen.chatRows, realChatName, false);
    assert (opening.value + rest)[2..] == rest;
    assert HideMessages !in opening.value && HideMessages !in rest;
    run := Run(opening.value + rest, logged, outcome);
  }

  /** checkTypingIndicator.scpt: logs "true" exactly when the 7th newest transcript item is an
      image, "false" otherwise; with fewer than seven items getting item 7 fails. It selects the
      chat without bringing Messages to the front and never hides it. */
  method CheckTypingIndicator(screen: Screen, realChatName: string, contents: seq<Element>)
    returns (run: Run)
    ensures run.outcome == Raised(ChatMissing) <==> !ChatListed(screen.chatRows, realChatName)
    ensures ActivateMessages !in run.actions && HideMessages !in run.actions
    ensures !ChatListed(screen.chatRows, realChatName) ==> run.actions == [] && run.log == []
    // the only action is selecting the first chat row named `realChatName`
    ensures ChatListed(screen.chatRows, realChatName) ==>
              |run.actions| == 1 && run.actions[0].SelectChat? &&
              IsFirstChatMatch(screen.chatRows, realChatName, run.actions[0].row)
    ensures ChatListed(screen.chatRows, realChatName) && |contents| >= 7 ==> run.outcome == Finished
    ensures ChatListed(screen.chatRows, realChatName) && |contents| < 7 ==>
              run.outcome == ItemMissing(7) && run.log == []
    ensures run.log == ["true"] <==>
              ChatListed(screen.chatRows, realChatName) && |contents| >= 7 &&
              contents[|contents| - 7].cls == Image
    ensures run.log == ["false"] <==>
              ChatListed(screen.chatRows, realChatName) && |contents| >= 7 &&
              contents[|contents| - 7].cls != Image
  {
    var isTyping := false;
    var groupMatch := LocateChat(screen.chatRows, realChatName);
    if groupMatch.Failure? {
      return Run([], [], Raised(groupMatch.error));
    }
    var actions := [SelectChat(groupMatch.value)];
    var chatItems := NewestFirst(contents);
    if |chatItems| < 7 {
      return Run(actions, [], ItemMissing(7));
    }
    var typingEl := chatItems[6];
    if typingEl.cls == Image {
      isTyping := true;
    }
    run := Run(actions, [if isTyping then "true" else "false"], Finished);
  }
}
