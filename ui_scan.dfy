/** The list-scanning rules the UI scripts of scripts.ts run over the accessibility tree of the
    Messages window. An element list is what `entire contents … as list` returns, in document
    order; the scripts that look at messages reverse it so that the newest item comes first. */
module UiScan {
  import opened Wrappers
  import opened TextItems

  /** The AppleScript class of an element, as far as the scripts test it. */
  datatype ElementClass = Row | StaticText | Group | RadioGroup | Image | OtherClass

  /** One element: its class, the description and the name of its first child
      (`UI element 1`), and its own value. */
  datatype Element = Element(
    cls: ElementClass,
    childDescription: string,
    childName: string,
    value: string)

  /** The error the chat-row lookup raises when no row matches. */
  const ChatMissing := "Group chat does not exist"

  /** A chat row whose name (the first text item of its description) is equal to `chatName`,
      case ignored. */
  predicate IsChatMatch(e: Element, chatName: string)
  {
    e.cls == Row && SameText(ChatName(e.childDescription), chatName)
  }

  /** Some row of the chat list is named `chatName`. */
  ghost predicate ChatListed(rows: seq<Element>, chatName: string)
  {
    exists k :: 0 <= k < |rows| && IsChatMatch(rows[k], chatName)
  }

  /** Row `i` is the first row named `chatName`. */
  ghost predicate IsFirstChatMatch(rows: seq<Element>, chatName: string, i: nat)
  {
    i < |rows| && IsChatMatch(rows[i], chatName) &&
    forall k :: 0 <= k < i ==> !IsChatMatch(rows[k], chatName)
  }

  /** The chat-row loop shared by every UI script: skip what is not a row, compare the text
      before the first ". " of the row's description with the requested name, stop at the first
      match, and raise "Group chat does not exist" when there is none. */
  method LocateChat(rows: seq<Element>, chatName: string) returns (r: Result<nat, string>)
    ensures r.Success? ==> IsFirstChatMatch(rows, chatName, r.value)
    ensures r.Failure? ==> r.error == ChatMissing && !ChatListed(rows, chatName)
  {
    var groupMatch: Option<nat> := None;
    var i := 0;
    while i < |rows|
      invariant 0 <= i <= |rows|
      invariant groupMatch.None?
      invariant forall k :: 0 <= k < i ==> !IsChatMatch(rows[k], chatName)
    {
      var chatRow := rows[i];
      if chatRow.cls == Row {
        var name := ChatName(chatRow.childDescription);
        if SameText(name, chatName) {
          groupMatch := Some(i);
          break;
        }
      }
      i := i + 1;
    }
    if groupMatch.None? {
      return Failure(ChatMissing);
    }
    r := Success(groupMatch.value);
  }

  /** The lookup ignores case: a first row described as `name. rest` is found by any target
      equal to `name` with case ignored (asking for "family" finds "Family. 3 people"). */
  lemma {:induction false} ChatLookupIgnoresCase(
    rows: seq<Element>, name: string, rest: string, target: string)
    requires !Contains(name, NameDelimiter)
    requires SameText(name, target)
    requires |rows| > 0 && rows[0].cls == Row && rows[0].childDescription == name + NameDelimiter + rest
    ensures IsFirstChatMatch(rows, target, 0)
  {
    ChatNameBeforeDelimiter(name, rest);
  }

  /** A participant row whose first child is named `address`, case ignored. */
  predicate IsParticipantMatch(e: Element, address: string)
  {
    e.cls == Row && SameText(e.childName, address)
  }

  /** The participant loop of removeParticipant: the first row of the details popover's table
      whose first element is named `address`, or none. */
  method LocateParticipant(rows: seq<Element>, address: string) returns (contactRow: Option<nat>)
    ensures contactRow.Some? ==>
              contactRow.value < |rows| && IsParticipantMatch(rows[contactRow.value], address) &&
              forall k :: 0 <= k < contactRow.value ==> !IsParticipantMatch(rows[k], address)
    ensures contactRow.None? ==> forall k :: 0 <= k < |rows| ==> !IsParticipantMatch(rows[k], address)
  {
    contactRow := None;
    var i := 0;
    while i < |rows|
      invariant 0 <= i <= |rows|
      invariant contactRow.None?
      invariant forall k :: 0 <= k < i ==> !IsParticipantMatch(rows[k], address)
    {
      if rows[i].cls == Row && SameText(rows[i].childName, address) {
        contactRow := Some(i);
        break;
      }
      i := i + 1;
    }
  }

  /** `reverse of (entire contents of scroll area 2 as list)`: the newest item first. */
  function NewestFirst(contents: seq<Element>): (items: seq<Element>)
    ensures |items| == |contents|
    ensures forall k :: 0 <= k < |items| ==> items[k] == contents[|contents| - 1 - k]
  {
    seq(|contents|, k requires 0 <= k < |contents| => contents[|contents| - 1 - k])
  }

  /** Reversing twice gives back the list in document order. */
  lemma NewestFirstInvolution(contents: seq<Element>)
    ensures NewestFirst(NewestFirst(contents)) == contents
  {
  }

  /** Item `n` of the newest-first list is a static text that directly follows a group. Item 0
      never is, because the loop's `previousRow` starts as null. */
  predicate IsTapbackCandidate(items: seq<Element>, n: nat)
  {
    0 < n < |items| && items[n].cls == StaticText && items[n - 1].cls == Group
  }

  /** A candidate whose value is the message text being reacted to, case ignored. */
  predicate IsTapbackMatch(items: seq<Element>, n: nat, messageText: string)
  {
    IsTapbackCandidate(items, n) && SameText(items[n].value, messageText)
  }

  /** The values the tap-back loop logs (`log textValue`) for the first `upTo` items. */
  function CandidateValues(items: seq<Element>, upTo: nat): seq<string>
    requires upTo <= |items|
  {
    if upTo == 0 then []
    else CandidateValues(items, upTo - 1) +
         (if IsTapbackCandidate(items, upTo - 1) then [items[upTo - 1].value] else [])
  }

  /** The message loop of toggleTapback over the newest-first items: the first static text that
      follows a group and whose value is `messageText`. Every candidate visited up to that point
      is logged; with no match the loop runs to the end. */
  method FindTapbackMessage(items: seq<Element>, messageText: string)
    returns (target: Option<nat>, logged: seq<string>)
    ensures target.Some? ==>
              IsTapbackMatch(items, target.value, messageText) &&
              (forall k :: 0 <= k < target.value ==> !IsTapbackMatch(items, k, messageText)) &&
              logged == CandidateValues(items, target.value + 1)
    ensures target.None? ==>
              (forall k :: 0 <= k < |items| ==> !IsTapbackMatch(items, k, messageText)) &&
              logged == CandidateValues(items, |items|)
  {
    target, logged := None, [];
    var previousRow: Option<Element> := None;
    var n := 0;
    while n < |items|
      invariant 0 <= n <= |items|
      invariant previousRow == if n == 0 then None else Some(items[n - 1])
      invariant forall k :: 0 <= k < n ==> !IsTapbackMatch(items, k, messageText)
      invariant logged == CandidateValues(items, n)
    {
      var chatRow := items[n];
      if chatRow.cls == StaticText && previousRow.Some? && previousRow.value.cls == Group {
        var textValue := chatRow.value;
        logged := logged + [textValue];
        if SameText(textValue, messageText) {
          target := Some(n);
          return;
        }
      }
      previousRow := Some(chatRow);
      n := n + 1;
    }
  }

  /** The tap-back control after the menu opened, in the re-fetched newest-first list: the item
      after the matched one when it is a radio group, otherwise the item before it. A missing
      item after the match is AppleScript's "Can't get item" error, reported by its 1-based
      index. */
  function TapbackControl(newRows: seq<Element>, n: nat): (r: Result<nat, nat>)
    requires n >= 1
    ensures r.Failure? <==> n + 1 >= |newRows|
    ensures r.Failure? ==> r.error == n + 2
    ensures r.Success? ==> r.value < |newRows|
    ensures r.Success? ==> (r.value == n + 1 <==> newRows[n + 1].cls == RadioGroup)
    ensures r.Success? ==> r.value == n + 1 || r.value == n - 1
  {
    if n + 1 >= |newRows| then Failure(n + 2)
    else if newRows[n + 1].cls == RadioGroup then Success(n + 1)
    else Success(n - 1)
  }
}
