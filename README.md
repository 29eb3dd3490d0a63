# BlueBubbles server core, modelled in Dafny

This project models three parts of the BlueBubbles server, a macOS bridge to the Messages app:

- **Reaction codes.** The message store keeps reactions ("tap-backs") as integer codes. `MessageTypeTransformer` is the column transformer between those codes and their lowercase tags: 2000–2005 add a reaction and 3000–3005 remove one.
- **Attachment responses.** `getAttachmentResponse` turns one attachment row into the response sent to clients. It expands a `~` path against HOME. It reads the file and keeps its bytes when data is asked for. It decodes images of six allowed MIME types and computes a blurhash placeholder. It converts the bytes to base64. A failure inside that sequence degrades the response; it never fails the call.
- **AppleScript catalog and its scripts.** `getAppleScripts` builds nine named scripts. It also picks the contacts application ("Address Book" on 10.7.0 and older, otherwise "Contacts"). The UI scripts scan the accessibility tree of the Messages window:
  - find the chat row by the text before the first `". "` of its description;
  - find a participant row by name;
  - find a message newest-first, then the tap-back control next to it;
  - check the 7th newest item for the typing indicator.

  What each script does is modelled as a trace: opaque UI actions, the lines it logs, and how it ends (finished, raised error, or an item AppleScript could not get).

Modules:

| file | module | models |
|---|---|---|
| wrappers.dfy | Wrappers | `Option` and `Result` |
| reactions.dfy | Reactions | the two tables, `from` and `to` |
| attachment.dfy | Attachments | `handledImageMimes` and `getAttachmentResponse` |
| text_items.dfy | TextItems | the scripts' `splitText` handler and the chat name it yields |
| ui_scan.dfy | UiScan | the scanning loops over element lists |
| script_runs.dfy | ScriptRuns | each UI script as a run producing a trace |
| script_catalog.dfy | ScriptCatalog | `getAppleScripts` and the contacts-application choice |

I/O and libraries are inputs:

- the file system is a map from path to bytes, and HOME is an optional string;
- image decoding and the blurhash are function parameters, and base64 is kept symbolic (`Base64Of(bytes)`);
- the OS version is a parameter, and `compare-versions` is a comparison function;
- what the Messages window shows is a parameter of each run: chat rows, the front window, whether the details popover is open, and the transcript before and after the menu opens.

Four behaviours of the code differ from what a reader might expect; the model follows the code:

- Not every file problem is absorbed. Expanding a `~` path with HOME unset runs `path.join` before the `try`, so that error reaches the caller. `ResolvePath` and `GetAttachmentResponse` return `Failure(HomeNotSet)` for it.
- A readable, allow-listed image requested with data does not always get a base64 payload. Base64 conversion is the last step of the `try`. When the decode fails, `data` keeps the raw bytes (`RawBytes`).
- Not every script logs "success". renameGroupChat logs nothing; its success is the absence of a raised error.
- The scripts compare names and texts with AppleScript's `is equal to`, which ignores case. A chat named "Family" is found when "family" is asked for (`TextItems.SameText`).

## Model

| member | source | states |
|---|---|---|
| Reactions.From | src/main/server/api/transformers/MessageTypeTransformer.ts:3-34 | `from` gives the listed tag for a code in the table and null for anything else; the `\|\| null` fallback never hides a known code |
| Reactions.To | src/main/server/api/transformers/MessageTypeTransformer.ts:18-35 | `to` gives the listed code for a tag in the table and null for anything else (own keys only; see Findings) |
| Reactions.NoFalsyEntries | src/main/server/api/transformers/MessageTypeTransformer.ts:3-31 | no tag is empty and no code is zero, so the `\|\| null` fallback fires only for unknown keys |
| Reactions.FromKnownAddCodes | src/main/server/api/transformers/MessageTypeTransformer.ts:4-34 | `from` maps 2000–2005 to love, like, dislike, laugh, emphasize, question |
| Reactions.FromKnownRemoveCodes | src/main/server/api/transformers/MessageTypeTransformer.ts:10-34 | `from` maps 3000–3005 to the same tags prefixed with "-" |
| Reactions.ToKnownAddTags | src/main/server/api/transformers/MessageTypeTransformer.ts:19-35 | `to` maps the six add tags to 2000–2005 |
| Reactions.ToKnownRemoveTags | src/main/server/api/transformers/MessageTypeTransformer.ts:25-35 | `to` maps the six remove tags to 3000–3005 |
| Reactions.UnknownKeysYieldNull | src/main/server/api/transformers/MessageTypeTransformer.ts:34-35 | a code or tag outside the tables, and a database NULL, gives null |
| Reactions.TablesAreInverse | src/main/server/api/transformers/MessageTypeTransformer.ts:3-31 | the two tables hold the same pairs in opposite directions |
| Reactions.CodeRoundTrip | src/main/server/api/transformers/MessageTypeTransformer.ts:3-35 | `to(from(c)) == c` for every known code |
| Reactions.TagRoundTrip | src/main/server/api/transformers/MessageTypeTransformer.ts:3-35 | `from(to(t)) == t` for every known tag |
| Reactions.TablesInjective | src/main/server/api/transformers/MessageTypeTransformer.ts:3-31 | no two codes share a tag and no two tags share a code |
| Reactions.RemoveMirrorsAdd | src/main/server/api/transformers/MessageTypeTransformer.ts:4-15 | each remove code is its add code + 1000, with the add tag prefixed by "-"; exactly the codes below 3000 have tags without "-" |
| Reactions.ToAsWritten | src/main/server/api/transformers/MessageTypeTransformer.ts:35 | `to` as written is non-null exactly for the table's tags and the names every object inherits; where it gives a number, it agrees with `To` |
| Reactions.ToAsWrittenLeaksInherited | src/main/server/api/transformers/MessageTypeTransformer.ts:18-35 | "toString" is not a tag, yet `to` as written gives the inherited member for it, where `To` gives null |
| Attachments.JoinPath | src/main/server/api/imessage/entity/Attachment.ts:110 | an empty part is dropped and two empty parts give "."; otherwise the joined path begins with the base, ends with the rest, and the separators where the two meet collapse into one: trailing `/` of the base and leading `/` of the rest are dropped before a single `/` is put between them |
| Attachments.TrimTrailingSlashes | src/main/server/api/imessage/entity/Attachment.ts:110 | a prefix of the text that does not end in `/`, with only `/` removed after it |
| Attachments.TrimLeadingSlashes | src/main/server/api/imessage/entity/Attachment.ts:110 | a suffix of the text that does not start with `/`, with only `/` removed before it |
| Attachments.RootHomeJoin | src/main/server/api/imessage/entity/Attachment.ts:110 | with HOME `/`, a relative rest joins to `/` followed by the rest, with no doubled separator |
| Attachments.ResolvePath | src/main/server/api/imessage/entity/Attachment.ts:108-111 | a `~` path is HOME joined with the rest after `~`; any other path is read unchanged; `~` with HOME unset fails |
| Attachments.HomeRelativeMatchesAbsolute | src/main/server/api/imessage/entity/Attachment.ts:108-111 | `~/rest` is read from the same place as HOME joined with `rest` written out in full, whenever that joined path is not itself expanded again |
| Attachments.EmptyHomeExpandsJoinedPathAgain | src/main/server/api/imessage/entity/Attachment.ts:108-111 | with an empty HOME, `~~x` reads `~x` but the joined spelling `~x` is expanded once more and reads `x` |
| Attachments.MessageGuids | src/main/server/api/imessage/entity/Attachment.ts:148 | the owning messages' guids, in order and one per message; `[]` when the relation is absent |
| Attachments.DecodedImage | src/main/server/api/imessage/entity/Attachment.ts:97-123 | an image exists only for a read file whose MIME type is one of the six allow-listed types |
| Attachments.ReadAttachment | src/main/server/api/imessage/entity/Attachment.ts:113-144 | the decode is attempted only for allow-listed MIME types; blurhash only from a decoded image when `withBlurhash`; `data` is null unless requested and read; otherwise it holds the file bytes, left unconverted exactly when the decode after the read failed |
| Attachments.GetAttachmentResponse | src/main/server/api/imessage/entity/Attachment.ts:98-162 | fails only when `~` expansion has no HOME; height and width are the decoded image's, else 0; blurhash null unless decoded and requested; the data rules above; the record's fields are copied unchanged |
| TextItems.IndexOfFrom | src/main/server/fileSystem/scripts.ts:171-176 | the first occurrence of the delimiter at or after `from`, or none |
| TextItems.SplitText | src/main/server/fileSystem/scripts.ts:171-176 | `splitText` yields at least one item, the first being a prefix of the text |
| TextItems.SplitTextCuts | src/main/server/fileSystem/scripts.ts:171-176 | one item exactly when the delimiter is absent (and then it is the whole text); otherwise the delimiter follows the first item |
| TextItems.SplitAtFirst | src/main/server/fileSystem/scripts.ts:171-176 | the text splits at the first delimiter into the first item and the split of the remainder |
| TextItems.FirstItemAvoidsDelimiter | src/main/server/fileSystem/scripts.ts:171-176 | the first item never contains the delimiter |
| TextItems.ItemsAvoidDelimiter | src/main/server/fileSystem/scripts.ts:171-176 | no item contains the delimiter |
| TextItems.JoinSplit | src/main/server/fileSystem/scripts.ts:171-176 | joining the items with the delimiter gives back the text |
| TextItems.ChatNameFrom | src/main/server/fileSystem/scripts.ts:114-116 | the chat name of a suffix is the text up to the first ". " in it, or the whole suffix |
| TextItems.ChatNameIsFirstItem | src/main/server/fileSystem/scripts.ts:114-116 | a row's chat name is item 1 of `splitText(description, ". ")` |
| TextItems.ChatNameBeforeDelimiter | src/main/server/fileSystem/scripts.ts:114-116 | a name without ". " followed by ". " and anything else reads back as that name |
| TextItems.FoldCase | src/main/server/fileSystem/scripts.ts:119 | the text with every ASCII capital (A–Z) lowered, position by position; every other character kept |
| TextItems.SameTextEquivalence | src/main/server/fileSystem/scripts.ts:119 | `is equal to` is reflexive, symmetric and transitive |
| TextItems.CaseIsIgnored | src/main/server/fileSystem/scripts.ts:119 | "Family" is equal to "family" although the texts differ |
| TextItems.SameTextOnlyIgnoresCase | src/main/server/fileSystem/scripts.ts:119 | texts equal to each other have the same length and agree wherever neither holds a capital letter |
| UiScan.LocateChat | src/main/server/fileSystem/scripts.ts:107-129 | the first row whose chat name is equal to the target, case ignored, skipping non-rows; otherwise "Group chat does not exist" and no row matches |
| UiScan.ChatLookupIgnoresCase | src/main/server/fileSystem/scripts.ts:114-121 | a first row described as `name. rest` is the match for every target equal to `name` with case ignored |
| UiScan.LocateParticipant | src/main/server/fileSystem/scripts.ts:349-357 | the first participant row whose first element's name is equal to the address, case ignored, or none when no row is |
| UiScan.NewestFirst | src/main/server/fileSystem/scripts.ts:441 | item k of the reversed list is item (count − 1 − k) of the document-order list |
| UiScan.NewestFirstInvolution | src/main/server/fileSystem/scripts.ts:441-461 | reversing twice restores document order |
| UiScan.FindTapbackMessage | src/main/server/fileSystem/scripts.ts:439-475 | the first static text, directly after a group, whose value is equal to the message text, case ignored (never item 1); the logged values are those of the candidates visited |
| UiScan.TapbackControl | src/main/server/fileSystem/scripts.ts:461-465 | item n+1 of the re-fetched list when it is a radio group, else item n−1; a missing item n+1 is the "Can't get item" error |
| ScriptRuns.StartMessages | src/main/server/fileSystem/scripts.ts:16-24 | Messages is reopened exactly when it is not running |
| ScriptRuns.SendMessage | src/main/server/fileSystem/scripts.ts:30-55 | nothing with fewer than 2 arguments; otherwise exactly: the attachment (3rd argument) and a 0.5 s pause when given, the text once when non-empty, then hiding Messages; each is sent at most once and the text never before the attachment |
| ScriptRuns.OpenChat | src/main/server/fileSystem/scripts.ts:106-148 | fails with "Group chat does not exist" exactly when no row is named; otherwise activates Messages, selects the first matching row, and clicks Details exactly when asked |
| ScriptRuns.OpensChatExtended | src/main/server/fileSystem/scripts.ts:131-148 | actions after the opening keep it the opening of the run |
| ScriptRuns.PerformedAfterOpening | src/main/server/fileSystem/scripts.ts:131-148 | an action other than the opening's occurs in the run exactly when the part after the opening performs it |
| ScriptRuns.RenameGroupChat | src/main/server/fileSystem/scripts.ts:92-169 | missing chat raises "Group chat does not exist" with no actions; Details clicked only when the popover is closed; a rename error is raised with its prefix and ends the script with no Escape and no hiding; otherwise the name is set and Messages hidden exactly when it was not in front; the trace after the opening is stated exactly: nothing after a rename error, else the name, the click on "Details", and the hiding |
| ScriptRuns.RenameInPopover | src/main/server/fileSystem/scripts.ts:150-166 | after a rename without error: exactly the new name, the click on "Details" that closes the popover, and hiding Messages exactly when it was not in front; it never starts with a click on "Details" |
| ScriptRuns.DismissWindows | src/main/server/fileSystem/scripts.ts:251-257 | the actions are kept and followed by exactly `count` presses of the front window's button |
| ScriptRuns.AddInPopover | src/main/server/fileSystem/scripts.ts:240-275 | the address is entered; extra windows are dismissed with "Error: Not an iMessage address"; otherwise Escape and "success" follow, and hiding exactly when not in front; an error is logged with no action |
| ScriptRuns.AddParticipant | src/main/server/fileSystem/scripts.ts:184-277 | after the opening: the address is entered, then Escape, "success", and hiding exactly when Messages was not in front, when at most one window is open after Enter; otherwise the extra windows are dismissed after the address and "Error: Not an iMessage address" is logged; an error is logged with nothing after the opening; the early returns skip hiding; the trace after the opening is stated exactly on every path, including its length |
| ScriptRuns.RemoveFromPopover | src/main/server/fileSystem/scripts.ts:348-385 | the first matching participant is selected, deleted and the popover closed; an address that is not a participant logs only the not-a-participant error; an error is logged and "success" still follows; hiding only when not returned early and not in front; on every path the actions are stated exactly |
| ScriptRuns.RemoveParticipant | src/main/server/fileSystem/scripts.ts:292-387 | the whole script: missing chat raises; the delete happens exactly when the address is a participant, right after selecting its first row; the log and the hiding rules of the popover part; on every path the actions after the opening are stated exactly |
| ScriptRuns.MessageMenuActions | src/main/server/fileSystem/scripts.ts:453-457 | the matched message is selected and the menu of the item before it is opened |
| ScriptRuns.ReactionActions | src/main/server/fileSystem/scripts.ts:461-468 | the reaction is pressed on the control `TapbackControl` finds, and nothing when it finds none |
| ScriptRuns.ReactionOutcome | src/main/server/fileSystem/scripts.ts:461-470 | the script finishes exactly when the control is found; otherwise it fails to get item n+2 (1-based) |
| ScriptRuns.ReactToMessage | src/main/server/fileSystem/scripts.ts:453-470 | the menu actions, then the reaction on the control of the re-fetched newest-first list |
| ScriptRuns.ToggleTapback | src/main/server/fileSystem/scripts.ts:402-479 | missing chat raises; no match ends silently after logging every candidate; the first match gets the menu and the reaction on the control next to it; Messages is never hidden |
| ScriptRuns.CheckTypingIndicator | src/main/server/fileSystem/scripts.ts:494-540 | logs "true" exactly when the 7th newest item is an image and "false" when it is another element; fewer than 7 items fails to get item 7; Messages is neither activated nor hidden; a missing chat gives no action and no log, a listed one gives exactly the selection of its first matching row, and with 7 items or more the script finishes |
| ScriptCatalog.FileName | src/main/server/fileSystem/scripts.ts:17-30 | every script file name ends in ".scpt" |
| ScriptCatalog.ContactsApp | src/main/server/fileSystem/scripts.ts:550-552 | "Address Book" exactly when an OS version is known (non-empty) and compares ≤ 10.7.0; "Contacts" otherwise |
| ScriptCatalog.UnknownVersionUsesContacts | src/main/server/fileSystem/scripts.ts:550-552 | without an OS version the choice is "Contacts" |
| ScriptCatalog.BoundaryVersionUsesAddressBook | src/main/server/fileSystem/scripts.ts:551-552 | 10.7.0 itself uses "Address Book" |
| ScriptCatalog.AddressBookDownwardClosed | src/main/server/fileSystem/scripts.ts:551-552 | with a transitive comparison, every version older than one using "Address Book" uses it too |
| ScriptCatalog.ContactsExportPath | src/main/server/fileSystem/scripts.ts:559 | the export file is AddressBook.vcf in the contacts directory |
| ScriptCatalog.Entry | src/main/server/fileSystem/scripts.ts:16-24 | each entry is saved under its own script's file name |
| ScriptCatalog.GetAppleScripts | src/main/server/fileSystem/scripts.ts:550-595 | nine entries, each named after its script; the export script writes to AddressBook.vcf in the contacts directory and targets the chosen contacts application |
| ScriptCatalog.CatalogOrder | src/main/server/fileSystem/scripts.ts:585-595 | the order is sendMessage, startChat, renameGroupChat, addParticipant, removeParticipant, startMessages, toggleTapback, checkTypingIndicator, exportContacts |
| ScriptCatalog.BaseNameIdentifies | src/main/server/fileSystem/scripts.ts:585-595 | a script's name tells which script it is |
| ScriptCatalog.FileNamesDistinct | src/main/server/fileSystem/scripts.ts:585-595 | scripts at different places of the catalog have different file names |
| ScriptCatalog.CatalogNamesDistinct | src/main/server/fileSystem/scripts.ts:585-595 | the nine names are pairwise distinct and all end in ".scpt" |

## Left out

- The script texts are not modelled character for character. A catalog entry names which script it is; the export script's entry also carries the contacts path and the application it writes into. What the UI scripts do is modelled in ScriptRuns.
- startChat.scpt and exportContacts.scpt are kept only as catalog entries. What they do is foreign I/O that the model does not capture: making the chat, quitting and reopening Messages, deleting and writing the VCF file.
- Delays: only the 0.5 s pause between sending the attachment and the text is modelled, because the send depends on it. The other `delay`s, the keystroke details and `reopen`/`activate` are opaque or merged actions.
- The Finder query that decides `isForeground` is an input (`Screen.frontWindow`); a failing query counts as not in front, as in the script.
- ScriptRuns.SendMessage: every send is assumed to succeed. A failing `send` raises an error that ends the script before Messages is hidden (scripts.ts:37-53); that path is not modelled.
- ScriptRuns.RenameGroupChat: a rename error is modelled as raised after the chat is opened. The model does not tell which step inside the `try` raised it.
- ScriptRuns.AddParticipant: the dismissal loop is modelled as pressing the button on every turn. The `exit repeat` taken when a press fails is not modelled.
- ScriptRuns.AddParticipant: `DetailsFailed` stands for an error at any step of the `try` (scripts.ts:230-264), including one raised after the address was typed or Enter was pressed. The model then records no action after the opening, so the actions performed before such an error are not captured.
- ScriptRuns.RemoveParticipant: an error raised inside the popover after the participant row was selected is modelled as an error before any participant action.
- ScriptRuns.ToggleTapback: `reactionIndex as number` is passed through as an integer. The script's conversion from text, and its failure, are not modelled.
- ScriptRuns.ReactionOutcome: pressing the reaction is assumed to succeed on the control chosen. When item n+1 is not a radio group, the script presses a radio button of item n−1 without checking its class, and that press can fail; the model reports `Finished` there.
- TextItems.SplitText: `text items of ""` is taken to be a single empty item. AppleScript gives no item there, so `item 1 of nameSplit` raises for a row with an empty description and ends the script; the model does not capture that error and gives such a row the empty chat name.
- TextItems.FoldCase: only ASCII capitals (A–Z) are lowered. AppleScript also ignores the case of other letters; the model keeps those as they are.
- TextItems.SameText: built on FoldCase, so it ignores the case of ASCII letters only and compares every other letter exactly.
- Attachments.JoinPath: models `path.join` for empty parts and for the separators where the two parts meet. Normalisation of `.`/`..` segments and of separators repeated inside HOME or inside the rest is not modelled.
- Attachments.GetAttachmentResponse: the file path is never null in the model. A null path would throw before the `try`.
- Attachments.ReadAttachment: the decoder reads the bytes read just before. The library re-reads the file from the path, and the model does not capture the file changing between the two reads.
- The blurhash computation (resize to width 320, encode) is a function parameter. Its own failures come back as null, so the model takes it as returning an optional hash.
- The entity's other columns (dates, blobs, TypeORM decorators and transformers) are not part of this model; only the fields the response reads are.
- The process executor, timeouts and result classification are not part of this model. The Electron shell (main.ts) is not part of this model.
- `macos-version` and `compare-versions` are parameters. The comparison is only assumed transitive where a lemma says so.

## Findings

| source | as written | input that shows it | evidently intended | confidence | as-written member | corrected member |
|---|---|---|---|---|---|---|
| src/main/server/api/transformers/MessageTypeTransformer.ts:35 | `to` looks the tag up with a plain bracket index on an object literal. That also finds the members every object inherits (`toString`, `constructor`, `valueOf`, …), which are truthy and survive `\|\| null`. | the entity value "toString" gives the inherited function instead of null | only the twelve listed tags map to a code; anything else gives null | medium, not executed | Reactions.ToAsWritten, Reactions.ToAsWrittenLeaksInherited | Reactions.To |
