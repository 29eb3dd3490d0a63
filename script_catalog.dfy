/** The catalog of AppleScripts the server installs (getAppleScripts in scripts.ts): nine named
    scripts in a fixed order, and the choice of the contacts application the export script
    drives. The script texts are represented by which script they are; what the UI scripts do
    when run is modelled in ScriptRuns. The OS version and the version comparison are inputs. */
module ScriptCatalog {
  import opened Wrappers

  /** Which script a catalog entry holds. Only the export script's text depends on anything: the
      contacts directory and the contacts application are written into it. */
  datatype Template =
    | SendMessageScript
    | StartChatScript
    | RenameGroupChatScript
    | AddParticipantScript
    | RemoveParticipantScript
    | StartMessagesScript
    | ToggleTapbackScript
    | CheckTypingIndicatorScript
    | ExportContactsScript(contactsPath: string, contactsApp: string)

  /** One entry of the catalog: the file name it is saved under and its contents. */
  datatype AppleScript = AppleScript(name: string, contents: Template)

  /** The name of each script, without the extension. */
  function BaseName(t: Template): string
  {
    match t
    case SendMessageScript => "sendMessage"
    case StartChatScript => "startChat"
    case RenameGroupChatScript => "renameGroupChat"
    case AddParticipantScript => "addParticipant"
    case RemoveParticipantScript => "removeParticipant"
    case StartMessagesScript => "startMessages"
    case ToggleTapbackScript => "toggleTapback"
    case CheckTypingIndicatorScript => "checkTypingIndicator"
    case ExportContactsScript(_, _) => "exportContacts"
  }

  const Extension := ".scpt"

  /** The file name each script is saved under: its name with the ".scpt" extension. */
  function FileName(t: Template): (name: string)
    ensures |name| > |Extension| && name[|name| - |Extension|..] == Extension
  {
    BaseName(t) + Extension
  }

  /** The last OS version that still calls the contacts application "Address Book". */
  const AddressBookLastVersion := "10.7.0"

  /** The contacts application: "Address Book" when an OS version is known (a non-empty string)
      and compares at or below 10.7.0, "Contacts" otherwise. `compareVersions` returns a
      negative, zero or positive number as its first argument is older, equal or newer. */
  function ContactsApp(osVersion: Option<string>, compareVersions: (string, string) -> int): (app: string)
    ensures app == "Address Book" || app == "Contacts"
    ensures app == "Address Book" <==>
              osVersion.Some? && osVersion.value != "" &&
              compareVersions(osVersion.value, AddressBookLastVersion) <= 0
  {
    if osVersion.Some? && osVersion.value != "" &&
       compareVersions(osVersion.value, AddressBookLastVersion) <= 0
    then "Address Book"
    else "Contacts"
  }

  /** Without a known OS version the export uses "Contacts", whatever the comparison says. */
  lemma UnknownVersionUsesContacts(compareVersions: (string, string) -> int)
    ensures ContactsApp(None, compareVersions) == "Contacts"
    ensures ContactsApp(Some(""), compareVersions) == "Contacts"
  {
  }

  /** 10.7.0 itself still uses "Address Book" when the comparison reports equal versions as 0. */
  lemma BoundaryVersionUsesAddressBook(compareVersions: (string, string) -> int)
    requires compareVersions(AddressBookLastVersion, AddressBookLastVersion) == 0
    ensures ContactsApp(Some(AddressBookLastVersion), compareVersions) == "Address Book"
  {
  }

  /** With a transitive comparison, a version older than one that uses "Address Book" uses it
      too: the choice splits the versions at 10.7.0. */
  lemma {:induction false} AddressBookDownwardClosed(
    older: string, newer: string, compareVersions: (string, string) -> int)
    requires older != ""
    requires compareVersions(older, newer) <= 0
    requires forall a, b, c :: compareVersions(a, b) <= 0 && compareVersions(b, c) <= 0 ==>
               compareVersions(a, c) <= 0
    requires ContactsApp(Some(newer), compareVersions) == "Address Book"
    ensures ContactsApp(Some(older), compareVersions) == "Address Book"
  {
    assert compareVersions(newer, AddressBookLastVersion) <= 0;
  }

  /** Where the export script writes the contacts: AddressBook.vcf in the contacts directory. */
  function ContactsExportPath(contactsDir: string): (path: string)
    ensures |path| > |contactsDir| && path[..|contactsDir|] == contactsDir
    ensures path[|contactsDir|..] == "/AddressBook.vcf"
  {
    contactsDir + "/AddressBook.vcf"
  }

  /** A catalog entry: the script saved under its own file name. */
  function Entry(t: Template): (script: AppleScript)
    ensures script.contents == t
    ensures script.name == FileName(t)
  {
    AppleScript(FileName(t), t)
  }

  /** getAppleScripts: the nine scripts in the order they are returned. */
  function GetAppleScripts(
    osVersion: Option<string>, compareVersions: (string, string) -> int, contactsDir: string)
    : (scripts: seq<AppleScript>)
    ensures |scripts| == 9
    ensures forall i :: 0 <= i < |scripts| ==> scripts[i].name == FileName(scripts[i].contents)
    ensures scripts[8].contents ==
              ExportContactsScript(ContactsExportPath(contactsDir), ContactsApp(osVersion, compareVersions))
  {
    var contactsApp := ContactsApp(osVersion, compareVersions);
    [
      Entry(SendMessageScript),
      Entry(StartChatScript),
      Entry(RenameGroupChatScript),
      Entry(AddParticipantScript),
      Entry(RemoveParticipantScript),
      Entry(StartMessagesScript),
      Entry(ToggleTapbackScript),
      Entry(CheckTypingIndicatorScript),
      Entry(ExportContactsScript(ContactsExportPath(contactsDir), contactsApp))
    ]
  }

  /** The names of the catalog's scripts without their extension, in order. */
  function CatalogBaseNames(scripts: seq<AppleScript>): (names: seq<string>)
    ensures |names| == |scripts|
    ensures forall i :: 0 <= i < |names| ==> names[i] == BaseName(scripts[i].contents)
  {
    seq(|scripts|, i requires 0 <= i < |scripts| => BaseName(scripts[i].contents))
  }

  /** The catalog's scripts, in the order the installer receives them; each is saved under its
      name followed by ".scpt". */
  lemma CatalogOrder(
    osVersion: Option<string>, compareVersions: (string, string) -> int, contactsDir: string)
    ensures CatalogBaseNames(GetAppleScripts(osVersion, compareVersions, contactsDir)) == [
              "sendMessage", "startChat", "renameGroupChat", "addParticipant", "removeParticipant",
              "startMessages", "toggleTapback", "checkTypingIndicator", "exportContacts"]
  {
  }

  /** Where each kind of script sits in the catalog. */
  function Position(t: Template): nat
  {
    match t
    case SendMessageScript => 0
    case StartChatScript => 1
    case RenameGroupChatScript => 2
    case AddParticipantScript => 3
    case RemoveParticipantScript => 4
    case StartMessagesScript => 5
    case ToggleTapbackScript => 6
    case CheckTypingIndicatorScript => 7
    case ExportContactsScript(_, _) => 8
  }

  /** The place in the catalog of the script with a given base name. */
  function PositionOfName(name: string): nat
  {
    if name == "sendMessage" then 0
    else if name == "startChat" then 1
    else if name == "renameGroupChat" then 2
    else if name == "addParticipant" then 3
    else if name == "removeParticipant" then 4
    else if name == "startMessages" then 5
    else if name == "toggleTapback" then 6
    else if name == "checkTypingIndicator" then 7
    else 8
  }

  /** A script's base name tells which script it is. */
  lemma BaseNameIdentifies(t: Template)
    ensures PositionOfName(BaseName(t)) == Position(t)
  {
  }

  /** Scripts at different places of the catalog are saved under different names. */
  lemma {:induction false} FileNamesDistinct(s: Template, t: Template)
    requires Position(s) != Position(t)
    ensures FileName(s) != FileName(t)
  {
    BaseNameIdentifies(s);
    BaseNameIdentifies(t);
    assert BaseName(s) == FileName(s)[..|FileName(s)| - |Extension|];
    assert BaseName(t) == FileName(t)[..|FileName(t)| - |Extension|];
  }

  /** No two entries of the catalog share a name, and each one's name ends in ".scpt". */
  lemma {:induction false} CatalogNamesDistinct(
    osVersion: Option<string>, compareVersions: (string, string) -> int, contactsDir: string)
    ensures var scripts := GetAppleScripts(osVersion, compareVersions, contactsDir);
            forall i, j :: 0 <= i < j < |scripts| ==> scripts[i].name != scripts[j].name
    ensures var scripts := GetAppleScripts(osVersion, compareVersions, contactsDir);
            forall i :: 0 <= i < |scripts| ==>
              |scripts[i].name| > |Extension| && scripts[i].name[|scripts[i].name| - |Extension|..] == Extension
  {
    var scripts := GetAppleScripts(osVersion, compareVersions, contactsDir);
    assert forall i :: 0 <= i < |scripts| ==> Position(scripts[i].contents) == i;
    forall i, j | 0 <= i < j < |scripts|
      ensures scripts[i].name != scripts[j].name
    {
      FileNamesDistinct(scripts[i].contents, scripts[j].contents);
    }
  }
}
