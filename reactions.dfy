/** The reaction ("tap-back") code mapping of the message store: the two constant tables and
    the column transformer that reads and writes them (MessageTypeTransformer.ts). */
module Reactions {
  import opened Wrappers

  /** ReactionIdToString: each persisted integer code to its lowercase tag. */
  const IdToString: map<int, string> := map[
    2000 := "love",
    2001 := "like",
    2002 := "dislike",
    2003 := "laugh",
    2004 := "emphasize",
    2005 := "question",
    3000 := "-love",
    3001 := "-like",
    3002 := "-dislike",
    3003 := "-laugh",
    3004 := "-emphasize",
    3005 := "-question"
  ]

  /** ReactionStringToId: each tag back to its persisted integer code. */
  const StringToId: map<string, int> := map[
    "love" := 2000,
    "like" := 2001,
    "dislike" := 2002,
    "laugh" := 2003,
    "emphasize" := 2004,
    "question" := 2005,
    "-love" := 3000,
    "-like" := 3001,
    "-dislike" := 3002,
    "-laugh" := 3003,
    "-emphasize" := 3004,
    "-question" := 3005
  ]

  /** The distance between an add code and its remove code: each remove code is its add code
      plus this. */
  const RemoveOffset := 1000

  /** `from`: the table lookup, then `|| null`, which also turns a falsy (empty) tag into null.
      A database NULL is `None`. The fallback never hides a known code. */
  function From(dbValue: Option<int>): (tag: Option<string>)
    ensures tag == if dbValue.Some? && dbValue.value in IdToString
                   then Some(IdToString[dbValue.value]) else None
  {
    if dbValue.Some? && dbValue.value in IdToString && IdToString[dbValue.value] != ""
    then Some(IdToString[dbValue.value])
    else None
  }

  /** `to`: the own-property table lookup, then `|| null`, which also turns a falsy (zero) code
      into null. The fallback never hides a known tag. */
  function To(entityValue: Option<string>): (code: Option<int>)
    ensures code == if entityValue.Some? && entityValue.value in StringToId
                    then Some(StringToId[entityValue.value]) else None
  {
    if entityValue.Some? && entityValue.value in StringToId && StringToId[entityValue.value] != 0
    then Some(StringToId[entityValue.value])
    else None
  }

  /** No tag is the empty string and no code is zero, so `|| null` only fires for keys the
      tables do not hold. */
  lemma NoFalsyEntries()
    ensures forall c :: c in IdToString ==> IdToString[c] != ""
    ensures forall t :: t in StringToId ==> StringToId[t] != 0
  {
  }

  /** `from` maps each of the six add codes to exactly its listed tag. */
  lemma FromKnownAddCodes()
    ensures From(Some(2000)) == Some("love") && From(Some(2001)) == Some("like")
    ensures From(Some(2002)) == Some("dislike") && From(Some(2003)) == Some("laugh")
    ensures From(Some(2004)) == Some("emphasize") && From(Some(2005)) == Some("question")
  {
  }

  /** `from` maps each of the six remove codes to exactly its listed tag. */
  lemma FromKnownRemoveCodes()
    ensures From(Some(3000)) == Some("-love") && From(Some(3001)) == Some("-like")
    ensures From(Some(3002)) == Some("-dislike") && From(Some(3003)) == Some("-laugh")
    ensures From(Some(3004)) == Some("-emphasize") && From(Some(3005)) == Some("-question")
  {
  }

  /** `to` maps each of the six add tags to exactly its listed code. */
  lemma ToKnownAddTags()
    ensures To(Some("love")) == Some(2000) && To(Some("like")) == Some(2001)
    ensures To(Some("dislike")) == Some(2002) && To(Some("laugh")) == Some(2003)
    ensures To(Some("emphasize")) == Some(2004) && To(Some("question")) == Some(2005)
  {
  }

  /** `to` maps each of the six remove tags to exactly its listed code. */
  lemma ToKnownRemoveTags()
    ensures To(Some("-love")) == Some(3000) && To(Some("-like")) == Some(3001)
    ensures To(Some("-dislike")) == Some(3002) && To(Some("-laugh")) == Some(3003)
    ensures To(Some("-emphasize")) == Some(3004) && To(Some("-question")) == Some(3005)
  {
  }

  /** Anything outside the tables, and a database NULL, reads and writes as null. */
  lemma UnknownKeysYieldNull(c: int, t: string)
    ensures c !in IdToString ==> From(Some(c)) == None
    ensures t !in StringToId ==> To(Some(t)) == None
    ensures From(None) == None && To(None) == None
  {
  }

  /** The two tables are each other's inverse: same pairs, read in opposite directions. */
  lemma TablesAreInverse()
    ensures forall c :: c in IdToString ==> IdToString[c] in StringToId && StringToId[IdToString[c]] == c
    ensures forall t :: t in StringToId ==> StringToId[t] in IdToString && IdToString[StringToId[t]] == t
  {
  }

  /** Round trip from a code: writing back what was read gives the same code. */
  lemma CodeRoundTrip(c: int)
    requires c in IdToString
    ensures From(Some(c)).Some? && To(From(Some(c))) == Some(c)
  {
    TablesAreInverse();
  }

  /** Round trip from a tag: reading back what was written gives the same tag. */
  lemma TagRoundTrip(t: string)
    requires t in StringToId
    ensures To(Some(t)).Some? && From(To(Some(t))) == Some(t)
  {
    TablesAreInverse();
  }

  /** Neither table sends two keys to the same value. */
  lemma TablesInjective()
    ensures forall c, d :: c in IdToString && d in IdToString && c != d ==> IdToString[c] != IdToString[d]
    ensures forall t, u :: t in StringToId && u in StringToId && t != u ==> StringToId[t] != StringToId[u]
  {
    TablesAreInverse();
  }

  /** The remove half mirrors the add half: code plus 1000, tag prefixed with "-". */
  lemma RemoveMirrorsAdd()
    ensures forall c :: c in IdToString && c < 2000 + RemoveOffset ==>
              c + RemoveOffset in IdToString && IdToString[c + RemoveOffset] == "-" + IdToString[c]
    ensures forall c :: c in IdToString ==> (c < 2000 + RemoveOffset <==> IdToString[c][0] != '-')
  {
  }

  // The finding on `to` as written follows: a plain object lookup also sees what every
  // JavaScript object inherits.

  /** Property names every plain JavaScript object inherits from Object.prototype. */
  const InheritedNames: set<string> := {
    "constructor", "__proto__", "hasOwnProperty", "isPrototypeOf", "propertyIsEnumerable",
    "toLocaleString", "toString", "valueOf", "__defineGetter__", "__defineSetter__",
    "__lookupGetter__", "__lookupSetter__"
  }

  /** What `ReactionStringToId[entityValue] || null` can evaluate to. */
  datatype JsValue = JsNull | JsNumber(n: int) | JsInherited(member: string)

  /** `to` exactly as written: the bracket lookup finds the table's own keys and also the
      inherited members, which are functions or objects and therefore truthy. */
  function ToAsWritten(entityValue: Option<string>): (r: JsValue)
    ensures r != JsNull <==> entityValue.Some? &&
                             (entityValue.value in StringToId || entityValue.value in InheritedNames)
    ensures r.JsNumber? ==> To(entityValue) == Some(r.n)
  {
    if entityValue.None? then JsNull
    else if entityValue.value in StringToId then
      (if StringToId[entityValue.value] != 0 then JsNumber(StringToId[entityValue.value]) else JsNull)
    else if entityValue.value in InheritedNames then JsInherited(entityValue.value)
    else JsNull
  }

  /** The tag "toString" is unknown, yet `to` as written does not give null for it;
      the own-property lookup `To` does. */
  lemma ToAsWrittenLeaksInherited()
    ensures "toString" !in StringToId
    ensures ToAsWritten(Some("toString")) == JsInherited("toString")
    ensures To(Some("toString")) == None
  {
  }
}
