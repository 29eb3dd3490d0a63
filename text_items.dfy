/** The `splitText` handler the UI scripts share: AppleScript's text item delimiters cut a text
    at every occurrence of the delimiter. A chat row's name is the first text item of its
    description, cut at ". ". */
module TextItems {
  import opened Wrappers

  /** The delimiter the scripts split a chat row's description on. */
  const NameDelimiter := ". "

  /** `delimiter` occurs in `text` starting at index `j`. */
  predicate OccursAt(text: string, delimiter: string, j: nat)
  {
    j + |delimiter| <= |text| && text[j..j + |delimiter|] == delimiter
  }

  /** `delimiter` occurs somewhere in `text`. */
  ghost predicate Contains(text: string, delimiter: string)
  {
    exists j: nat :: OccursAt(text, delimiter, j)
  }

  /** The first occurrence of `delimiter` in `text` at or after `from`. */
  function IndexOfFrom(text: string, delimiter: string, from: nat): (r: Option<nat>)
    requires delimiter != []
    requires from <= |text|
    ensures r.Some? ==> from <= r.value && OccursAt(text, delimiter, r.value)
    ensures forall j: nat :: from <= j && (r.None? || j < r.value) ==> !OccursAt(text, delimiter, j)
    decreases |text| - from
  {
    if from + |delimiter| > |text| then None
    else if text[from..from + |delimiter|] == delimiter then Some(from)
    else IndexOfFrom(text, delimiter, from + 1)
  }

  /** The text items of `text` with `delimiter` as AppleScript's text item delimiter. */
  function SplitText(text: string, delimiter: string): (items: seq<string>)
    requires delimiter != []
    ensures |items| >= 1
    ensures |items[0]| <= |text| && items[0] == text[..|items[0]|]
    decreases |text|
  {
    match IndexOfFrom(text, delimiter, 0)
    case None => [text]
    case Some(i) => [text[..i]] + SplitText(text[i + |delimiter|..], delimiter)
  }

  /** A text without the delimiter is a single item, itself; a text with it is cut where the
      delimiter first occurs. */
  lemma {:induction false} SplitTextCuts(text: string, delimiter: string)
    requires delimiter != []
    ensures var items := SplitText(text, delimiter);
            (|items| == 1 <==> !Contains(text, delimiter)) &&
            (|items| == 1 ==> items[0] == text) &&
            (|items| > 1 ==> OccursAt(text, delimiter, |items[0]|))
  {
    match IndexOfFrom(text, delimiter, 0)
    case None =>
    case Some(i) =>
  }

  /** AppleScript's `items as text` with the same delimiter: the inverse of SplitText. */
  function JoinText(items: seq<string>, delimiter: string): (text: string)
    requires |items| >= 1
  {
    if |items| == 1 then items[0] else items[0] + delimiter + JoinText(items[1..], delimiter)
  }

  /** An occurrence inside a prefix of a text is an occurrence in the text. */
  lemma {:induction false} OccursInPrefix(text: string, delimiter: string, n: nat, j: nat)
    requires n <= |text|
    requires OccursAt(text[..n], delimiter, j)
    ensures OccursAt(text, delimiter, j)
  {
    assert text[..n][j..j + |delimiter|] == text[j..j + |delimiter|];
  }

  /** Where the delimiter first occurs at `i`, the text is the first item, the delimiter and the
      rest, and the items are the first one followed by the items of the rest. */
  lemma {:induction false} SplitAtFirst(text: string, delimiter: string, i: nat)
    requires delimiter != []
    requires IndexOfFrom(text, delimiter, 0) == Some(i)
    ensures text == text[..i] + delimiter + text[i + |delimiter|..]
    ensures SplitText(text, delimiter) == [text[..i]] + SplitText(text[i + |delimiter|..], delimiter)
  {
    assert text[i..i + |delimiter|] == delimiter;
    assert text == text[..i] + text[i..i + |delimiter|] + text[i + |delimiter|..];
  }

  /** The first text item does not contain the delimiter: it ends where the first occurrence
      begins, or it is the whole text when there is none. */
  lemma {:induction false} FirstItemAvoidsDelimiter(text: string, delimiter: string)
    requires delimiter != []
    ensures !Contains(SplitText(text, delimiter)[0], delimiter)
  {
    var first := SplitText(text, delimiter)[0];
    if Contains(first, delimiter) {
      var j: nat :| OccursAt(first, delimiter, j);
      OccursInPrefix(text, delimiter, |first|, j);
    }
  }

  /** No text item contains the delimiter. */
  lemma {:induction false} ItemsAvoidDelimiter(text: string, delimiter: string)
    requires delimiter != []
    ensures forall k :: 0 <= k < |SplitText(text, delimiter)| ==>
              !Contains(SplitText(text, delimiter)[k], delimiter)
    decreases |text|
  {
    var items := SplitText(text, delimiter);
    FirstItemAvoidsDelimiter(text, delimiter);
    match IndexOfFrom(text, delimiter, 0)
    case None =>
    case Some(i) =>
      var rest := text[i + |delimiter|..];
      ItemsAvoidDelimiter(rest, delimiter);
      SplitAtFirst(text, delimiter, i);
      assert items[1..] == SplitText(rest, delimiter);
  }

  /** Joining the text items with the delimiter gives back the text. */
  lemma {:induction false} JoinSplit(text: string, delimiter: string)
    requires delimiter != []
    ensures JoinText(SplitText(text, delimiter), delimiter) == text
    decreases |text|
  {
    match IndexOfFrom(text, delimiter, 0)
    case None =>
    case Some(i) =>
      var rest := text[i + |delimiter|..];
      JoinSplit(rest, delimiter);
      SplitAtFirst(text, delimiter, i);
      var items := SplitText(text, delimiter);
      assert items[1..] == SplitText(rest, delimiter);
  }

  /** The name a chat row is matched by: the text of its description before the first ". ", or
      the whole description when there is none. This is item 1 of `splitText(description, ". ")`
      (ChatNameIsFirstItem), defined directly so that the proofs about the scripts that compare
      chat names do not carry the facts about splitting. */
  function ChatName(description: string): string
    decreases |description|
  {
    if |description| < |NameDelimiter| then description
    else if description[..|NameDelimiter|] == NameDelimiter then []
    else [description[0]] + ChatName(description[1..])
  }

  /** The name before the first ". " of the text from `from` on is what the search for the
      delimiter from `from` on cuts off. */
  lemma {:induction false} ChatNameFrom(text: string, from: nat)
    requires from <= |text|
    ensures match IndexOfFrom(text, NameDelimiter, from)
            case None => ChatName(text[from..]) == text[from..]
            case Some(i) => ChatName(text[from..]) == text[from..i]
    decreases |text| - from
  {
    var suffix := text[from..];
    if from + |NameDelimiter| > |text| {
    } else if text[from..from + |NameDelimiter|] == NameDelimiter {
      assert suffix[..|NameDelimiter|] == text[from..from + |NameDelimiter|];
    } else {
      assert suffix[..|NameDelimiter|] == text[from..from + |NameDelimiter|];
      assert suffix[1..] == text[from + 1..];
      ChatNameFrom(text, from + 1);
      match IndexOfFrom(text, NameDelimiter, from + 1)
      case None =>
        assert [text[from]] + text[from + 1..] == suffix;
      case Some(i) =>
        assert [text[from]] + text[from + 1..i] == text[from..i];
    }
  }

  /** `item 1 of my splitText(fullName, ". ")`: the chat name is the first text item of the
      description, cut at ". ". */
  lemma ChatNameIsFirstItem(description: string)
    ensures ChatName(description) == SplitText(description, NameDelimiter)[0]
  {
    ChatNameFrom(description, 0);
    assert description[0..] == description;
  }

  /** In `name. rest`, where `name` has no ". ", the delimiter does not occur before `name` ends:
      it cannot begin inside `name` and end beyond it, because its second character is not its
      first. */
  lemma {:induction false} NoDelimiterInsideName(name: string, rest: string, j: nat)
    requires !Contains(name, NameDelimiter)
    requires j < |name|
    ensures !OccursAt(name + NameDelimiter + rest, NameDelimiter, j)
  {
    var text := name + NameDelimiter + rest;
    if j + 2 <= |name| {
      assert !OccursAt(name, NameDelimiter, j);
      assert name[j..j + 2] == text[j..j + 2];
    } else {
      // the second character would be text[|name|], which is '.', not ' '
      assert j + 1 == |name| && text[j + 1] == '.';
      assert j + 2 <= |text| ==> text[j..j + 2][1] == text[j + 1];
    }
  }

  /** A description of the form `name. rest`, where `name` has no ". ", has the chat name `name`. */
  lemma {:induction false} ChatNameBeforeDelimiter(name: string, rest: string)
    requires !Contains(name, NameDelimiter)
    ensures ChatName(name + NameDelimiter + rest) == name
  {
    var text := name + NameDelimiter + rest;
    ChatNameIsFirstItem(text);
    assert OccursAt(text, NameDelimiter, |name|) by {
      assert text[|name|..|name| + 2] == NameDelimiter;
    }
    var i := IndexOfFrom(text, NameDelimiter, 0);
    if i.value < |name| {
      NoDelimiterInsideName(name, rest, i.value);
    }
    assert SplitText(text, NameDelimiter)[0] == text[..|name|];
    assert text[..|name|] == name;
  }

  /** One character with its case ignored: ASCII capitals are lowered, everything else is kept. */
  function Lower(c: char): char
  {
    if 'A' <= c <= 'Z' then (c as int - 'A' as int + 'a' as int) as char else c
  }

  /** A text with its case ignored. */
  function FoldCase(s: string): (folded: string)
    ensures |folded| == |s|
    ensures forall k :: 0 <= k < |s| ==> folded[k] == Lower(s[k])
  {
    seq(|s|, k requires 0 <= k < |s| => Lower(s[k]))
  }

  /** AppleScript's `is equal to` on texts, which ignores case unless told to consider it. */
  predicate SameText(a: string, b: string)
  {
    FoldCase(a) == FoldCase(b)
  }

  /** Equal texts are the same text; comparing ignores nothing but case. */
  lemma SameTextEquivalence(a: string, b: string, c: string)
    ensures SameText(a, a)
    ensures SameText(a, b) ==> SameText(b, a)
    ensures SameText(a, b) && SameText(b, c) ==> SameText(a, c)
  {
  }

  /** Texts that differ in the case of a letter compare equal: "Family" is equal to "family". */
  lemma {:induction false} CaseIsIgnored()
    ensures SameText("Family", "family")
    ensures "Family" != "family"
  {
    assert FoldCase("Family") == "family";
    assert FoldCase("family") == "family";
  }

  /** Texts that compare equal have the same length and agree at every position where neither
      holds a capital letter: only case is ignored. */
  lemma {:induction false} SameTextOnlyIgnoresCase(a: string, b: string, k: nat)
    requires SameText(a, b)
    ensures |a| == |b|
    ensures k < |a| && Lower(a[k]) == a[k] && Lower(b[k]) == b[k] ==> a[k] == b[k]
  {
    assert |FoldCase(a)| == |FoldCase(b)|;
    if k < |a| {
      assert FoldCase(a)[k] == FoldCase(b)[k];
    }
  }
}
