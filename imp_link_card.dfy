/** The labels a link card shows: its category as words ("learning-docs" reads
    "Learning Docs") and its type as a capitalised word; and the open action. */
module ImpLinkCard {
  import opened Text
  import opened Collections

  /** `cat.split("-").map(capitalise).join(" ")`; with no empty guard this is also
      `formatCategoryLabel` of the link dialog and of the links page. */
  function CategoryWords(cat: string): string {
    Words(Split(cat, '-'))
  }

  /** The capitalised parts joined with spaces. */
  function Words(parts: seq<string>): string {
    Join(Map(parts, Capitalize), " ")
  }

  /** `formatCategory`: "" for an empty category, else its words. */
  function FormatCategory(cat: string): (r: string)
    ensures cat == "" ==> r == ""
  {
    if cat == "" then "" else CategoryWords(cat)
  }

  /** The reference reading of the category label, one character at a time: a hyphen
      becomes a space, a character that starts a part is upper-cased, every other
      character is kept. `atStart` says whether `s` starts a part. */
  function TitleCase(s: string, atStart: bool): (r: string)
    ensures |r| == |s|
  {
    seq(|s|, i requires 0 <= i < |s| =>
      if s[i] == '-' then ' '
      else if (i == 0 && atStart) || (i > 0 && s[i - 1] == '-') then UpperChar(s[i])
      else s[i])
  }

  /** The reading of the first character, then the rest read with "a part starts
      here" exactly when the first character is a hyphen. */
  lemma TitleCaseCons(s: string, atStart: bool)
    requires s != []
    ensures TitleCase(s, atStart) == [if s[0] == '-' then ' ' else if atStart then UpperChar(s[0]) else s[0]]
                                     + TitleCase(s[1..], s[0] == '-')
  {
    var r := TitleCase(s, atStart);
    var rest := TitleCase(s[1..], s[0] == '-');
    forall i | 0 < i < |s| ensures r[i] == rest[i - 1] {
      assert s[1..][i - 1] == s[i];
      if i > 1 {
        assert s[1..][i - 2] == s[i - 1];
      }
    }
  }

  /** The first part as it is, then a space and the remaining parts' words: the label
      of a string that continues a part. */
  function Continued(parts: seq<string>): string
    requires |parts| >= 1
  {
    parts[0] + (if |parts| > 1 then " " + Words(parts[1..]) else "")
  }

  lemma WordsCons(parts: seq<string>)
    requires |parts| >= 1
    ensures Words(parts) == Capitalize(parts[0]) + (if |parts| > 1 then " " + Words(parts[1..]) else "")
  {
    var m := Map(parts, Capitalize);
    if |parts| > 1 {
      assert m[1..] == Map(parts[1..], Capitalize);
    }
  }

  /** The split/capitalise/join label is the character-by-character reading. */
  lemma {:induction false} CategoryWordsAreTitleCase(s: string)
    ensures CategoryWords(s) == TitleCase(s, true)
    decreases |s|, 1
  {
    if s != [] {
      var rest := Split(s[1..], '-');
      if s[0] == '-' {
        CategoryWordsAreTitleCase(s[1..]);
        TitleCaseCons(s, true);
        WordsCons([""] + rest);
        assert ([""] + rest)[1..] == rest;
      } else {
        var parts := [[s[0]] + rest[0]] + rest[1..];
        ContinuedIsTitleCase(s[1..]);
        TitleCaseCons(s, true);
        WordsCons(parts);
        assert parts[1..] == rest[1..];
        assert Capitalize(parts[0]) == [UpperChar(s[0])] + rest[0];
      }
    }
  }

  lemma {:induction false} ContinuedIsTitleCase(t: string)
    ensures Continued(Split(t, '-')) == TitleCase(t, false)
    decreases |t|, 0
  {
    if t != [] {
      var rest := Split(t[1..], '-');
      if t[0] == '-' {
        CategoryWordsAreTitleCase(t[1..]);
        TitleCaseCons(t, false);
        assert ([""] + rest)[1..] == rest;
      } else {
        var parts := [[t[0]] + rest[0]] + rest[1..];
        ContinuedIsTitleCase(t[1..]);
        TitleCaseCons(t, false);
        assert parts[1..] == rest[1..];
      }
    }
  }

  /** So the label has the category's length, each hyphen becomes a space, and only
      the first character of each part can change (it is upper-cased). */
  lemma FormatCategoryShape(cat: string)
    ensures |FormatCategory(cat)| == |cat|
    ensures forall i :: 0 <= i < |cat| && cat[i] == '-' ==> FormatCategory(cat)[i] == ' '
    ensures forall i :: 0 < i < |cat| && cat[i] != '-' && cat[i - 1] != '-' ==> FormatCategory(cat)[i] == cat[i]
    ensures forall i :: 0 <= i < |cat| && cat[i] != '-' && (i == 0 || cat[i - 1] == '-') ==>
              FormatCategory(cat)[i] == UpperChar(cat[i])
  {
    CategoryWordsAreTitleCase(cat);
    var r := TitleCase(cat, true);
    assert FormatCategory(cat) == r;
    assert forall i :: 0 <= i < |cat| ==> FormatCategory(cat)[i] == r[i];
  }

  /** The empty-category guard changes nothing: `"".split("-")` is `[""]`, which
      formats to "" as well. */
  lemma FormatCategoryGuardRedundant(cat: string)
    ensures FormatCategory(cat) == CategoryWords(cat)
  {
    CategoryWordsAreTitleCase(cat);
  }

  /** `formatType`: "" for an empty type; "office" and "personal" in any case give
      "Office" and "Personal"; any other type is lower-cased and capitalised. */
  function FormatType(kind: string): (r: string)
    ensures kind == "" ==> r == ""
    ensures Lower(kind) == "office" ==> r == "Office"
    ensures Lower(kind) == "personal" ==> r == "Personal"
    ensures kind != "" && Lower(kind) != "office" && Lower(kind) != "personal" ==> r == Capitalize(Lower(kind))
  {
    if kind == "" then ""
    else
      var t := Lower(kind);
      if t == "office" then "Office"
      else if t == "personal" then "Personal"
      else Capitalize(t)
  }

  /** The two named cases are the general rule: every type label is the lower-cased
      type with its first character upper-cased. */
  lemma FormatTypeIsCapitalizedLower(kind: string)
    ensures FormatType(kind) == Capitalize(Lower(kind))
  {
    CapitalizedWorkspaces();
  }

  lemma CapitalizedWorkspaces()
    ensures Capitalize("office") == "Office" && Capitalize("personal") == "Personal"
  {
    assert "office"[1..] == "ffice";
    assert "personal"[1..] == "ersonal";
  }

  /** `handleOpen`: the URL handed to `onOpen`, or nothing when the card has none. */
  function OpenTarget(link: string): (r: Option<string>)
    ensures r.None? <==> link == ""
    ensures r.Some? ==> r.value == link
  {
    if link == "" then None else Some(link)
  }
}
