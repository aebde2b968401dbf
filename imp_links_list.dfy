/** The link list of a workspace page: a loading, error or empty notice, or the links
    grouped into one section per trimmed category, sections in name order. The
    grouping uses a plain object, so a category named like an inherited property
    makes it throw. */
module ImpLinksList {
  import opened Text
  import opened Collections
  import opened ImpLinkModel

  /** The section a link is listed under: `item.category?.trim() || "uncategorized"`. */
  function GroupKey(l: Link): (k: string)
    ensures k != ""
    ensures Trim(l.category) != "" ==> k == Trim(l.category)
    ensures Trim(l.category) == "" ==> k == "uncategorized"
  {
    if Trim(l.category) != "" then Trim(l.category) else "uncategorized"
  }

  function InGroup(k: string): Link -> bool {
    (l: Link) => GroupKey(l) == k
  }

  /** Some link of `links` is listed under `k`. */
  predicate HasKey(links: seq<Link>, k: string) {
    exists j :: 0 <= j < |links| && GroupKey(links[j]) == k
  }

  /** The properties every plain object `{}` inherits from `Object.prototype`. Reading
      one of them from the accumulator gives a truthy function or object, not an array. */
  const InheritedNames: set<string> := {
    "constructor", "hasOwnProperty", "isPrototypeOf", "propertyIsEnumerable", "toLocaleString",
    "toString", "valueOf", "__proto__", "__defineGetter__", "__defineSetter__",
    "__lookupGetter__", "__lookupSetter__"}

  /** Some link is grouped under an inherited name: `acc[cat]` is then truthy, so no
      array is created, and `acc[cat].push` is not a function and throws. */
  predicate HitsInheritedKey(links: seq<Link>) {
    exists j :: 0 <= j < |links| && Inherited(GroupKey(links[j]))
  }

  predicate Inherited(k: string) {
    k in InheritedNames
  }

  /** One more link that is not under an inherited name keeps the prefix clear. */
  lemma StillClear(links: seq<Link>, i: nat)
    requires i < |links| && !HitsInheritedKey(links[..i]) && !Inherited(GroupKey(links[i]))
    ensures !HitsInheritedKey(links[..i + 1])
  {
    TakeOneMore(links, i);
    assert forall j :: 0 <= j < i ==> links[..i + 1][j] == links[..i][j];
  }

  /** A link whose category is "constructor", padded or not, makes the grouping throw. */
  lemma InheritedCategoryThrows(l: Link, links: seq<Link>)
    requires Trim(l.category) == "constructor"
    ensures HitsInheritedKey(links + [l])
  {
    assert (links + [l])[|links|] == l;
  }

  /** The `reduce` that pushes every link onto the list of its group, over a `{}`
      accumulator: `None` when it throws on an inherited key. */
  method GroupByCategory(links: seq<Link>) returns (grouped: Option<map<string, seq<Link>>>)
    ensures grouped.None? <==> HitsInheritedKey(links)
    ensures grouped.Some? ==> forall k :: k in grouped.value <==> HasKey(links, k)
    ensures grouped.Some? ==> forall k :: k in grouped.value ==> grouped.value[k] == Filter(links, InGroup(k))
  {
    var acc := map[];
    var i := 0;
    while i < |links|
      invariant 0 <= i <= |links|
      invariant !HitsInheritedKey(links[..i])
      invariant forall k :: k in acc <==> HasKey(links[..i], k)
      invariant forall k :: k in acc ==> acc[k] == Filter(links[..i], InGroup(k))
    {
      if Inherited(GroupKey(links[i])) {
        return None;
      }
      acc := GroupStep(links[..i], links[i], acc);
      StillClear(links, i);
      TakeOneMore(links, i);
      i := i + 1;
    }
    TakeAll(links);
    grouped := Some(acc);
  }

  /** One `push`: the link goes to the end of its group, which is created empty
      when it does not exist yet. */
  function GroupStep(done: seq<Link>, item: Link, grouped: map<string, seq<Link>>): (r: map<string, seq<Link>>)
    requires forall k :: k in grouped <==> HasKey(done, k)
    requires forall k :: k in grouped ==> grouped[k] == Filter(done, InGroup(k))
    ensures forall k :: k in r <==> HasKey(done + [item], k)
    ensures forall k :: k in r ==> r[k] == Filter(done + [item], InGroup(k))
  {
    var cat := GroupKey(item);
    var list := if cat in grouped then grouped[cat] else [];
    GroupStepKeeps(done, item, grouped);
    grouped[cat := list + [item]]
  }

  lemma GroupStepKeeps(done: seq<Link>, item: Link, grouped: map<string, seq<Link>>)
    requires forall k :: k in grouped <==> HasKey(done, k)
    requires forall k :: k in grouped ==> grouped[k] == Filter(done, InGroup(k))
    ensures var cat := GroupKey(item);
            var r := grouped[cat := (if cat in grouped then grouped[cat] else []) + [item]];
            (forall k :: k in r <==> HasKey(done + [item], k)) &&
            (forall k :: k in r ==> r[k] == Filter(done + [item], InGroup(k)))
  {
    var cat := GroupKey(item);
    var r := grouped[cat := (if cat in grouped then grouped[cat] else []) + [item]];
    assert (done + [item])[|done|] == item;
    assert forall j :: 0 <= j < |done| ==> (done + [item])[j] == done[j];
    assert forall k :: HasKey(done + [item], k) <==> HasKey(done, k) || k == cat;
    forall k | k in r
      ensures r[k] == Filter(done + [item], InGroup(k))
    {
      FilterSnoc(done, item, InGroup(k));
      if k == cat && cat !in grouped {
        FilterNone(done, InGroup(k));
      }
    }
  }

  /** A section's heading: "Other" for the "uncategorized" group, else the key with
      its hyphens turned into spaces (`split("-").join(" ")`). */
  function Heading(key: string): (h: string)
    ensures key == "uncategorized" ==> h == "Other"
  {
    if key == "uncategorized" then "Other" else Join(Split(key, '-'), " ")
  }

  /** The heading has the key's characters with each hyphen a space. */
  lemma HeadingReplacesHyphens(key: string)
    requires key != "uncategorized"
    ensures Heading(key) == ReplaceChar(key, '-', ' ')
  {
    SplitJoinReplaces(key, '-', ' ');
  }

  datatype Section = Section(key: string, heading: string, links: seq<Link>)

  /** What the list shows. */
  datatype View = Loading | Failed(message: string) | Empty | Sections(sections: seq<Section>)
                | Crashed

  /** The number of links over all sections. */
  function TotalSize(sections: seq<Section>): nat {
    if sections == [] then 0 else |sections[0].links| + TotalSize(sections[1..])
  }

  /** The section of key `k`: its heading and the links listed under it. */
  function SectionMaker(links: seq<Link>): string -> Section {
    (k: string) => Section(k, Heading(k), Filter(links, InGroup(k)))
  }

  /** The sections of a non-empty list: one per group key, keys in sorted order. */
  function SectionsFor(links: seq<Link>): seq<Section> {
    Map(SortedSet(Map(links, GroupKey)), SectionMaker(links))
  }

  /** `ImpLinksList`: loading first, then the error, then the empty notice, then the
      sections; the grouping throws, and the list does not render, when a link falls
      under an inherited name. `links` is `None` when the prop is missing; `error` is
      "" when there is none. */
  method Render(links: Option<seq<Link>>, loading: bool, error: string) returns (view: View)
    ensures loading ==> view == Loading
    ensures !loading && error != "" ==> view == Failed(error)
    ensures !loading && error == "" && (links.None? || links.value == []) ==> view == Empty
    ensures !loading && error == "" && links.Some? && links.value != [] && HitsInheritedKey(links.value) ==>
              view == Crashed
    ensures !loading && error == "" && links.Some? && links.value != [] && !HitsInheritedKey(links.value) ==>
              view == Sections(SectionsFor(links.value))
  {
    if loading {
      return Loading;
    }
    if error != "" {
      return Failed(error);
    }
    if links.None? || links.value == [] {
      return Empty;
    }
    var grouped := GroupByCategory(links.value);
    if grouped.None? {
      return Crashed;
    }
    var sections := BuildSections(links.value, grouped.value);
    view := Sections(sections);
  }

  /** `sortedCategories.map(...)`: a section per sorted key, holding that key's group. */
  method BuildSections(items: seq<Link>, grouped: map<string, seq<Link>>) returns (sections: seq<Section>)
    requires forall k :: k in grouped <==> HasKey(items, k)
    requires forall k :: k in grouped ==> grouped[k] == Filter(items, InGroup(k))
    ensures sections == SectionsFor(items)
  {
    var keys := SortedSet(Map(items, GroupKey));
    sections := [];
    var i := 0;
    while i < |keys|
      invariant 0 <= i <= |keys|
      invariant sections == Map(keys[..i], SectionMaker(items))
    {
      var key := keys[i];
      NextSection(items, grouped, keys, i);
      sections := sections + [Section(key, Heading(key), grouped[key])];
      i := i + 1;
    }
    TakeAll(keys);
  }

  /** The key at `i` has a group, and its section is the next one. */
  lemma NextSection(items: seq<Link>, grouped: map<string, seq<Link>>, keys: seq<string>, i: nat)
    requires forall k :: k in grouped <==> HasKey(items, k)
    requires forall k :: k in grouped ==> grouped[k] == Filter(items, InGroup(k))
    requires forall k :: k in keys ==> k in Map(items, GroupKey)
    requires i < |keys|
    ensures keys[i] in grouped
    ensures Map(keys[..i + 1], SectionMaker(items))
            == Map(keys[..i], SectionMaker(items)) + [Section(keys[i], Heading(keys[i]), grouped[keys[i]])]
  {
    var k := keys[i];
    KeyOfSomeLink(items, k);
    assert grouped[k] == Filter(items, InGroup(k));
    MapSnoc(keys[..i], k, SectionMaker(items));
    TakeOneMore(keys, i);
  }

  lemma KeyOfSomeLink(links: seq<Link>, k: string)
    requires k in Map(links, GroupKey)
    ensures HasKey(links, k)
  {
    var j :| 0 <= j < |links| && Map(links, GroupKey)[j] == k;
  }

  function KeyOf(s: Section): string {
    s.key
  }

  /** The sections list the group keys in sorted order, each once, each with its
      heading and exactly the links of its group, never empty; together they hold
      every link. */
  lemma SectionsListEveryLinkOnce(links: seq<Link>)
    ensures var sections := SectionsFor(links);
            Sorted(Map(sections, KeyOf), StrLe) && NoDup(Map(sections, KeyOf))
            && (forall s :: s in sections ==>
                  s.heading == Heading(s.key) && s.links == Filter(links, InGroup(s.key)) && s.links != [])
            && TotalSize(sections) == |links|
  {
    SectionKeys(links);
    SectionContents(links);
    SectionsTotal(links);
  }

  /** The sections' keys are the sorted distinct keys of the links. */
  lemma SectionKeys(links: seq<Link>)
    ensures Map(SectionsFor(links), KeyOf) == SortedSet(Map(links, GroupKey))
  {
    var keys := SortedSet(Map(links, GroupKey));
    var m := Map(SectionsFor(links), KeyOf);
    assert forall i :: 0 <= i < |keys| ==> m[i] == keys[i];
  }

  /** Each section has its heading and exactly its key's links, at least one. */
  lemma SectionContents(links: seq<Link>)
    ensures forall s :: s in SectionsFor(links) ==>
              s.heading == Heading(s.key) && s.links == Filter(links, InGroup(s.key)) && s.links != []
  {
    var keys := SortedSet(Map(links, GroupKey));
    var sections := SectionsFor(links);
    forall s | s in sections
      ensures s.heading == Heading(s.key) && s.links == Filter(links, InGroup(s.key)) && s.links != []
    {
      var i :| 0 <= i < |sections| && sections[i] == s;
      assert s.key == keys[i] && keys[i] in Map(links, GroupKey);
      KeyOfSomeLink(links, s.key);
      var j :| 0 <= j < |links| && GroupKey(links[j]) == s.key;
      InOwnGroup(links, j);
    }
  }

  /** A link is in its own group. */
  lemma InOwnGroup(links: seq<Link>, j: nat)
    requires j < |links|
    ensures links[j] in Filter(links, InGroup(GroupKey(links[j])))
  {
    assert links[j] in links;
  }

  /** Together the sections hold as many links as the list. */
  lemma SectionsTotal(links: seq<Link>)
    ensures TotalSize(SectionsFor(links)) == |links|
  {
    var keys := SortedSet(Map(links, GroupKey));
    MapMembership(links, GroupKey);
    SizeUnderAllKeys(keys, links);
    TotalSizeOfSections(keys, links);
  }

  /** The number of links listed under the keys. */
  function SizeUnder(keys: seq<string>, links: seq<Link>): nat {
    if keys == [] then 0 else |Filter(links, InGroup(keys[0]))| + SizeUnder(keys[1..], links)
  }

  /** Listing each key once, over all the links' keys, lists every link exactly once. */
  lemma {:induction false} SizeUnderAllKeys(keys: seq<string>, links: seq<Link>)
    requires NoDup(keys) && forall l :: l in links ==> GroupKey(l) in keys
    ensures SizeUnder(keys, links) == |links|
  {
    if links == [] {
      SizeUnderNoLinks(keys);
    } else {
      assert forall l :: l in links[1..] ==> l in links;
      SizeUnderAllKeys(keys, links[1..]);
      SizeUnderCons(keys, links[0], links[1..]);
      assert links == [links[0]] + links[1..];
      assert links[0] in links && GroupKey(links[0]) in multiset(keys);
      NoDupCount(keys, GroupKey(links[0]));
    }
  }

  lemma {:induction false} SizeUnderNoLinks(keys: seq<string>)
    ensures SizeUnder(keys, []) == 0
  {
    if keys != [] {
      SizeUnderNoLinks(keys[1..]);
    }
  }

  /** Adding a link in front adds one for each listing of its key. */
  lemma {:induction false} SizeUnderCons(keys: seq<string>, x: Link, rest: seq<Link>)
    ensures SizeUnder(keys, [x] + rest) == SizeUnder(keys, rest) + multiset(keys)[GroupKey(x)]
  {
    if keys != [] {
      SizeUnderCons(keys[1..], x, rest);
      FilterCons(x, rest, InGroup(keys[0]));
      assert keys == [keys[0]] + keys[1..];
    }
  }

  lemma {:induction false} TotalSizeOfSections(keys: seq<string>, links: seq<Link>)
    ensures TotalSize(Map(keys, SectionMaker(links))) == SizeUnder(keys, links)
  {
    if keys != [] {
      TotalSizeOfSections(keys[1..], links);
      assert Map(keys, SectionMaker(links))[1..] == Map(keys[1..], SectionMaker(links));
    }
  }

  /** Every link is listed in the section of its key and in no other. */
  lemma ListedOnce(links: seq<Link>, l: Link, k: string)
    requires l in links
    ensures l in Filter(links, InGroup(k)) <==> k == GroupKey(l)
  {
  }

  /** Within a section the links keep their order in the list. */
  lemma SectionKeepsOrder(links: seq<Link>, k: string)
    ensures Subseq(Filter(links, InGroup(k)), links)
  {
    FilterIsSubseq(links, InGroup(k));
  }
}
