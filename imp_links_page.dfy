/** The links page of one workspace: which links are shown, the category and tag
    choices offered, the search/tag/category filter, and the delete-with-undo flow. */
module ImpLinksPage {
  import opened Text
  import opened Collections
  import opened Api
  import opened ImpLinkModel
  import opened UseImpLinks
  import DeleteUndo

  /** `visibleLinks`: the links not hidden by a pending or finished delete, in order. */
  function VisibleLinks(links: seq<Link>, hidden: seq<string>): (visible: seq<Link>)
    ensures forall l :: l in visible <==> l in links && l.id !in hidden
    ensures Subseq(visible, links)
  {
    FilterIsSubseq(links, (l: Link) => l.id !in hidden);
    Filter(links, (l: Link) => l.id !in hidden)
  }

  function TrimmedCategory(l: Link): string {
    Trim(l.category)
  }

  predicate HasCategory(l: Link) {
    Trim(l.category) != ""
  }

  /** `allCategories`: the distinct trimmed non-blank categories of all links, hidden
      ones included, sorted. */
  function AllCategories(links: seq<Link>): (cats: seq<string>)
    ensures Sorted(cats, StrLe) && NoDup(cats)
    ensures forall c :: c in cats <==> exists l :: l in links && HasCategory(l) && c == TrimmedCategory(l)
  {
    var named := Filter(links, HasCategory);
    MapMembership(named, TrimmedCategory);
    SortedSet(Map(named, TrimmedCategory))
  }

  /** The category filter: none selected, or exactly the selected one (untrimmed). */
  predicate InCategory(l: Link, selectedCategory: string) {
    selectedCategory == "" || l.category == selectedCategory
  }

  function Tags(l: Link): seq<string> {
    l.tags
  }

  /** `tagsForSelectedCategory`: the distinct tags of the visible links in the selected
      category (of all visible links when none is selected), sorted. */
  function TagsForCategory(visible: seq<Link>, selectedCategory: string): (tags: seq<string>)
    ensures Sorted(tags, StrLe) && NoDup(tags)
    ensures forall t :: t in tags <==> exists l :: l in visible && InCategory(l, selectedCategory) && t in l.tags
  {
    var inCat := Filter(visible, (l: Link) => InCategory(l, selectedCategory));
    var lists := Map(inCat, Tags);
    MapMembership(inCat, Tags);
    SortedSet(Flatten(lists))
  }

  /** The lowercased text a search looks in: name, description and the tags joined
      with spaces, separated by spaces. */
  function SearchText(l: Link): string {
    Lower(l.name + " " + l.description + " " + Join(l.tags, " "))
  }

  /** The search: a blank term matches everything, otherwise the trimmed lowercased
      term must occur in the search text. */
  predicate MatchesSearch(l: Link, searchTerm: string) {
    var term := Lower(Trim(searchTerm));
    term == "" || Includes(SearchText(l), term)
  }

  /** The link carries every selected tag. */
  predicate HasAllTags(l: Link, selectedTags: seq<string>) {
    forall t :: t in selectedTags ==> t in l.tags
  }

  predicate Shown(l: Link, searchTerm: string, selectedTags: seq<string>, selectedCategory: string) {
    InCategory(l, selectedCategory) && MatchesSearch(l, searchTerm) && HasAllTags(l, selectedTags)
  }

  /** `filteredLinks`: the visible links in the category that match the search and
      carry all selected tags, in order. */
  function FilteredLinks(visible: seq<Link>, searchTerm: string, selectedTags: seq<string>, selectedCategory: string)
    : (shown: seq<Link>)
    ensures forall l :: l in shown <==> l in visible && InCategory(l, selectedCategory)
                                        && MatchesSearch(l, searchTerm) && HasAllTags(l, selectedTags)
    ensures Subseq(shown, visible)
  {
    FilterIsSubseq(visible, (l: Link) => Shown(l, searchTerm, selectedTags, selectedCategory));
    Filter(visible, (l: Link) => Shown(l, searchTerm, selectedTags, selectedCategory))
  }

  /** With no category, a blank search and no tags selected, every visible link is
      shown, in order. */
  lemma {:induction false} NoCriteriaShowsAll(visible: seq<Link>, blank: string)
    requires Blank(blank)
    ensures FilteredLinks(visible, blank, [], "") == visible
  {
    TrimEmptyIffBlank(blank);
    FilterAll(visible, (l: Link) => Shown(l, blank, [], ""));
  }

  /** Selecting more tags can only narrow the list. */
  lemma MoreTagsNarrow(visible: seq<Link>, searchTerm: string, fewer: seq<string>, more: seq<string>, cat: string)
    requires forall t :: t in fewer ==> t in more
    ensures forall l :: l in FilteredLinks(visible, searchTerm, more, cat) ==> l in FilteredLinks(visible, searchTerm, fewer, cat)
  {
  }

  /** `toggleTag(tag)`: drop the tag if selected, else append it. */
  function ToggledTags(selected: seq<string>, tag: string): (r: seq<string>)
    ensures tag in r <==> tag !in selected
    ensures forall t :: t != tag ==> (t in r <==> t in selected)
  {
    if tag in selected then Filter(selected, t => t != tag) else selected + [tag]
  }

  /** Toggling the same tag twice gives back the same selection as a set. */
  lemma ToggleTwice(selected: seq<string>, tag: string)
    ensures forall t :: t in ToggledTags(ToggledTags(selected, tag), tag) <==> t in selected
  {
  }

  /** `toggleCategory(cat)`: select it, or clear it when it was already selected. */
  function ToggledCategory(selected: string, cat: string): (r: string)
    ensures selected != cat ==> r == cat
    ensures selected == cat ==> r == ""
  {
    if selected == cat then "" else cat
  }

  class LinksPage {
    const hook: ImpLinksHook
    var hiddenIds: seq<string>
    var pendingDelete: Option<Link>
    var undoTimer: Option<nat>
    /** The armed timers: handle to the id of the link its callback deletes. */
    var timers: map<nat, string>
    var nextHandle: nat
    /** The backend deletes the timer callbacks have requested. */
    ghost var deleteCalls: seq<string>
    /** The ids whose backend delete succeeded. */
    ghost var removed: seq<string>
    var deleteModalOpen: bool
    var linkToDelete: Option<Link>
    var searchTerm: string
    var selectedTags: seq<string>
    var selectedCategory: string

    constructor (hook: ImpLinksHook)
      ensures this.hook == hook && UndoState() == DeleteUndo.Initial
      ensures !deleteModalOpen && linkToDelete.None?
      ensures searchTerm == "" && selectedTags == [] && selectedCategory == ""
    {
      this.hook := hook;
      hiddenIds := [];
      pendingDelete := None;
      undoTimer := None;
      timers := map[];
      nextHandle := 1;
      deleteCalls := [];
      removed := [];
      deleteModalOpen := false;
      linkToDelete := None;
      searchTerm := "";
      selectedTags := [];
      selectedCategory := "";
    }

    /** The delete-with-undo state of the page. */
    ghost function UndoState(): DeleteUndo.State
      reads this`hiddenIds, this`pendingDelete, this`undoTimer, this`timers, this`nextHandle, this`deleteCalls, this`removed
    {
      DeleteUndo.State(hiddenIds, if pendingDelete.Some? then Some(pendingDelete.value.id) else None,
                       undoTimer, timers, nextHandle, deleteCalls, removed)
    }

    /** What the list shows right now. */
    function Displayed(): seq<Link>
      reads this, hook
    {
      FilteredLinks(VisibleLinks(hook.links, hiddenIds), searchTerm, selectedTags, selectedCategory)
    }

    method ToggleTag(tag: string)
      modifies this`selectedTags
      ensures selectedTags == ToggledTags(old(selectedTags), tag)
    {
      if tag in selectedTags {
        selectedTags := Filter(selectedTags, t => t != tag);
      } else {
        selectedTags := selectedTags + [tag];
      }
    }

    /** `clearTagFilters()` */
    method ClearTagFilters()
      modifies this`selectedTags
      ensures selectedTags == []
    {
      selectedTags := [];
    }

    /** `toggleCategory(cat)`: also forgets the selected tags. */
    method ToggleCategory(cat: string)
      modifies this`selectedCategory, this`selectedTags
      ensures selectedCategory == ToggledCategory(old(selectedCategory), cat) && selectedTags == []
    {
      selectedCategory := if selectedCategory == cat then "" else cat;
      selectedTags := [];
    }

    /** `handleDeleteLink(item)` */
    method RequestDelete(item: Link)
      modifies this`linkToDelete, this`deleteModalOpen
      ensures linkToDelete == Some(item) && deleteModalOpen
    {
      linkToDelete := Some(item);
      deleteModalOpen := true;
    }

    /** `cancelDeleteModal()` */
    method CancelDeleteModal()
      modifies this`linkToDelete, this`deleteModalOpen
      ensures linkToDelete.None? && !deleteModalOpen
    {
      deleteModalOpen := false;
      linkToDelete := None;
    }

    /** `confirmDelete()`: nothing without a link chosen; otherwise close the dialog
        and take the confirm step of the flow as written. */
    method ConfirmDelete()
      modifies this
      ensures old(linkToDelete).None? ==> UndoState() == old(UndoState()) && pendingDelete == old(pendingDelete)
                                          && deleteModalOpen == old(deleteModalOpen) && linkToDelete.None?
      ensures old(linkToDelete).Some? ==>
                UndoState() == DeleteUndo.Confirm(old(UndoState()), old(linkToDelete).value.id)
                && pendingDelete == old(linkToDelete) && !deleteModalOpen && linkToDelete.None?
      ensures searchTerm == old(searchTerm) && selectedTags == old(selectedTags) && selectedCategory == old(selectedCategory)
    {
      if linkToDelete.None? {
        return;
      }
      var item := linkToDelete.value;
      CancelDeleteModal();
      Arm(item);
    }

    /** The confirm step: hide the link, cancel the remembered timer and arm a new one. */
    method Arm(item: Link)
      modifies this`hiddenIds, this`pendingDelete, this`undoTimer, this`timers, this`nextHandle
      ensures UndoState() == DeleteUndo.Confirm(old(UndoState()), item.id) && pendingDelete == Some(item)
    {
      hiddenIds := hiddenIds + [item.id];
      pendingDelete := Some(item);
      timers := if undoTimer.Some? then timers - {undoTimer.value} else timers;
      timers := timers[nextHandle := item.id];
      undoTimer := Some(nextHandle);
      nextHandle := nextHandle + 1;
    }

    /** The callback of timer `h` runs with the backend's reply `res`: the hook's
        delete, then the fire step of the flow as written. */
    method TimerFires(h: nat, res: Fetched<Link>)
      requires h in timers
      modifies this, hook`links
      ensures var ok := res.Received? && IsOk(res.reply.status);
              UndoState() == DeleteUndo.Fire(old(UndoState()), h, ok)
      ensures var id := old(timers)[h];
              res.Received? && IsOk(res.reply.status) ==> hook.links == Filter(old(hook.links), (l: Link) => l.id != id)
      ensures !(res.Received? && IsOk(res.reply.status)) ==> hook.links == old(hook.links)
      ensures searchTerm == old(searchTerm) && selectedTags == old(selectedTags) && selectedCategory == old(selectedCategory)
      ensures deleteModalOpen == old(deleteModalOpen) && linkToDelete == old(linkToDelete)
    {
      var outcome := hook.DeleteLink(timers[h], res);
      Disarm(h, !outcome.Thrown?);
    }

    /** The fire step: record the delete, unhide the link unless it was deleted, and
        clear the pending slot. */
    method Disarm(h: nat, deleted: bool)
      requires h in timers
      modifies this`hiddenIds, this`pendingDelete, this`undoTimer, this`timers, this`deleteCalls, this`removed
      ensures UndoState() == DeleteUndo.Fire(old(UndoState()), h, deleted)
    {
      var id := timers[h];
      deleteCalls := deleteCalls + [id];
      if deleted {
        removed := removed + [id];
      } else {
        hiddenIds := DeleteUndo.Unhide(hiddenIds, id);
      }
      pendingDelete := None;
      undoTimer := None;
      timers := timers - {h};
    }

    /** `handleUndoDelete()` */
    method UndoDelete()
      modifies this
      ensures UndoState() == DeleteUndo.Undo(old(UndoState()))
      ensures searchTerm == old(searchTerm) && selectedTags == old(selectedTags) && selectedCategory == old(selectedCategory)
      ensures deleteModalOpen == old(deleteModalOpen) && linkToDelete == old(linkToDelete)
    {
      if pendingDelete.None? {
        return;
      }
      timers := if undoTimer.Some? then timers - {undoTimer.value} else timers;
      hiddenIds := DeleteUndo.Unhide(hiddenIds, pendingDelete.value.id);
      pendingDelete := None;
      undoTimer := None;
    }
  }
}
