/** The add/edit link dialog: its form, the duplicate-free tag list, the category
    choices merged from the database and the defaults, the inline "new category"
    action, validation, and the payload it submits. Responses of the network calls
    and the outcome of `onSubmit` are parameters. */
module AddImpLinkModal {
  import opened Text
  import opened Collections
  import opened Api
  import opened ImpLinkModel
  import ImpLinkController

  const DefaultCategories: seq<string> := ["learning-docs", "coding-links", "insta-links", "yt-links"]

  datatype LinkForm = LinkForm(name: string, link: string, description: string, category: string)

  const EmptyForm := LinkForm("", "", "", "")

  /** The error texts shown under the fields; `None` is no error. */
  datatype FormErrors = FormErrors(name: Option<string>, link: Option<string>, kind: Option<string>,
                                   category: Option<string>, submit: Option<string>)

  const NoErrors := FormErrors(None, None, None, None, None)

  /** `(initialData?.type || linkType || "").toLowerCase()`; "" is a missing value. */
  function EffectiveType(initialType: string, linkType: string): (r: string)
    ensures initialType != "" ==> r == Lower(initialType)
    ensures initialType == "" ==> r == Lower(linkType)
  {
    Lower(if initialType != "" then initialType else linkType)
  }

  /** `validate`: an error for a blank name, for a blank or unparsable link, and for a
      type that is not a workspace. `validUrl` is whether `new URL(...)` accepts. */
  function Validate(form: LinkForm, effectiveType: string, validUrl: string -> bool): (r: FormErrors)
    ensures r.category.None? && r.submit.None?
    ensures Blank(form.name) ==> r.name == Some("Name is required")
    ensures !Blank(form.name) ==> r.name.None?
    ensures Blank(form.link) ==> r.link == Some("Link is required")
    ensures !Blank(form.link) && !validUrl(Trim(form.link)) ==> r.link == Some("Please enter a valid URL (https://...)")
    ensures !Blank(form.link) && validUrl(Trim(form.link)) ==> r.link.None?
    ensures effectiveType !in Workspaces ==> r.kind == Some("Invalid or missing type (office/personal)")
    ensures effectiveType in Workspaces ==> r.kind.None?
  {
    TrimEmptyIffBlank(form.name);
    TrimEmptyIffBlank(form.link);
    FormErrors(
      if Trim(form.name) == "" then Some("Name is required") else None,
      if Trim(form.link) == "" then Some("Link is required")
      else if !validUrl(Trim(form.link)) then Some("Please enter a valid URL (https://...)")
      else None,
      if effectiveType == "" || effectiveType !in Workspaces then Some("Invalid or missing type (office/personal)")
      else None,
      None, None)
  }

  /** What `onSubmit` receives. */
  datatype LinkPayload = LinkPayload(name: string, link: string, category: string, tags: seq<string>,
                                     description: string, kind: string)

  /** `buildPayload`: the text fields trimmed, the tags as they are, and the effective type. */
  function BuildPayload(form: LinkForm, tags: seq<string>, effectiveType: string): (p: LinkPayload)
    ensures IsTrimmed(p.name) && IsTrimmed(p.link) && IsTrimmed(p.category) && IsTrimmed(p.description)
    ensures p.tags == tags && p.kind == effectiveType
  {
    LinkPayload(Trim(form.name), Trim(form.link), Trim(form.category), tags, Trim(form.description), effectiveType)
  }

  /** The payload as the JSON body the server destructures. */
  function AsBody(p: LinkPayload): ImpLinkController.LinkBody {
    ImpLinkController.LinkBody(Str(p.name), Str(p.link), Arr(ImpLinkController.AsValues(p.tags)),
                               Str(p.description), Str(p.category), Str(p.kind))
  }

  /** The form and the server agree: a form that passes `validate`, with clean tags,
      submits a body that the server's checks accept, and the server stores exactly
      the payload's values. */
  lemma ValidFormIsAccepted(form: LinkForm, tags: seq<string>, effectiveType: string, validUrl: string -> bool)
    requires Validate(form, effectiveType, validUrl) == NoErrors
    requires forall t :: t in tags ==> ImpLinkController.CleanTag(t)
    ensures var p := BuildPayload(form, tags, effectiveType);
            var r := ImpLinkController.CheckLink(AsBody(p), validUrl);
            r.Accept? && r.data == Fields(p.name, p.link, Some(p.tags), Some(p.category), Some(p.description), p.kind)
  {
    var p := BuildPayload(form, tags, effectiveType);
    var b := AsBody(p);
    TrimEmptyIffBlank(form.name);
    TrimEmptyIffBlank(form.link);
    TrimmedText(p.name);
    TrimmedText(p.link);
    TrimmedText(p.category);
    TrimmedText(p.description);
    WorkspaceIsTrimmed(p.kind);
    TrimmedText(p.kind);
    assert ImpLinkController.PassesChecks(b, validUrl);
    ImpLinkController.NormalizeCleanTags(tags);
  }

  /** The server reads a trimmed text back unchanged, whichever of its readers it uses. */
  lemma TrimmedText(s: string)
    requires IsTrimmed(s)
    ensures Trim(s) == s && (s != "" <==> !Blank(s))
    ensures ImpLinkController.CategoryText(Str(s)) == s && ImpLinkController.DescriptionText(Str(s)) == s
    ensures ImpLinkController.NormalizedType(Str(s)) == s
  {
    TrimOfTrimmed(s);
    TrimEmptyIffBlank(s);
  }

  /** `prev.includes(name) ? prev : [...prev, name].sort(localeCompare)` */
  function WithCategory(cats: seq<string>, name: string): (r: seq<string>)
    ensures forall x :: x in r <==> x in cats || x == name
    ensures name in cats ==> r == cats
    ensures name !in cats ==> Sorted(r, StrLe) && |r| == |cats| + 1
    ensures NoDup(cats) ==> NoDup(r)
  {
    if name in cats then cats
    else
      StrLeIsTotal();
      var r := Sort(cats + [name], StrLe);
      assert forall x :: x in r <==> x in multiset(cats + [name]);
      SortedWithNew(cats, name, r);
      r
  }

  lemma SortedWithNew(cats: seq<string>, name: string, r: seq<string>)
    requires name !in cats && multiset(r) == multiset(cats + [name])
    ensures NoDup(cats) ==> NoDup(r)
  {
    if NoDup(cats) {
      assert NoDup(cats + [name]);
      NoDupPermutation(cats + [name], r);
    }
  }

  /** Adding to a sorted duplicate-free list keeps it so. */
  lemma WithCategoryKeepsOrder(cats: seq<string>, name: string)
    requires Sorted(cats, StrLe) && NoDup(cats)
    ensures Sorted(WithCategory(cats, name), StrLe) && NoDup(WithCategory(cats, name))
  {
  }

  /** The whole state of the dialog. */
  datatype ModalState = ModalState(form: LinkForm, tags: seq<string>, tagInput: string, categories: seq<string>,
                                   newCategoryInput: string, showAddCategory: bool, errors: FormErrors,
                                   loading: bool, successMessage: string)

  class LinkDialog {
    var form: LinkForm
    var tags: seq<string>
    var tagInput: string
    var categories: seq<string>
    var newCategoryInput: string
    var showAddCategory: bool
    var errors: FormErrors
    var loading: bool
    var successMessage: string

    function State(): ModalState
      reads this
    {
      ModalState(form, tags, tagInput, categories, newCategoryInput, showAddCategory, errors, loading, successMessage)
    }

    /** The initial `useState` values. */
    constructor ()
      ensures State() == ModalState(EmptyForm, [], "", [], "", false, NoErrors, false, "")
    {
      form, tags, tagInput, categories := EmptyForm, [], "", [];
      newCategoryInput, showAddCategory, errors, loading, successMessage := "", false, NoErrors, false, "";
    }

    /** `resetForm`: every field empty, no errors; categories and loading are kept. */
    method ResetForm()
      modifies this
      ensures State() == old(State()).(form := EmptyForm, tags := [], tagInput := "", newCategoryInput := "",
                                       showAddCategory := false, errors := NoErrors, successMessage := "")
    {
      form, tags, tagInput, newCategoryInput := EmptyForm, [], "", "";
      showAddCategory, errors, successMessage := false, NoErrors, "";
    }

    /** The open effect's prefill: an edit of a link copies its fields and tags and
        clears the messages; a create without a link resets the form; any other
        combination leaves the form as it is. */
    method Prefill(isEdit: bool, initial: Option<Link>)
      modifies this
      ensures isEdit && initial.Some? ==>
                State() == old(State()).(form := LinkForm(initial.value.name, initial.value.link,
                                                          initial.value.description, initial.value.category),
                                         tags := initial.value.tags, tagInput := "", errors := NoErrors,
                                         successMessage := "")
      ensures !isEdit && initial.None? ==>
                State() == old(State()).(form := EmptyForm, tags := [], tagInput := "", newCategoryInput := "",
                                         showAddCategory := false, errors := NoErrors, successMessage := "")
      ensures isEdit != initial.Some? ==> State() == old(State())
    {
      if isEdit && initial.Some? {
        var l := initial.value;
        form := LinkForm(l.name, l.link, l.description, l.category);
        tags, tagInput, errors, successMessage := l.tags, "", NoErrors, "";
      }
      if !isEdit && initial.None? {
        ResetForm();
      }
    }

    /** `fetchCategories`: the database names merged with the defaults, sorted and
        without duplicates; the defaults alone when the request fails. */
    method FetchCategories(response: Fetched<seq<string>>)
      modifies this
      ensures response.NetworkError? || !IsOk(response.reply.status) ==>
                State() == old(State()).(categories := DefaultCategories)
      ensures response.Received? && IsOk(response.reply.status) ==>
                State() == old(State()).(categories := SortedSet(response.reply.body.data.GetOr([]) + DefaultCategories))
    {
      if response.NetworkError? || !IsOk(response.reply.status) {
        categories := DefaultCategories;
      } else {
        categories := SortedSet(response.reply.body.data.GetOr([]) + DefaultCategories);
      }
    }

    /** The edit effect: the edited link's category joins the choices if missing. */
    method KeepEditedCategory(isEdit: bool, initial: Option<Link>)
      modifies this
      ensures isEdit && initial.Some? && initial.value.category != "" ==>
                State() == old(State()).(categories := WithCategory(old(categories), initial.value.category))
      ensures !(isEdit && initial.Some? && initial.value.category != "") ==> State() == old(State())
    {
      if isEdit && initial.Some? && initial.value.category != "" {
        categories := WithCategory(categories, initial.value.category);
      }
    }

    /** `addTagFromInput`: blank input is ignored; a tag already present only clears
        the input; a new tag is appended trimmed and the input cleared. */
    method AddTagFromInput()
      modifies this
      ensures Blank(old(tagInput)) ==> State() == old(State())
      ensures !Blank(old(tagInput)) && Trim(old(tagInput)) in old(tags) ==> State() == old(State()).(tagInput := "")
      ensures !Blank(old(tagInput)) && Trim(old(tagInput)) !in old(tags) ==>
                State() == old(State()).(tags := old(tags) + [Trim(old(tagInput))], tagInput := "")
      ensures NoDup(old(tags)) ==> NoDup(tags)
      ensures (forall t :: t in old(tags) ==> ImpLinkController.CleanTag(t)) ==>
                forall t :: t in tags ==> ImpLinkController.CleanTag(t)
    {
      var value := Trim(tagInput);
      TrimEmptyIffBlank(tagInput);
      if value == "" {
        return;
      }
      if value in tags {
        tagInput := "";
        return;
      }
      tags := tags + [value];
      tagInput := "";
    }

    /** `handleRemoveTag`: every copy of the tag goes, the rest keep their order. */
    method RemoveTag(tag: string)
      modifies this
      ensures State() == old(State()).(tags := Filter(old(tags), (t: string) => t != tag))
      ensures tag !in tags && forall t :: t in old(tags) && t != tag ==> t in tags
      ensures Subseq(tags, old(tags))
      ensures NoDup(old(tags)) ==> |tags| == |old(tags)| - (if tag in old(tags) then 1 else 0)
    {
      RemovingOne(tags, tag);
      FilterIsSubseq(tags, (t: string) => t != tag);
      tags := Filter(tags, (t: string) => t != tag);
    }

    /** `handleAddNewCategory`: blank input is ignored; a refused request or a failed
        call shows a category error; a created (or already existing) category joins
        the choices, is selected, and closes the inline input. */
    method AddNewCategory(response: Fetched<string>)
      modifies this
      ensures Blank(old(newCategoryInput)) ==> State() == old(State())
      ensures !Blank(old(newCategoryInput)) && response.NetworkError? ==>
                State() == old(State()).(errors := old(errors).(category := Some("Something went wrong while adding category")))
      ensures !Blank(old(newCategoryInput)) && response.Received?
              && (!IsOk(response.reply.status) || !response.reply.body.success) ==>
                State() == old(State()).(errors := old(errors).(category :=
                  Some(OrElse(response.reply.body.message, "Failed to add category"))))
      ensures !Blank(old(newCategoryInput)) && response.Received?
              && IsOk(response.reply.status) && response.reply.body.success ==>
                var created := CreatedName(response.reply.body.data, Trim(old(newCategoryInput)));
                State() == old(State()).(categories := WithCategory(old(categories), created),
                                         form := old(form).(category := created), newCategoryInput := "",
                                         showAddCategory := false, errors := old(errors).(category := None))
    {
      var value := Trim(newCategoryInput);
      TrimEmptyIffBlank(newCategoryInput);
      if value == "" {
      } else if response.NetworkError? {
        ShowCategoryError("Something went wrong while adding category");
      } else if !IsOk(response.reply.status) || !response.reply.body.success {
        ShowCategoryError(OrElse(response.reply.body.message, "Failed to add category"));
      } else {
        AcceptCategory(CreatedName(response.reply.body.data, value));
      }
    }

    /** A failed add shows its message under the category field and changes nothing else. */
    method ShowCategoryError(message: string)
      modifies this
      ensures State() == old(State()).(errors := old(errors).(category := Some(message)))
    {
      errors := errors.(category := Some(message));
    }

    /** A created category joins the list, is selected, and the add row closes. */
    method AcceptCategory(created: string)
      modifies this
      ensures State() == old(State()).(categories := WithCategory(old(categories), created),
                                       form := old(form).(category := created), newCategoryInput := "",
                                       showAddCategory := false, errors := old(errors).(category := None))
    {
      categories, form, newCategoryInput, showAddCategory, errors :=
        WithCategory(categories, created), form.(category := created), "", false, errors.(category := None);
    }

    /** The first half of `handleSubmit`: with validation errors they are shown and
        nothing is submitted; otherwise the errors are cleared, loading starts and
        the payload goes to `onSubmit`. */
    method BeginSubmit(effectiveType: string, validUrl: string -> bool) returns (payload: Option<LinkPayload>)
      modifies this
      ensures Validate(old(form), effectiveType, validUrl) != NoErrors ==>
                payload.None? && State() == old(State()).(errors := Validate(old(form), effectiveType, validUrl),
                                                          successMessage := "")
      ensures Validate(old(form), effectiveType, validUrl) == NoErrors ==>
                payload == Some(BuildPayload(old(form), old(tags), effectiveType))
                && State() == old(State()).(errors := NoErrors, loading := true, successMessage := "")
    {
      successMessage := "";
      var v := Validate(form, effectiveType, validUrl);
      if v != NoErrors {
        errors := v;
        return None;
      }
      errors, loading := NoErrors, true;
      payload := Some(BuildPayload(form, tags, effectiveType));
    }

    /** The second half: `onSubmit` resolved (the form is reset and the dialog closes;
        the success message set just before is cleared again by the reset) or threw
        (its message, or "Something went wrong", is shown). Loading ends either way. */
    method FinishSubmit(outcome: Outcome<()>) returns (closes: bool)
      modifies this
      ensures outcome.Done? ==>
                closes && State() == old(State()).(form := EmptyForm, tags := [], tagInput := "", newCategoryInput := "",
                                                   showAddCategory := false, errors := NoErrors, successMessage := "",
                                                   loading := false)
      ensures outcome.Thrown? ==>
                !closes && State() == old(State()).(errors := old(errors).(submit := Some(OrElse(Some(outcome.message), "Something went wrong"))),
                                                    loading := false)
    {
      if outcome.Done? {
        successMessage := "Link added successfully!";
        ResetForm();
        closes := true;
      } else {
        errors := errors.(submit := Some(OrElse(Some(outcome.message), "Something went wrong")));
        closes := false;
      }
      loading := false;
    }
  }

  /** `data.data?.name || value` */
  function CreatedName(data: Option<string>, value: string): (r: string)
    ensures data.Some? && data.value != "" ==> r == data.value
    ensures data.None? || data.value == "" ==> r == value
  {
    if data.Some? && data.value != "" then data.value else value
  }

  /** The list without `tag` lost exactly one element when `tag` occurred once. */
  lemma {:induction false} RemovingOne(tags: seq<string>, tag: string)
    ensures NoDup(tags) ==> |Filter(tags, (t: string) => t != tag)| == |tags| - (if tag in tags then 1 else 0)
  {
    if tags != [] {
      RemovingOne(tags[1..], tag);
      if NoDup(tags) {
        assert NoDup(tags[1..]);
        assert tags[0] == tag ==> tag !in tags[1..];
      }
    }
  }
}
