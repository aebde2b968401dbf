# imp-link-manager, modelled in Dafny

imp-link-manager is a personal bookmark manager with two workspaces, "office" and
"personal". Each workspace keeps important links, with a name, a URL, tags, a
category, a description and a type. Each workspace also keeps daily reminders: a
task, an `HH:MM` time and a repeat mode. The browser client polls these reminders
and raises one notice per reminder when its time is at most thirty minutes away.
Links and reminders are deleted optimistically: the entity is hidden at once, the
backend delete runs three seconds later, and until then "undo" brings it back.
The backend is a small REST service over three collections: links, reminders
and categories. It validates what it stores, finds or creates categories, and
exports the links as a two-sheet workbook.

This project models that core:

- the backend:
  - the schemas (`ImpLinkModel`, `ReminderModel`);
  - the controllers (`ImpLinkController`, `RemindersController`,
    `CategoryController`, `LinksExport`).
- the client:
  - the two data hooks (`UseImpLinks`, `UseReminders`), as classes whose lists
    change in place;
  - the links page (`ImpLinksPage`);
  - the list, card and link dialog (`ImpLinksList`, `ImpLinkCard`,
    `AddImpLinkModal`);
  - the reminder center and its dialog (`ReminderCenter`, `ReminderModal`);
  - the access gate (`App`).
- the delete-with-undo flow shared by the two pages (`DeleteUndo`): a state
  machine over the hidden ids, the pending entity, the remembered timer, the armed
  timers and the backend deletes.
- shared modules:
  - `Text`: JavaScript's `trim`, `split`, `join`, ASCII case mapping and
    `includes`;
  - `Collections`: filter, sort, set-like dedup, subsequence;
  - `Api`: dynamic JSON values with truthiness and `String(v)`, replies, and the
    client's view of a fetch.

How the model stands in for what it cannot run:

- The database is a sequence of documents.
- `ObjectId` casting and URL parsing are predicates passed as parameters
  (`castable`, `validUrl`).
- New ids and creation times are parameters.
- The current time is a calendar `Instant` in one local time zone.
- A fetch is either a network error or a reply with a status and a body.
- A timer callback runs as one step, given the backend's reply.

The program's own comment describes the delete flow as "soft hide + undo + hard
delete after 3s" (`Frontend/my-project/src/components/ReminderCenter.jsx:184`). On a
second confirm, the code cancels the timer that would have deleted the first
entity: `clearTimeout` at `Frontend/my-project/src/pages/ImpLinksPage.jsx:183` and
`Frontend/my-project/src/components/ReminderCenter.jsx:195`. `DeleteUndo` models
that as written. The first entity then stays hidden without ever being deleted (see
Findings).

The links list groups by category into a plain JavaScript object. A category named
like a property every object inherits ("constructor", "toString", ...) finds a
function where the grouping expects an array, and rendering throws. The model
gives that outcome as the `Crashed` view.

## Model

| member | source | states |
|---|---|---|
| Text.Trim | Backend/src/controllers/impLink.controller.js:10-49 | `trim` leaves a string with no whitespace at either end and never longer than the input |
| Text.TrimSlice | Backend/src/controllers/impLink.controller.js:10-49 | the trimmed string is a contiguous slice of the input: `trim` only cuts whitespace at the ends |
| Text.TrimIdempotent | Backend/src/models/impLinks.model.js:5-7 | trimming twice is trimming once, so the schema's `trim` setter after the controller's `trim` changes nothing |
| Text.TrimEmptyIffBlank | Backend/src/controllers/reminders.controller.js:21 | `!s.trim()` holds exactly for all-whitespace strings |
| Text.JoinSplit | Frontend/my-project/src/components/ImpLinkCard.jsx:26-32 | splitting on a character and joining with that character gives the input back |
| Text.SplitJoin | Backend/src/controllers/impLink.controller.js:52-63 | joining separator-free parts and splitting again gives the parts back |
| Text.SplitJoinReplaces | Frontend/my-project/src/components/ImpLinksList.jsx:83-85 | `split(c).join(d)` replaces every `c` by `d` and keeps every other character |
| Text.IncludesAt | Frontend/my-project/src/pages/ImpLinksPage.jsx:91 | `includes` holds exactly when the term occurs at some position of the text |
| ImpLinkModel.Create | Backend/src/models/impLinks.model.js:5-24 | a document is created exactly when the trimmed name and link are non-empty and the type is a workspace; it is schema-valid, with default tags `[]` and a trimmed category defaulting to "" |
| ImpLinkModel.CreatedTime | Backend/src/models/impLinks.model.js:30-39 | the `createdTime` virtual is "" without a creation time, otherwise the formatted creation time |
| ReminderModel.TimeOfDayIsTrimmed | Backend/src/models/reminder.model.js:21-33 | a time matching `^\d{2}:\d{2}$` is already trimmed, so the `trim` setter keeps it |
| ReminderModel.Create | Backend/src/models/reminder.model.js:7-51 | a document is created exactly when the type is a workspace, the trimmed task is non-empty and the trimmed time matches the pattern, and `repeat` (default "daily") is one of the three modes; `isActive` defaults to true, `repeat` to "daily", `lastDoneDate` to null |
| ImpLinkController.CategoryText | Backend/src/controllers/impLink.controller.js:69 | the stored category is always trimmed |
| ImpLinkController.DescriptionText | Backend/src/controllers/impLink.controller.js:72 | the stored description is always trimmed |
| ImpLinkController.NormalizeTags | Backend/src/controllers/impLink.controller.js:52-63 | every kept tag is non-empty and trimmed; a value that is neither an array nor a string gives no tags |
| ImpLinkController.NormalizeTagsMembers | Backend/src/controllers/impLink.controller.js:52-63 | an array keeps exactly its non-empty trimmed string elements, a string exactly its non-empty trimmed comma-separated parts |
| ImpLinkController.NormalizeCleanTags | Backend/src/controllers/impLink.controller.js:52-57 | a list of clean tags normalises to itself |
| ImpLinkController.NormalizeTwice | Backend/src/controllers/impLink.controller.js:52-63 | normalisation is idempotent: sending the stored tags back changes nothing |
| ImpLinkController.NormalizeCommaList | Backend/src/controllers/impLink.controller.js:58-62 | clean comma-free tags sent as `a,b,c` come back as the same list |
| ImpLinkController.CheckLink | Backend/src/controllers/impLink.controller.js:10-73 | the body is accepted exactly when every 400 check passes and the description does not throw; the accepted fields are the trimmed name, link, type and category, the normalised tags and the description |
| ImpLinkController.CheckLinkOrder | Backend/src/controllers/impLink.controller.js:10-49 | the first failing check decides, in the order name, link, type present, type allowed, URL; a non-string name or link ends in the 500 path |
| ImpLinkController.AcceptedIsStorable | Backend/src/controllers/impLink.controller.js:66-76 | whatever the checks accept, the schema accepts too, and its text fields come out unchanged |
| ImpLinkController.AddImpLink | Backend/src/controllers/impLink.controller.js:5-90 | a refused body answers 400 with the check's message and leaves the store alone; an accepted one answers 201 and appends exactly the created document, under a fresh id; the store stays schema-valid with unique ids |
| ImpLinkController.GetImpLinks | Backend/src/controllers/impLink.controller.js:94-122 | a given `type` that names no workspace answers 400; otherwise 200 with exactly the store's links of that type (all without a query), newest first |
| ImpLinkController.Updated | Backend/src/controllers/impLink.controller.js:194-206 | the updated document keeps its id and creation time, takes the checked fields, and is schema-valid |
| ImpLinkController.UpdateImpLink | Backend/src/controllers/impLink.controller.js:125-237 | missing id 400; failed checks 400/500; an uncastable id 400 "Invalid ID format"; an unknown id 404; otherwise 200, with exactly the documents of that id overwritten; the store stays schema-valid with unique ids |
| ImpLinkController.WriteByIdTouchesOne | Backend/src/controllers/impLink.controller.js:203-206 | in a store with unique ids, writing by a stored id replaces exactly one document, the one with that id |
| ImpLinkController.DeleteImpLink | Backend/src/controllers/impLink.controller.js:240-280 | 200 exactly when the id is castable and stored, and then the documents with that id and only those are removed; 404 exactly for a castable unknown id; every failure leaves the store alone; ids stay unique |
| RemindersController.ActiveFlag | Backend/src/controllers/reminders.controller.js:41 | a boolean `isActive` is kept, anything else reads as true |
| RemindersController.CheckEntry | Backend/src/controllers/reminders.controller.js:21-40 | task first, then time: a blank task and a missing or non-`HH:MM` time are 400s, a non-string that passes is a 500; what passes is a non-empty trimmed task and a valid time |
| RemindersController.NewFieldsCreate | Backend/src/controllers/reminders.controller.js:37-46 | whatever the checks pass, the schema accepts, with the checked task and time and `repeat` defaulting to "daily" |
| RemindersController.AddReminder | Backend/src/controllers/reminders.controller.js:5-62 | an absent or unknown type answers 400 before any other check; refused entries 400, throwing ones 500; otherwise 201 and exactly the created document is appended, under a fresh id; the store stays schema-valid with unique ids |
| RemindersController.AddIgnoresRepeat | Backend/src/controllers/reminders.controller.js:10 | creating a reminder never reads `repeat` from the body |
| RemindersController.GetReminders | Backend/src/controllers/reminders.controller.js:65-92 | always 200, with exactly the reminders of the queried type (all for an empty query), oldest first |
| RemindersController.UnknownTypeListsNothing | Backend/src/controllers/reminders.controller.js:72-77 | an unchecked type outside the workspaces matches no valid document, so the listing is empty |
| RemindersController.MarkReminderDoneToday | Backend/src/controllers/reminders.controller.js:95-151 | missing id 400, uncastable 400, unknown 404; otherwise only `lastDoneDate` of the matching documents changes, to now; the store stays schema-valid with unique ids |
| RemindersController.CastString | Backend/src/controllers/reminders.controller.js:189 | a string `repeat` is written as it is; an array or object cannot be cast to a string |
| RemindersController.Changed | Backend/src/controllers/reminders.controller.js:184-197 | an update changes task and time, `repeat` only when truthy, `isActive` only when boolean, nothing else; the result is schema-valid |
| RemindersController.UpdateReminder | Backend/src/controllers/reminders.controller.js:154-229 | missing id 400; task/time failures 400/500; an uncastable id or change answers 400 "Invalid ID format" and a `repeat` outside the enum 500, the store unchanged; otherwise 404 or 200 with the documents of that id changed; the store stays schema-valid with unique ids |
| RemindersController.WriteByIdTouchesOne | Backend/src/controllers/reminders.controller.js:194-197 | in a store with unique ids, writing by a stored id replaces exactly one document, the one with that id |
| RemindersController.DeleteReminder | Backend/src/controllers/reminders.controller.js:232-282 | missing id 400, uncastable 400, unknown 404; otherwise 200 and exactly the documents with that id are removed; ids stay unique |
| CategoryController.FindOrCreate | Backend/src/controllers/category.controller.js:23-61 | a blank name is 400, a non-string 500; a trimmed name already stored answers 200 with a stored category and leaves the store alone; a new one answers 201 and appends it |
| CategoryController.FindOrCreateKeepsClean | Backend/src/controllers/category.controller.js:34-53 | the store's names stay trimmed, non-empty and distinct |
| CategoryController.FindOrCreateIdempotent | Backend/src/controllers/category.controller.js:37-45 | adding a name again, even padded differently, answers 200 and does not change the store |
| CategoryController.CategoryStore.AddCategory | Backend/src/controllers/category.controller.js:23-61 | the collection's update is find-or-create, and the store invariant is kept |
| CategoryController.CategoryStore.GetCategories | Backend/src/controllers/category.controller.js:5-20 | 200 with every category, sorted by name |
| LinksExport.RowOf | Backend/src/controllers/impLinksExport.controller.js:39-60 | a row carries the link's name, URL, category and description and its tags joined with ", "; its date is "" without a creation time, otherwise the creation time in the export's own `formatDate` (en-IN, short month, 12-hour clock), not the model's `createdTime` |
| LinksExport.ToOfficeExactly | Backend/src/controllers/impLinksExport.controller.js:63-68 | a link goes to the Office sheet exactly when its type is "office"; a missing type counts as personal |
| LinksExport.Fetched | Backend/src/controllers/impLinksExport.controller.js:10 | every stored link, newest first |
| LinksExport.Export | Backend/src/controllers/impLinksExport.controller.js:5-69 | two sheets, "Office" and "Personal", with the six columns; each sheet's rows are the rows of that sheet's fetched links, in fetch order |
| LinksExport.SheetsPartition | Backend/src/controllers/impLinksExport.controller.js:63-68 | each link lands in exactly one sheet |
| LinksExport.ExportRowCount | Backend/src/controllers/impLinksExport.controller.js:52-69 | the two sheets hold one row per stored link |
| LinksExport.SheetKeepsOrder | Backend/src/controllers/impLinksExport.controller.js:52-69 | each sheet keeps the fetch order |
| UseImpLinks.ListQuery | Frontend/my-project/src/hooks/useImpLinks.js:16-18 | the `type` query is sent exactly when a type is set |
| UseImpLinks.ImpLinksHook.FetchLinks | Frontend/my-project/src/hooks/useImpLinks.js:11-36 | an ok reply replaces the list (with [] when it carries none); a failure keeps it and sets the message or its fallback; loading ends |
| UseImpLinks.ImpLinksHook.AddLink | Frontend/my-project/src/hooks/useImpLinks.js:38-67 | a failed request throws and keeps the list; an ok reply's link is put first only when it belongs to the viewed type |
| UseImpLinks.ImpLinksHook.UpdateLink | Frontend/my-project/src/hooks/useImpLinks.js:69-90 | only an ok reply carrying a link replaces, in place, every link with that id |
| UseImpLinks.ImpLinksHook.DeleteLink | Frontend/my-project/src/hooks/useImpLinks.js:92-106 | only an ok reply removes the links with that id |
| UseImpLinks.RemoveByIdRemovesAll | Frontend/my-project/src/hooks/useImpLinks.js:104 | after the removal no link with the id is left, every other link is kept, and the order is kept |
| UseReminders.Rejection | Frontend/my-project/src/hooks/useReminders.js:43-45 | a rejected write throws the network error's message; for a reply, exactly its non-empty `message`, else the fallback (`data?.message \|\| fallback`) |
| UseReminders.AddRequestBody | Frontend/my-project/src/hooks/useReminders.js:38 | the posted body is the payload with `type` set to the workspace and nothing else changed |
| UseReminders.RemindersHook.FetchReminders | Frontend/my-project/src/hooks/useReminders.js:13-31 | an ok reply replaces the list; a failure keeps it and sets the error; loading ends |
| UseReminders.RemindersHook.AddReminder | Frontend/my-project/src/hooks/useReminders.js:33-54 | only a reply that is ok and marked successful appends its reminder; otherwise it throws and keeps the list |
| UseReminders.RemindersHook.MarkDoneToday | Frontend/my-project/src/hooks/useReminders.js:56-76 | an accepted reply replaces the reminders with that id by the returned one; otherwise it throws and keeps the list |
| UseReminders.RemindersHook.UpdateReminder | Frontend/my-project/src/hooks/useReminders.js:78-101 | same as marking done, with its own fallback message |
| UseReminders.RemindersHook.DeleteReminder | Frontend/my-project/src/hooks/useReminders.js:103-117 | only an accepted reply removes the reminders with that id |
| DeleteUndo.Confirm | Frontend/my-project/src/pages/ImpLinksPage.jsx:172-199 | a confirm hides the id, makes it pending, cancels the remembered timer and arms a fresh one for the id; the state invariant is kept |
| DeleteUndo.Fire | Frontend/my-project/src/pages/ImpLinksPage.jsx:185-196 | a firing timer requests one backend delete of its id; a failure unhides it; either way pending and the remembered timer are cleared |
| DeleteUndo.Undo | Frontend/my-project/src/pages/ImpLinksPage.jsx:201-208 | undo without a pending entity changes nothing; otherwise it unhides that entity, cancels the timer and requests no delete |
| DeleteUndo.SingleTimerPreserved | Frontend/my-project/src/pages/ImpLinksPage.jsx:183-198 | as written, at most one timer is ever armed |
| DeleteUndo.UndoRestores | Frontend/my-project/src/pages/ImpLinksPage.jsx:172-208 | confirm then undo restores the hidden list, leaves no timer armed and requests no delete |
| DeleteUndo.FailureRestores | Frontend/my-project/src/pages/ImpLinksPage.jsx:185-196 | confirm then a failed delete makes the entity visible again after exactly one delete request, and records no deletion |
| DeleteUndo.CommitOnce | Frontend/my-project/src/pages/ImpLinksPage.jsx:185-196 | confirm then a successful delete requests exactly one delete, records the entity as deleted and leaves nothing armed |
| DeleteUndo.SecondConfirmStrandsFirst | Frontend/my-project/src/pages/ImpLinksPage.jsx:183 | confirming a second entity while one is pending leaves the first hidden with no timer for it and no way to undo it |
| DeleteUndo.LimboIsPermanent | Frontend/my-project/src/components/ReminderCenter.jsx:185-233 | once stranded, whatever happens next, the entity stays hidden and is never deleted |
| DeleteUndo.StrandedFromFreshPage | Frontend/my-project/src/components/ReminderCenter.jsx:195 | from a fresh page, confirm `a` then `b`: `a` stays hidden and is never sent to the backend |
| DeleteUndo.CorrectedNeverStrands | Frontend/my-project/src/components/ReminderCenter.jsx:185-233 | with the timer kept armed, every hidden entity is always awaiting a timer or already deleted on the backend |
| DeleteUndo.CorrectedKeepsFirstTimer | Frontend/my-project/src/pages/ImpLinksPage.jsx:172-199 | in the corrected flow the first entity's timer survives the second confirm |
| ImpLinksPage.VisibleLinks | Frontend/my-project/src/pages/ImpLinksPage.jsx:48-51 | the visible links are exactly the links not hidden, in list order |
| ImpLinksPage.AllCategories | Frontend/my-project/src/pages/ImpLinksPage.jsx:54-62 | exactly the distinct trimmed non-blank categories, sorted |
| ImpLinksPage.TagsForCategory | Frontend/my-project/src/pages/ImpLinksPage.jsx:65-74 | exactly the distinct tags of the visible links in the selected category (all without one), sorted |
| ImpLinksPage.FilteredLinks | Frontend/my-project/src/pages/ImpLinksPage.jsx:77-101 | a visible link is shown exactly when it is in the category, matches the search and has every selected tag; order is kept |
| ImpLinksPage.NoCriteriaShowsAll | Frontend/my-project/src/pages/ImpLinksPage.jsx:77-101 | with no category, a blank search and no tags, every visible link is shown |
| ImpLinksPage.MoreTagsNarrow | Frontend/my-project/src/pages/ImpLinksPage.jsx:94-97 | selecting more tags only narrows the list |
| ImpLinksPage.ToggledTags | Frontend/my-project/src/pages/ImpLinksPage.jsx:147-151 | toggling flips membership of that tag and keeps every other tag's membership |
| ImpLinksPage.ToggleTwice | Frontend/my-project/src/pages/ImpLinksPage.jsx:147-151 | toggling twice gives back the same selection as a set |
| ImpLinksPage.ToggledCategory | Frontend/my-project/src/pages/ImpLinksPage.jsx:156-159 | selecting the selected category clears it; any other selects it |
| ImpLinksPage.LinksPage.ToggleTag | Frontend/my-project/src/pages/ImpLinksPage.jsx:147-151 | the selection becomes the toggled one |
| ImpLinksPage.LinksPage.ClearTagFilters | Frontend/my-project/src/pages/ImpLinksPage.jsx:153 | no tag is selected |
| ImpLinksPage.LinksPage.ToggleCategory | Frontend/my-project/src/pages/ImpLinksPage.jsx:156-159 | the category toggles and the tag selection is cleared |
| ImpLinksPage.LinksPage.RequestDelete | Frontend/my-project/src/pages/ImpLinksPage.jsx:162-165 | the link is chosen and the confirm dialog opens |
| ImpLinksPage.LinksPage.CancelDeleteModal | Frontend/my-project/src/pages/ImpLinksPage.jsx:167-170 | the dialog closes with nothing chosen |
| ImpLinksPage.LinksPage.ConfirmDelete | Frontend/my-project/src/pages/ImpLinksPage.jsx:172-199 | nothing without a chosen link: the flow, the pending link and the dialog stay as they were, with no link chosen; otherwise the dialog closes and the page takes the `DeleteUndo.Confirm` step; filters are untouched |
| ImpLinksPage.LinksPage.Arm | Frontend/my-project/src/pages/ImpLinksPage.jsx:180-198 | the page's undo state takes exactly the `DeleteUndo.Confirm` step and the link becomes the pending one |
| ImpLinksPage.LinksPage.TimerFires | Frontend/my-project/src/pages/ImpLinksPage.jsx:185-196 | the page takes the `DeleteUndo.Fire` step, and the hook's list loses the link only on an ok reply; the filters and the delete dialog are untouched |
| ImpLinksPage.LinksPage.Disarm | Frontend/my-project/src/pages/ImpLinksPage.jsx:185-196 | the page's undo state takes exactly the `DeleteUndo.Fire` step for the given outcome |
| ImpLinksPage.LinksPage.UndoDelete | Frontend/my-project/src/pages/ImpLinksPage.jsx:201-208 | the page takes the `DeleteUndo.Undo` step; the filters and the delete dialog are untouched |
| ImpLinksList.GroupKey | Frontend/my-project/src/components/ImpLinksList.jsx:42-47 | a link is grouped under its trimmed category, or "uncategorized" when that is blank |
| ImpLinksList.GroupByCategory | Frontend/my-project/src/components/ImpLinksList.jsx:42-47 | the grouping throws exactly when some link's key is an inherited object property; otherwise the groups are exactly the links' keys, and each group holds exactly that key's links, in list order |
| ImpLinksList.InheritedCategoryThrows | Frontend/my-project/src/components/ImpLinksList.jsx:42-47 | a link whose trimmed category is "constructor" makes the grouping throw, wherever it sits in the list |
| ImpLinksList.Heading | Frontend/my-project/src/components/ImpLinksList.jsx:83-85 | the "uncategorized" group is headed "Other" |
| ImpLinksList.HeadingReplacesHyphens | Frontend/my-project/src/components/ImpLinksList.jsx:83-85 | any other heading is the key with each hyphen turned into a space |
| ImpLinksList.Render | Frontend/my-project/src/components/ImpLinksList.jsx:15-52 | loading wins, then the error, then the empty notice; otherwise the sections of the links, or a crash when some category is an inherited object property |
| ImpLinksList.BuildSections | Frontend/my-project/src/components/ImpLinksList.jsx:50-52 | one section per sorted key, holding that key's group |
| ImpLinksList.SectionsListEveryLinkOnce | Frontend/my-project/src/components/ImpLinksList.jsx:42-52 | the section keys are sorted and distinct; each section is non-empty and holds exactly its key's links; together the sections hold every link once |
| ImpLinksList.SectionKeys | Frontend/my-project/src/components/ImpLinksList.jsx:50-52 | the sections' keys are exactly the links' distinct keys, sorted |
| ImpLinksList.SectionContents | Frontend/my-project/src/components/ImpLinksList.jsx:42-52 | each section is headed by its key's heading and holds exactly, and at least one of, the links of its key |
| ImpLinksList.SectionsTotal | Frontend/my-project/src/components/ImpLinksList.jsx:42-52 | the sections together hold as many links as the list |
| ImpLinksList.ListedOnce | Frontend/my-project/src/components/ImpLinksList.jsx:42-47 | a link is listed in its own key's section and in no other |
| ImpLinksList.SectionKeepsOrder | Frontend/my-project/src/components/ImpLinksList.jsx:42-47 | within a section the links keep their list order |
| ImpLinkCard.FormatCategory | Frontend/my-project/src/components/ImpLinkCard.jsx:26-32 | an empty category gives an empty label |
| ImpLinkCard.FormatCategoryShape | Frontend/my-project/src/components/ImpLinkCard.jsx:26-32 | the label has the category's length; hyphens become spaces; the first character of each part is upper-cased; every other character is kept |
| ImpLinkCard.FormatCategoryGuardRedundant | Frontend/my-project/src/components/ImpLinkCard.jsx:27 | the card's empty-category guard changes nothing: the guarded `formatCategory` and the unguarded `formatCategoryLabel` of the dialog and the page give the same label |
| ImpLinkCard.CategoryWordsAreTitleCase | Frontend/my-project/src/components/AddImpLinkModal.jsx:300-304 | the unguarded `formatCategoryLabel` (also copied at `Frontend/my-project/src/pages/ImpLinksPage.jsx:210-214`, and the card's general path) turns hyphens into spaces, upper-cases the first character of each part and keeps every other character |
| ImpLinkCard.FormatType | Frontend/my-project/src/components/ImpLinkCard.jsx:34-40 | "" stays ""; "office" and "personal" in any case read "Office" and "Personal"; anything else is lower-cased and capitalised |
| ImpLinkCard.FormatTypeIsCapitalizedLower | Frontend/my-project/src/components/ImpLinkCard.jsx:34-40 | the two named cases are the general rule: the lower-cased type with its first letter upper-cased |
| ImpLinkCard.OpenTarget | Frontend/my-project/src/components/ImpLinkCard.jsx:8-11 | a card without a URL opens nothing; otherwise its URL is opened |
| AddImpLinkModal.EffectiveType | Frontend/my-project/src/components/AddImpLinkModal.jsx:43 | the edited link's type if it has one, else the page's, lower-cased |
| AddImpLinkModal.Validate | Frontend/my-project/src/components/AddImpLinkModal.jsx:132-155 | an error exactly for a blank name, a blank or unparsable link, and a type outside the workspaces, with the dialog's messages |
| AddImpLinkModal.BuildPayload | Frontend/my-project/src/components/AddImpLinkModal.jsx:238-245 | the text fields are trimmed, the tags passed on and the effective type set |
| AddImpLinkModal.ValidFormIsAccepted | Frontend/my-project/src/components/AddImpLinkModal.jsx:247-281 | a form that passes the dialog's checks, with clean tags, passes the server's checks, and the server stores exactly the payload's values |
| AddImpLinkModal.TrimmedText | Backend/src/controllers/impLink.controller.js:66-73 | the server reads an already trimmed text back unchanged |
| AddImpLinkModal.WithCategory | Frontend/my-project/src/components/AddImpLinkModal.jsx:205-209 | a known category keeps the list; a new one is added and the list sorted; no duplicate appears |
| AddImpLinkModal.WithCategoryKeepsOrder | Frontend/my-project/src/components/AddImpLinkModal.jsx:205-209 | a sorted, duplicate-free list of choices stays so |
| AddImpLinkModal.CreatedName | Frontend/my-project/src/components/AddImpLinkModal.jsx:203 | the server's stored name when it returns one, else the typed name |
| AddImpLinkModal.RemovingOne | Frontend/my-project/src/components/AddImpLinkModal.jsx:175-177 | removing a tag that occurs once shortens a duplicate-free list by one |
| AddImpLinkModal.LinkDialog.ResetForm | Frontend/my-project/src/components/AddImpLinkModal.jsx:45-58 | every field and error is emptied; categories and loading are kept |
| AddImpLinkModal.LinkDialog.Prefill | Frontend/my-project/src/components/AddImpLinkModal.jsx:90-112 | an edit copies the link's fields and tags; a create resets the form |
| AddImpLinkModal.LinkDialog.FetchCategories | Frontend/my-project/src/components/AddImpLinkModal.jsx:61-87 | on failure the defaults; otherwise the stored names merged with the defaults, distinct and sorted |
| AddImpLinkModal.LinkDialog.KeepEditedCategory | Frontend/my-project/src/components/AddImpLinkModal.jsx:115-122 | the edited link's category joins the choices |
| AddImpLinkModal.LinkDialog.AddTagFromInput | Frontend/my-project/src/components/AddImpLinkModal.jsx:157-166 | blank input is ignored; a new trimmed tag is appended; the tag list stays duplicate-free and clean |
| AddImpLinkModal.LinkDialog.RemoveTag | Frontend/my-project/src/components/AddImpLinkModal.jsx:175-177 | every copy of the tag goes, the others stay in order |
| AddImpLinkModal.LinkDialog.AddNewCategory | Frontend/my-project/src/components/AddImpLinkModal.jsx:179-229 | blank input is ignored; a failure shows its message; a success adds and selects the created category and closes the input |
| AddImpLinkModal.LinkDialog.ShowCategoryError | Frontend/my-project/src/components/AddImpLinkModal.jsx:194-228 | a failed add sets only the category error |
| AddImpLinkModal.LinkDialog.AcceptCategory | Frontend/my-project/src/components/AddImpLinkModal.jsx:203-221 | a created category joins the choices, is selected, and the inline input is emptied and closed; the category error is cleared |
| AddImpLinkModal.LinkDialog.BeginSubmit | Frontend/my-project/src/components/AddImpLinkModal.jsx:247-260 | errors block the submit and are shown; otherwise loading starts and the payload is handed over |
| AddImpLinkModal.LinkDialog.FinishSubmit | Frontend/my-project/src/components/AddImpLinkModal.jsx:262-281 | success resets the form and closes; failure shows the error; loading ends |
| ReminderModal.Validate | Frontend/my-project/src/components/ReminderModal.jsx:56-65 | an error exactly for a blank task and for a time that does not match `HH:MM` as typed, with the dialog's messages |
| ReminderModal.ValidFormIsAccepted | Frontend/my-project/src/components/ReminderModal.jsx:67-95 | a form the dialog accepts sends a task and time the server's checks pass unchanged |
| ReminderModal.ReminderDialog.Prefill | Frontend/my-project/src/components/ReminderModal.jsx:30-49 | an open edit copies the reminder (repeat "daily" when empty); an open create starts empty with "daily"; a closed dialog changes nothing |
| ReminderModal.ReminderDialog.BeginSubmit | Frontend/my-project/src/components/ReminderModal.jsx:67-84 | errors block the save; otherwise loading starts with the trimmed payload |
| ReminderModal.ReminderDialog.FinishSubmit | Frontend/my-project/src/components/ReminderModal.jsx:85-95 | the dialog closes exactly when the save resolved; an error is shown otherwise; loading ends |
| ReminderModal.ReminderDialog.HandleClose | Frontend/my-project/src/components/ReminderModal.jsx:97-100 | the dialog closes exactly when no save is in flight |
| ReminderCenter.NumberOf | Frontend/my-project/src/components/ReminderCenter.jsx:17 | `Number(part)` is finite exactly for digits with surrounding whitespace, and then it is their value |
| ReminderCenter.ShouldNotify | Frontend/my-project/src/components/ReminderCenter.jsx:15-33 | no time never fires; a reminder done today never fires; an hour or minute that is not a number (NaN) never fires |
| ReminderCenter.SplitTimeOfDay | Frontend/my-project/src/components/ReminderCenter.jsx:17 | a stored `HH:MM` splits into its hours and its minutes |
| ReminderCenter.ShouldNotifyWindow | Frontend/my-project/src/components/ReminderCenter.jsx:15-33 | for a stored time, a reminder fires exactly when today's target is 0 to 30 minutes ahead and it was not done today |
| ReminderCenter.RepeatIgnored | Frontend/my-project/src/components/ReminderCenter.jsx:15-33 | whether a reminder fires depends on neither its repeat mode, nor its task, nor its active flag |
| ReminderCenter.DoneTodaySilences | Frontend/my-project/src/components/ReminderCenter.jsx:27-30 | a reminder done earlier today is silent; one done on another day is judged by the window alone |
| ReminderCenter.NoColonIgnoresWindow | Frontend/my-project/src/components/ReminderCenter.jsx:17-25 | a time of digits without ":" leaves the minutes `undefined`, which `Number.isNaN` lets through; the difference is NaN and passes the window test, so such a reminder fires at any time of day unless done today |
| ReminderCenter.ActiveReminders | Frontend/my-project/src/components/ReminderCenter.jsx:79-85 | exactly the active, not hidden reminders, in list order |
| ReminderCenter.TodaysReminders | Frontend/my-project/src/components/ReminderCenter.jsx:87-95 | each active reminder, with its flag true exactly when it was done today |
| ReminderCenter.Due | Frontend/my-project/src/components/ReminderCenter.jsx:101-107 | exactly the active reminders not yet notified that should fire now |
| ReminderCenter.NotifiedAtMostOnce | Frontend/my-project/src/components/ReminderCenter.jsx:101-107 | once a check has recorded the ids it surfaced, no later check surfaces them again |
| ReminderCenter.Center.Check | Frontend/my-project/src/components/ReminderCenter.jsx:101-114 | one toast per due reminder; their ids are recorded; the last due reminder is the active one |
| ReminderCenter.Surface | Frontend/my-project/src/components/ReminderCenter.jsx:101-114 | the `forEach` surfaces exactly the due reminders in list order: their ids are appended to the notified ids, one toast each, and the popup holds the last one (or keeps the one it had) |
| ReminderCenter.Center.HandleMarkDoneToday | Frontend/my-project/src/components/ReminderCenter.jsx:150-157 | the hook's write: a refused write throws its rejection and keeps the list; an accepted one completes with the reply's data, which replaces the reminder of that id when present and leaves the list alone when absent; the popup closes exactly when the write succeeded and was asked from the popup |
| ReminderCenter.Center.OpenDeleteModal | Frontend/my-project/src/components/ReminderCenter.jsx:174-177 | the reminder is chosen and the dialog opens |
| ReminderCenter.Center.CloseDeleteModal | Frontend/my-project/src/components/ReminderCenter.jsx:179-182 | the dialog closes with nothing chosen |
| ReminderCenter.Center.ConfirmDelete | Frontend/my-project/src/components/ReminderCenter.jsx:185-221 | nothing without a chosen reminder: the flow, the pending reminder and the dialog stay as they were, with no reminder chosen; otherwise the dialog closes and the center takes the `DeleteUndo.Confirm` step |
| ReminderCenter.Center.Arm | Frontend/my-project/src/components/ReminderCenter.jsx:192-220 | the center's undo state takes exactly the `DeleteUndo.Confirm` step and the reminder becomes the pending one |
| ReminderCenter.Center.TimerFires | Frontend/my-project/src/components/ReminderCenter.jsx:197-218 | the center takes the `DeleteUndo.Fire` step; the toast says deleted or why it failed; the notices and the delete dialog are untouched |
| ReminderCenter.Center.Disarm | Frontend/my-project/src/components/ReminderCenter.jsx:197-218 | the center's undo state takes exactly the `DeleteUndo.Fire` step for the given outcome |
| ReminderCenter.Center.UndoDelete | Frontend/my-project/src/components/ReminderCenter.jsx:224-233 | the center takes the `DeleteUndo.Undo` step; the notices and the delete dialog are untouched |
| App.InitialAuth | Frontend/my-project/src/App.jsx:21-32 | a missing or unparsable stored login reads as signed out |
| App.Protected | Frontend/my-project/src/App.jsx:39-67 | a route renders exactly for a signed-in visitor of its workspace (or of any, when it names none); otherwise it redirects to /login, remembering the path |
| App.WorkspacePath | Frontend/my-project/src/App.jsx:103-108 | "office" goes to /office, anything else to /personal |
| App.HandleLogin | Frontend/my-project/src/App.jsx:79-111 | a blank password and a wrong one are refused with their messages; a right one stores the login and goes back where the visitor came from, unless that is missing or /login |
| App.LoginIsToAWorkspace | Frontend/my-project/src/App.jsx:15-18 | only the two workspaces have a password |
| App.LoginOpensOwnWorkspace | Frontend/my-project/src/App.jsx:39-111 | after a login the guard admits the visitor to their own workspace and to routes naming none, and to nothing else |
| App.RootRedirect | Frontend/my-project/src/App.jsx:245-258 | a signed-in visitor goes to their workspace page, anyone else to /login |
| App.RootLeadsToAdmittedPage | Frontend/my-project/src/App.jsx:245-258 | the page "/" leads a signed-in visitor to is one the guard admits |

## Left out

- Number parsing: `Number(part)` is modelled only for decimal digits with surrounding whitespace. Signs, decimals, exponents and hexadecimal read as NaN.
- JSON numbers in request bodies are integers (`Api.Value.Num`). Fractions and exponent forms, and `String` of them, are not modelled. No field the core reads is a number: a number only arrives as a wrongly typed value, such as a `repeat` cast with `String`, which fails the enum for a fraction just as for an integer.
- Case mapping is ASCII only.
- `localeCompare` is replaced by code-unit order.
- `toLocaleString` and `toLocaleTimeString` are a `format` parameter. `formatTime` in the reminder center only formats text, so it is not modelled.
- Daylight saving changes are not modelled.
- Database failures that answer 500 are not modelled. This covers the export's and the listings' 500 replies, and the upload route.
- Toasts are modelled only as the messages they would show.
- React's batching, stale closures and effect scheduling are left out. Effects are methods called with the values they see.
- A timer callback runs as one atomic step. The gap at its `await` is not modelled.
- Sort stability is not modelled. The listings are stated as sorted permutations.
- The export's branch for tags that are not an array is left out. Stored tags are always an array.
- The workbook buffer and the response headers are left out.
- `JSON.parse` of a stored `"null"` and the `typeof window` guard are left out. Stored logins are absent, unparsable or parsed.
- The CSS `capitalize` applied to headings is left out.
- The dialog's `formatTypeLabel` is left out.
- The link dialog's `handleClose` is `AddImpLinkModal.LinkDialog.ResetForm` followed by the parent's `onClose`. It has no member of its own.
- The card's copy-to-clipboard action is left out. The clipboard is I/O.
- `category.model.js` is not part of this model. The category schema is represented by the store invariant `CategoryController.CleanStore`.
- The reminders listing's `type` query is modelled as a string. Express query arrays are left out.
- URL validity (`new URL`) and ObjectId casting are parameters (`validUrl`, `castable`).
- ImpLinkController.AddImpLink and RemindersController.AddReminder require an id not already stored. The database generates ObjectIds, so a collision is not modelled.
- The inherited property names are those of `Object.prototype`. What the browser shows after the throw (a blank page, or an error boundary) is left out: the model stops at the `Crashed` view.
- ImpLinkCard.FormatCategory: its own contract states only the empty case. The full shape is stated by `ImpLinkCard.FormatCategoryShape`.
- ImpLinksList.Heading: its own contract states only the "Other" case. The general case is `ImpLinksList.HeadingReplacesHyphens`.

## Findings

| source | as written | input that shows it | evidently intended | confidence | as-written member | corrected member |
|---|---|---|---|---|---|---|
| Frontend/my-project/src/pages/ImpLinksPage.jsx:183 | confirming a delete cancels the timer of the delete still pending | confirm link `a`, then confirm link `b` within three seconds: `a`'s timer is cleared, so `a` is hidden for good and never deleted | a second delete leaves the first one's timer running, so every hidden entity is deleted or restored | high (not executed) | DeleteUndo.SecondConfirmStrandsFirst | DeleteUndo.CorrectedKeepsFirstTimer |
| Frontend/my-project/src/components/ReminderCenter.jsx:195 | the same `clearTimeout` in the reminder center | confirm reminder `a`, then reminder `b`, then any events: `a` stays hidden and no delete is sent for it | no reminder is ever stranded | high (not executed) | DeleteUndo.StrandedFromFreshPage | DeleteUndo.CorrectedNeverStrands |
