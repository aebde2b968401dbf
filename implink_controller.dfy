/** The link endpoints of the backend: the validation chain that create and update
    share, tag normalisation, the type filter of the listing and the outcomes of
    update and delete. The collection is a sequence of documents in insertion order;
    `validUrl` stands for "`new URL(s)` does not throw" and `castable` for "the id
    casts to an ObjectId" (otherwise the driver throws a CastError). */
module ImpLinkController {
  import opened Text
  import opened Collections
  import opened Api
  import opened ImpLinkModel

  /** The fields of the request body the endpoints destructure. */
  datatype LinkBody = LinkBody(name: Value, link: Value, tags: Value, description: Value, category: Value, kind: Value)

  /** `String(type).trim()` */
  function NormalizedType(v: Value): string {
    Trim(ToJsString(v))
  }

  /** `category ? String(category).trim() : ""` */
  function CategoryText(v: Value): (r: string)
    ensures IsTrimmed(r)
  {
    if Truthy(v) then Trim(ToJsString(v)) else ""
  }

  /** `description ? description.trim() : ""` for a description that does not throw. */
  function DescriptionText(v: Value): (r: string)
    requires !ThrowsOnTrim(v)
    ensures IsTrimmed(r)
  {
    if Truthy(v) then Trim(v.s) else ""
  }

  predicate NonEmpty(t: string) {
    t != ""
  }

  /** A normalised tag: not empty and not padded with whitespace. */
  predicate CleanTag(t: string) {
    t != "" && IsTrimmed(t)
  }

  /** `typeof t === "string" ? t.trim() : ""` */
  function ElementTag(v: Value): string {
    if v.Str? then Trim(v.s) else ""
  }

  /** Tag normalisation: an array keeps its trimmed non-empty strings, a string is
      split on "," into trimmed non-empty parts, anything else gives no tags. */
  function NormalizeTags(v: Value): (r: seq<string>)
    ensures forall t :: t in r ==> CleanTag(t)
    ensures !v.Arr? && !v.Str? ==> r == []
  {
    match v
    case Arr(items) => Filter(Map(items, ElementTag), NonEmpty)
    case Str(s) => Filter(Map(Split(s, ','), Trim), NonEmpty)
    case _ => []
  }

  /** Which tags normalisation keeps: the non-empty trimmed strings of an array, or
      the non-empty trimmed comma-separated parts of a string. */
  lemma NormalizeTagsMembers(v: Value)
    ensures v.Arr? ==> forall t :: t in NormalizeTags(v) <==> t != "" && exists x :: x in v.items && x.Str? && Trim(x.s) == t
    ensures v.Str? ==> forall t :: t in NormalizeTags(v) <==> t != "" && exists p :: p in Split(v.s, ',') && Trim(p) == t
  {
    match v
    case Arr(items) => MapMembership(items, ElementTag);
    case Str(s) => MapMembership(Split(s, ','), Trim);
    case _ =>
  }

  /** The JSON array a client sends for a list of tags. */
  function AsValues(tags: seq<string>): (r: seq<Value>)
    ensures |r| == |tags| && forall i :: 0 <= i < |tags| ==> r[i] == Str(tags[i])
  {
    Map(tags, (t: string) => Str(t))
  }

  /** A list of clean tags normalises to itself. */
  lemma NormalizeCleanTags(tags: seq<string>)
    requires forall t :: t in tags ==> CleanTag(t)
    ensures NormalizeTags(Arr(AsValues(tags))) == tags
  {
    var m := Map(AsValues(tags), ElementTag);
    forall i | 0 <= i < |tags| ensures m[i] == tags[i] {
      assert tags[i] in tags;
      TrimOfTrimmed(tags[i]);
    }
    assert m == tags;
    FilterAll(tags, NonEmpty);
  }

  /** Normalisation is idempotent: sending the normalised tags again changes nothing. */
  lemma NormalizeTwice(v: Value)
    ensures NormalizeTags(Arr(AsValues(NormalizeTags(v)))) == NormalizeTags(v)
  {
    NormalizeCleanTags(NormalizeTags(v));
  }

  /** Clean tags without commas survive the comma-separated form `a,b,c`. */
  lemma NormalizeCommaList(tags: seq<string>)
    requires forall t :: t in tags ==> CleanTag(t) && ',' !in t
    ensures NormalizeTags(Str(Join(tags, ","))) == tags
  {
    if tags == [] {
      assert Split("", ',') == [""];
      assert Trim("") == "";
      assert Map([""], Trim) == [""];
      assert Filter([""], NonEmpty) == [];
    } else {
      assert forall k :: 0 <= k < |tags| ==> ',' !in tags[k] by {
        forall k | 0 <= k < |tags| ensures ',' !in tags[k] {
          assert tags[k] in tags;
        }
      }
      SplitJoin(tags, ',');
      var m := Map(tags, Trim);
      forall i | 0 <= i < |tags| ensures m[i] == tags[i] {
        TrimOfTrimmed(tags[i]);
      }
      assert m == tags;
      FilterAll(tags, NonEmpty);
    }
  }

  /** The checks before the database call: the fields to write, a 400 with its
      message, or a TypeError that ends in the 500 handler. */
  datatype Checked = Accept(data: Fields) | Reject(problem: Problem) | Crash

  /** The 400 answers of the chain, in the order the checks run. */
  datatype Problem = NameRequired | LinkRequired | TypeRequired | TypeNotAllowed | InvalidUrl

  function Message(p: Problem): string {
    match p
    case NameRequired => "Name is required"
    case LinkRequired => "Link is required"
    case TypeRequired => "Type is required (office or personal)"
    case TypeNotAllowed => "Type must be either 'office' or 'personal'"
    case InvalidUrl => "Link must be a valid URL"
  }

  /** Everything the 400 checks require. */
  predicate PassesChecks(b: LinkBody, validUrl: string -> bool) {
    FilledText(b.name) && FilledText(b.link) && Truthy(b.kind)
    && NormalizedType(b.kind) in Workspaces && validUrl(Trim(b.link.s))
  }

  /** The validation chain of `addImpLink` and `updateImpLink`: it accepts exactly
      the bodies that pass every check without throwing, and then builds the fields
      to write from the trimmed values. */
  function CheckLink(b: LinkBody, validUrl: string -> bool): (r: Checked)
    ensures r.Accept? <==> PassesChecks(b, validUrl) && !ThrowsOnTrim(b.description)
    ensures r.Accept? ==> r.data == Fields(Trim(b.name.s), Trim(b.link.s), Some(NormalizeTags(b.tags)),
                                          Some(CategoryText(b.category)), Some(DescriptionText(b.description)),
                                          NormalizedType(b.kind))
  {
    match RequiredText(b.name)
    case Missing => Reject(NameRequired)
    case NoTrim => Crash
    case Given(name) =>
      match RequiredText(b.link)
      case Missing => Reject(LinkRequired)
      case NoTrim => Crash
      case Given(link) =>
        TrimEmptyIffBlank(ToJsString(b.kind));
        if !Truthy(b.kind) || Trim(ToJsString(b.kind)) == "" then Reject(TypeRequired)
        else if NormalizedType(b.kind) !in Workspaces then Reject(TypeNotAllowed)
        else if !validUrl(link) then Reject(InvalidUrl)
        else if ThrowsOnTrim(b.description) then Crash
        else Accept(Fields(name, link, Some(NormalizeTags(b.tags)), Some(CategoryText(b.category)),
                           Some(DescriptionText(b.description)), NormalizedType(b.kind)))
  }

  /** The first failing check decides, in the order name, link, type present,
      type allowed, URL; a `trim` on a non-string in between throws. */
  lemma CheckLinkOrder(b: LinkBody, validUrl: string -> bool)
    ensures BlankField(b.name) ==> CheckLink(b, validUrl) == Reject(NameRequired)
    ensures ThrowsOnTrim(b.name) ==> CheckLink(b, validUrl) == Crash
    ensures FilledText(b.name) && BlankField(b.link) ==> CheckLink(b, validUrl) == Reject(LinkRequired)
    ensures FilledText(b.name) && ThrowsOnTrim(b.link) ==> CheckLink(b, validUrl) == Crash
    ensures FilledText(b.name) && FilledText(b.link) && (!Truthy(b.kind) || Blank(ToJsString(b.kind))) ==>
              CheckLink(b, validUrl) == Reject(TypeRequired)
    ensures FilledText(b.name) && FilledText(b.link) && Truthy(b.kind) && !Blank(ToJsString(b.kind))
            && NormalizedType(b.kind) !in Workspaces ==>
              CheckLink(b, validUrl) == Reject(TypeNotAllowed)
    ensures FilledText(b.name) && FilledText(b.link) && Truthy(b.kind) && NormalizedType(b.kind) in Workspaces
            && !validUrl(Trim(b.link.s)) ==>
              CheckLink(b, validUrl) == Reject(InvalidUrl)
    ensures PassesChecks(b, validUrl) && ThrowsOnTrim(b.description) ==> CheckLink(b, validUrl) == Crash
  {
    TrimEmptyIffBlank(ToJsString(b.kind));
  }

  /** What the chain accepts the schema accepts too, with every text field already
      trimmed and every tag clean. */
  lemma AcceptedIsStorable(b: LinkBody, validUrl: string -> bool, id: string, now: int)
    requires CheckLink(b, validUrl).Accept?
    ensures var l := Create(CheckLink(b, validUrl).data, id, now);
            l.Some? && l.value.name == Trim(b.name.s) && l.value.link == Trim(b.link.s)
            && l.value.tags == NormalizeTags(b.tags) && l.value.category == CategoryText(b.category)
            && l.value.kind == NormalizedType(b.kind) && l.value.description == DescriptionText(b.description)
            && (forall t :: t in l.value.tags ==> CleanTag(t))
  {
    var f := CheckLink(b, validUrl).data;
    TrimEmptyIffBlank(b.name.s);
    TrimEmptyIffBlank(b.link.s);
    TrimOfTrimmed(f.name);
    TrimOfTrimmed(f.link);
    TrimOfTrimmed(CategoryText(b.category));
    TrimOfTrimmed(DescriptionText(b.description));
  }

  function IdOf(l: Link): string {
    l.id
  }

  /** Every stored document satisfies the schema, and no two share an `_id`. */
  predicate ValidStore(store: seq<Link>) {
    (forall l :: l in store ==> Valid(l)) && UniqueBy(store, IdOf)
  }

  lemma ValidStoreSnoc(store: seq<Link>, l: Link)
    ensures ValidStore(store) && Valid(l) && !HasId(store, l.id) ==> ValidStore(store + [l])
  {
    assert forall x :: x in store + [l] ==> x in store || x == l;
    if ValidStore(store) && !HasId(store, l.id) {
      UniqueBySnoc(store, l, IdOf);
    }
  }

  /** Some stored document has the id. */
  predicate HasId(store: seq<Link>, id: string) {
    exists i :: 0 <= i < |store| && store[i].id == id
  }

  /** `POST /imp-links`: the chain, then `ImpLink.create`; `id` and `now` are the new
      document's ObjectId and creation time. */
  function AddImpLink(b: LinkBody, validUrl: string -> bool, id: string, now: int, store: seq<Link>): (out: (Reply<Link>, seq<Link>))
    requires !HasId(store, id)
    ensures CheckLink(b, validUrl).Reject? ==> out == (Failure(400, Message(CheckLink(b, validUrl).problem)), store)
    ensures CheckLink(b, validUrl).Crash? ==> out == (Failure(500, "Something went wrong while adding the link"), store)
    ensures CheckLink(b, validUrl).Accept? ==>
              out.0.body.data.Some?
              && var l := out.0.body.data.value;
              out == (Success(201, Some("Important link added successfully"), l), store + [l])
              && Valid(l) && l.id == id && l.createdAt == Some(now) && l.name == Trim(b.name.s)
              && l.link == Trim(b.link.s) && l.tags == NormalizeTags(b.tags) && l.category == CategoryText(b.category)
              && l.description == DescriptionText(b.description) && l.kind == NormalizedType(b.kind)
    ensures ValidStore(store) ==> ValidStore(out.1)
  {
    match CheckLink(b, validUrl)
    case Reject(p) => (Failure(400, Message(p)), store)
    case Crash => (Failure(500, "Something went wrong while adding the link"), store)
    case Accept(f) =>
      AcceptedIsStorable(b, validUrl, id, now);
      match Create(f, id, now)
      case Some(l) =>
        ValidStoreSnoc(store, l);
        (Success(201, Some("Important link added successfully"), l), store + [l])
      case None => (Failure(500, "Something went wrong while adding the link"), store)
  }

  /** `sort({ createdAt: -1 })`: newest first; a document without a creation time
      sorts below every time, so it comes last. */
  predicate NewestFirst(a: Link, b: Link) {
    match (a.createdAt, b.createdAt)
    case (Some(x), Some(y)) => x >= y
    case (Some(_), None) => true
    case (None, Some(_)) => false
    case (None, None) => true
  }

  lemma NewestFirstIsTotal()
    ensures Total(NewestFirst)
  {
  }

  /** The filter the listing applies: none without a `type` query, else that type. */
  function TypeFilter(typeQuery: Value): Link -> bool {
    (l: Link) => !Truthy(typeQuery) || l.kind == NormalizedType(typeQuery)
  }

  /** `GET /imp-links?type=`: a `type` query that is given must name a workspace. */
  function GetImpLinks(typeQuery: Value, store: seq<Link>): (r: Reply<seq<Link>>)
    ensures r == Failure(400, "Query 'type' must be either 'office' or 'personal'") <==>
              Truthy(typeQuery) && NormalizedType(typeQuery) !in Workspaces
    ensures r.status == 200 || r.status == 400
    ensures r.status == 200 ==> r.body.success && r.body.data.Some?
    ensures r.status == 200 ==> Sorted(r.body.data.value, NewestFirst)
    ensures r.status == 200 ==> multiset(r.body.data.value) == multiset(Filter(store, TypeFilter(typeQuery)))
    ensures r.status == 200 ==> forall l :: l in r.body.data.value <==>
              l in store && (!Truthy(typeQuery) || l.kind == NormalizedType(typeQuery))
    ensures !Truthy(typeQuery) ==> r.status == 200 && multiset(r.body.data.value) == multiset(store)
  {
    if Truthy(typeQuery) && NormalizedType(typeQuery) !in Workspaces then
      Failure(400, "Query 'type' must be either 'office' or 'personal'")
    else
      NewestFirstIsTotal();
      var kept := Filter(store, TypeFilter(typeQuery));
      var sorted := Sort(kept, NewestFirst);
      assert forall l :: l in sorted <==> l in multiset(kept);
      FilterAllWhenNoQuery(typeQuery, store);
      Success(200, None, sorted)
  }

  lemma FilterAllWhenNoQuery(typeQuery: Value, store: seq<Link>)
    ensures !Truthy(typeQuery) ==> Filter(store, TypeFilter(typeQuery)) == store
  {
    if !Truthy(typeQuery) {
      FilterAll(store, TypeFilter(typeQuery));
    }
  }

  /** The document `findByIdAndUpdate` returns for an accepted body: the checked
      fields over the stored ones, id and creation time kept, schema still met. */
  function Updated(current: Link, b: LinkBody, validUrl: string -> bool): (l: Link)
    requires CheckLink(b, validUrl).Accept?
    ensures l.id == current.id && l.createdAt == current.createdAt && Valid(l)
    ensures l.name == Trim(b.name.s) && l.link == Trim(b.link.s) && l.tags == NormalizeTags(b.tags)
            && l.category == CategoryText(b.category) && l.description == DescriptionText(b.description)
            && l.kind == NormalizedType(b.kind)
  {
    var f := CheckLink(b, validUrl).data;
    current.(name := f.name, link := f.link, tags := f.tags.GetOr([]), category := f.category.GetOr(""),
             description := f.description.GetOr(""), kind := f.kind)
  }

  /** The store after the document with the id is overwritten by `l`. */
  function WriteById(store: seq<Link>, id: string, l: Link): (r: seq<Link>)
    ensures |r| == |store|
    ensures forall i :: 0 <= i < |store| ==> r[i] == (if store[i].id == id then l else store[i])
    ensures ValidStore(store) && Valid(l) && l.id == id ==> ValidStore(r)
  {
    var r := ReplaceWhere(store, (x: Link) => x.id == id, l);
    assert forall x :: x in r ==> x == l || x in store;
    assert l.id == id ==> forall i :: 0 <= i < |r| ==> r[i].id == store[i].id;
    r
  }

  /** With unique ids, `findByIdAndUpdate` overwrites exactly one document. */
  lemma WriteByIdTouchesOne(store: seq<Link>, id: string, l: Link)
    requires ValidStore(store) && HasId(store, id)
    ensures exists k :: 0 <= k < |store| && store[k].id == id && WriteById(store, id, l) == store[k := l]
  {
    var k :| 0 <= k < |store| && store[k].id == id;
    assert forall i :: 0 <= i < |store| && i != k ==> store[i].id != id by {
      forall i | 0 <= i < |store| && i != k
        ensures store[i].id != id
      {
        if i < k {
          assert IdOf(store[i]) != IdOf(store[k]);
        } else {
          assert IdOf(store[k]) != IdOf(store[i]);
        }
      }
    }
    assert WriteById(store, id, l) == store[k := l];
  }

  /** `PUT /imp-links/:id` */
  function UpdateImpLink(id: string, b: LinkBody, validUrl: string -> bool, castable: string -> bool,
                         store: seq<Link>): (out: (Reply<Link>, seq<Link>))
    ensures id == "" ==> out == (Failure(400, "ID is required"), store)
    ensures id != "" && CheckLink(b, validUrl).Reject? ==> out == (Failure(400, Message(CheckLink(b, validUrl).problem)), store)
    ensures id != "" && CheckLink(b, validUrl).Crash? ==>
              out == (Failure(500, "Something went wrong while updating the link"), store)
    ensures id != "" && CheckLink(b, validUrl).Accept? && !castable(id) ==> out == (Failure(400, "Invalid ID format"), store)
    ensures id != "" && CheckLink(b, validUrl).Accept? && castable(id) && !HasId(store, id) ==>
              out == (Failure(404, "Link not found"), store)
    ensures id != "" && CheckLink(b, validUrl).Accept? && castable(id) && HasId(store, id) ==>
              out.0.body.data.Some?
              && var l := out.0.body.data.value;
              out.0 == Success(200, Some("Important link updated successfully"), l)
              && l.id == id && l.name == Trim(b.name.s) && l.link == Trim(b.link.s)
              && l.tags == NormalizeTags(b.tags) && l.category == CategoryText(b.category)
              && l.description == DescriptionText(b.description) && l.kind == NormalizedType(b.kind)
              && |out.1| == |store|
              && forall i :: 0 <= i < |store| ==> out.1[i] == (if store[i].id == id then l else store[i])
    ensures ValidStore(store) ==> ValidStore(out.1)
  {
    if id == "" then (Failure(400, "ID is required"), store)
    else
      match CheckLink(b, validUrl)
      case Reject(p) => (Failure(400, Message(p)), store)
      case Crash => (Failure(500, "Something went wrong while updating the link"), store)
      case Accept(f) =>
        if !castable(id) then (Failure(400, "Invalid ID format"), store)
        else
          match Find(store, (x: Link) => x.id == id)
          case None => (Failure(404, "Link not found"), store)
          case Some(found) =>
            var l := Updated(found, b, validUrl);
            (Success(200, Some("Important link updated successfully"), l), WriteById(store, id, l))
  }

  /** `DELETE /imp-links/:id` */
  function DeleteImpLink(id: string, castable: string -> bool, store: seq<Link>): (out: (Reply<Link>, seq<Link>))
    ensures id == "" ==> out == (Failure(400, "ID is required"), store)
    ensures id != "" && !castable(id) ==> out == (Failure(400, "Invalid ID format"), store)
    ensures out.0 == Failure(404, "Link not found") <==> id != "" && castable(id) && !HasId(store, id)
    ensures out.0.status == 200 <==> id != "" && castable(id) && HasId(store, id)
    ensures out.0.status != 200 ==> out.1 == store && !out.0.body.success
    ensures out.0.status == 200 ==>
              out.0.body.data.Some?
              && out.0 == Success(200, Some("Important link deleted successfully"), out.0.body.data.value)
              && out.0.body.data.value in store && out.0.body.data.value.id == id
              && (forall l :: l in out.1 <==> l in store && l.id != id) && Subseq(out.1, store)
    ensures ValidStore(store) ==> ValidStore(out.1)
  {
    if id == "" then (Failure(400, "ID is required"), store)
    else if !castable(id) then (Failure(400, "Invalid ID format"), store)
    else
      match Find(store, (x: Link) => x.id == id)
      case None => (Failure(404, "Link not found"), store)
      case Some(found) =>
        FilterIsSubseq(store, (x: Link) => x.id != id);
        FilterKeepsUnique(store, (x: Link) => x.id != id, IdOf);
        (Success(200, Some("Important link deleted successfully"), found), Filter(store, (x: Link) => x.id != id))
  }
}
