/** The ImpLink collection's schema: a named, trimmed URL with tags, a category, an
    optional description and the workspace it belongs to. */
module ImpLinkModel {
  import opened Text
  import opened Collections
  import opened Api

  /** A stored link. A missing `description` reads as "" (every reader treats it so);
      `kind` is the `type` field, "" on a document written before it existed;
      `createdAt` is the `timestamps` creation time in milliseconds, if any. */
  datatype Link = Link(id: string, name: string, link: string, tags: seq<string>, category: string,
                       description: string, kind: string, createdAt: Option<int>)

  /** What the schema's validators accept of a stored document. */
  predicate Valid(l: Link) {
    l.name != "" && IsTrimmed(l.name) && l.link != "" && IsTrimmed(l.link)
    && IsTrimmed(l.category) && IsTrimmed(l.description) && l.kind in Workspaces
  }

  /** The fields handed to `ImpLink.create`; `None` is a field left out. */
  datatype Fields = Fields(name: string, link: string, tags: Option<seq<string>>, category: Option<string>,
                           description: Option<string>, kind: string)

  /** `ImpLink.create(fields)`: `trim` setters, the defaults `tags: []` and
      `category: ""`, then the `required` and `enum` validators. */
  function Create(f: Fields, id: string, createdAt: int): (r: Option<Link>)
    ensures r.Some? <==> Trim(f.name) != "" && Trim(f.link) != "" && f.kind in Workspaces
    ensures r.Some? ==> Valid(r.value) && r.value.id == id && r.value.createdAt == Some(createdAt)
    ensures r.Some? ==> r.value.tags == f.tags.GetOr([]) && r.value.category == Trim(f.category.GetOr(""))
                        && r.value.name == Trim(f.name) && r.value.link == Trim(f.link) && r.value.kind == f.kind
                        && r.value.description == Trim(f.description.GetOr(""))
  {
    var doc := Link(id, Trim(f.name), Trim(f.link), f.tags.GetOr([]), Trim(f.category.GetOr("")),
                    Trim(f.description.GetOr("")), f.kind, Some(createdAt));
    if Valid(doc) then Some(doc) else None
  }

  /** The `createdTime` virtual: "" without a creation time, else the time as the
      locale formatter `format` renders it. */
  function CreatedTime(l: Link, format: int -> string): (s: string)
    ensures l.createdAt.None? ==> s == ""
    ensures l.createdAt.Some? ==> s == format(l.createdAt.value)
  {
    if l.createdAt.None? then "" else format(l.createdAt.value)
  }
}
