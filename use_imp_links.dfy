/** The `useImpLinks` hook: the in-memory list of links of one workspace view and how
    each HTTP outcome changes it. */
module UseImpLinks {
  import opened Collections
  import opened Api
  import opened ImpLinkModel

  /** The `type` query parameter `fetchLinks` sends: only when a type is set. */
  function ListQuery(linkType: string): (q: Option<string>)
    ensures q.Some? <==> linkType != ""
    ensures q.Some? ==> q.value == linkType
  {
    if linkType != "" then Some(linkType) else None
  }

  class ImpLinksHook {
    /** The workspace the view shows; "" when the hook is used without one. */
    const linkType: string
    var links: seq<Link>
    var loadingLinks: bool
    var linksError: string

    constructor (linkType: string)
      ensures this.linkType == linkType && links == [] && !loadingLinks && linksError == ""
    {
      this.linkType := linkType;
      links := [];
      loadingLinks := false;
      linksError := "";
    }

    /** `fetchLinks` once the response `res` is in: the list is replaced only on an ok
        reply; otherwise it stays and the error message is set. */
    method FetchLinks(res: Fetched<seq<Link>>)
      modifies this`links, this`loadingLinks, this`linksError
      ensures !loadingLinks
      ensures res.Received? && IsOk(res.reply.status) ==>
                links == res.reply.body.data.GetOr([]) && linksError == ""
      ensures res.Received? && !IsOk(res.reply.status) ==>
                links == old(links) && linksError == OrElse(res.reply.body.message, "Failed to load links")
      ensures res.NetworkError? ==>
                links == old(links) && linksError == OrElse(Some(res.message), "Something went wrong while loading links")
    {
      loadingLinks := true;
      linksError := "";
      match res {
        case NetworkError(m) =>
          linksError := OrElse(Some(m), "Something went wrong while loading links");
        case Received(reply) =>
          if !IsOk(reply.status) {
            linksError := OrElse(reply.body.message, "Failed to load links");
          } else {
            links := reply.body.data.GetOr([]);
          }
      }
      loadingLinks := false;
    }

    /** `addLink`: on an ok reply the created link is put first, but only when the view
        has no type or the link is of the view's type; any failure throws and leaves
        the list alone. */
    method AddLink(res: Fetched<Link>) returns (outcome: Outcome<Option<Link>>)
      modifies this`links
      ensures res.NetworkError? ==> outcome == Thrown(res.message) && links == old(links)
      ensures res.Received? && !IsOk(res.reply.status) ==>
                outcome == Thrown(OrElse(res.reply.body.message, "Failed to add link")) && links == old(links)
      ensures res.Received? && IsOk(res.reply.status) ==> outcome == Done(res.reply.body.data)
      ensures outcome.Done? && outcome.value.Some? && (linkType == "" || outcome.value.value.kind == linkType) ==>
                links == [outcome.value.value] + old(links)
      ensures !(outcome.Done? && outcome.value.Some? && (linkType == "" || outcome.value.value.kind == linkType)) ==>
                links == old(links)
    {
      match res
      case NetworkError(m) =>
        outcome := Thrown(m);
      case Received(reply) =>
        if !IsOk(reply.status) {
          outcome := Thrown(OrElse(reply.body.message, "Failed to add link"));
        } else {
          var created := reply.body.data;
          if created.Some? && (linkType == "" || created.value.kind == linkType) {
            links := [created.value] + links;
          }
          outcome := Done(created);
        }
    }

    /** `updateLink(id, …)`: on an ok reply carrying a link, every element with that id
        is replaced by it, all others stay where they are. */
    method UpdateLink(id: string, res: Fetched<Link>) returns (outcome: Outcome<Option<Link>>)
      modifies this`links
      ensures res.NetworkError? ==> outcome == Thrown(res.message)
      ensures res.Received? && !IsOk(res.reply.status) ==>
                outcome == Thrown(OrElse(res.reply.body.message, "Failed to update link"))
      ensures res.Received? && IsOk(res.reply.status) ==> outcome == Done(res.reply.body.data)
      ensures outcome.Done? && outcome.value.Some? ==>
                links == ReplaceWhere(old(links), (l: Link) => l.id == id, outcome.value.value)
      ensures !(outcome.Done? && outcome.value.Some?) ==> links == old(links)
    {
      match res
      case NetworkError(m) =>
        outcome := Thrown(m);
      case Received(reply) =>
        if !IsOk(reply.status) {
          outcome := Thrown(OrElse(reply.body.message, "Failed to update link"));
        } else {
          if reply.body.data.Some? {
            links := ReplaceWhere(links, (l: Link) => l.id == id, reply.body.data.value);
          }
          outcome := Done(reply.body.data);
        }
    }

    /** `deleteLink(id)`: only after an ok reply are the links with that id dropped. */
    method DeleteLink(id: string, res: Fetched<Link>) returns (outcome: Outcome<Option<Link>>)
      modifies this`links
      ensures res.NetworkError? ==> outcome == Thrown(res.message)
      ensures res.Received? && !IsOk(res.reply.status) ==>
                outcome == Thrown(OrElse(res.reply.body.message, "Failed to delete link"))
      ensures res.Received? && IsOk(res.reply.status) ==> outcome == Done(res.reply.body.data)
      ensures outcome.Done? ==> links == Filter(old(links), (l: Link) => l.id != id)
      ensures outcome.Thrown? ==> links == old(links)
    {
      match res
      case NetworkError(m) =>
        outcome := Thrown(m);
      case Received(reply) =>
        if !IsOk(reply.status) {
          outcome := Thrown(OrElse(reply.body.message, "Failed to delete link"));
        } else {
          links := Filter(links, (l: Link) => l.id != id);
          outcome := Done(reply.body.data);
        }
    }
  }

  /** After a delete no link with the id is left, and every other link is kept. */
  lemma RemoveByIdRemovesAll(links: seq<Link>, id: string)
    ensures forall l :: l in Filter(links, (x: Link) => x.id != id) <==> l in links && l.id != id
    ensures Subseq(Filter(links, (x: Link) => x.id != id), links)
  {
    FilterIsSubseq(links, (x: Link) => x.id != id);
  }
}
