/** The category endpoints: find-or-create by trimmed name, and the listing sorted
    by name. The Category collection is a store object whose list of documents the
    endpoints read and extend; `freshId` is the ObjectId the driver would give a
    new document. */
module CategoryController {
  import opened Text
  import opened Collections
  import opened Api

  /** A stored category. */
  datatype Category = Category(id: string, name: string)

  /** The names of the categories, in store order. */
  function Names(cats: seq<Category>): (r: seq<string>)
    ensures |r| == |cats| && forall i :: 0 <= i < |cats| ==> r[i] == cats[i].name
  {
    Map(cats, (c: Category) => c.name)
  }

  /** What the endpoints keep true of the store: every name trimmed and not empty,
      and no name twice. */
  predicate CleanStore(cats: seq<Category>) {
    (forall c :: c in cats ==> c.name != "" && IsTrimmed(c.name)) && NoDup(Names(cats))
  }

  /** A stored category has the name. */
  predicate HasName(cats: seq<Category>, name: string) {
    exists i :: 0 <= i < |cats| && cats[i].name == name
  }

  /** `POST /categories` on the list of stored categories: a blank name is refused,
      the trimmed name is looked up, an existing category is returned as it is, and
      only a new name creates a category. */
  function FindOrCreate(cats: seq<Category>, name: Value, freshId: string): (out: (Reply<Category>, seq<Category>))
    ensures BlankField(name) ==> out == (Failure(400, "Category name is required"), cats)
    ensures ThrowsOnTrim(name) ==> out == (Failure(500, "Something went wrong while creating category"), cats)
    ensures FilledText(name) && HasName(cats, Trim(name.s)) ==>
              out.1 == cats && out.0.body.data.Some?
              && out.0 == Success(200, Some("Category already exists"), out.0.body.data.value)
              && out.0.body.data.value in cats && out.0.body.data.value.name == Trim(name.s)
    ensures FilledText(name) && !HasName(cats, Trim(name.s)) ==>
              out == (Success(201, Some("Category created successfully"), Category(freshId, Trim(name.s))),
                      cats + [Category(freshId, Trim(name.s))])
  {
    match RequiredText(name)
    case Missing => (Failure(400, "Category name is required"), cats)
    case NoTrim => (Failure(500, "Something went wrong while creating category"), cats)
    case Given(trimmed) =>
      match Find(cats, (c: Category) => c.name == trimmed)
      case Some(existing) => (Success(200, Some("Category already exists"), existing), cats)
      case None =>
        var created := Category(freshId, trimmed);
        (Success(201, Some("Category created successfully"), created), cats + [created])
  }

  /** Adding a category keeps the store clean. */
  lemma FindOrCreateKeepsClean(cats: seq<Category>, name: Value, freshId: string)
    requires CleanStore(cats)
    ensures CleanStore(FindOrCreate(cats, name, freshId).1)
  {
    var out := FindOrCreate(cats, name, freshId);
    if FilledText(name) && !HasName(cats, Trim(name.s)) {
      var created := Category(freshId, Trim(name.s));
      TrimEmptyIffBlank(name.s);
      assert out.1 == cats + [created];
      var names := Names(out.1);
      forall i, j | 0 <= i < j < |names| ensures names[i] != names[j] {
        if j == |cats| {
          assert names[i] == cats[i].name;
        } else {
          assert names[i] == Names(cats)[i] && names[j] == Names(cats)[j];
        }
      }
    }
  }

  /** Find-or-create is idempotent: once a name has been added, adding it again
      (under any spelling with the same trimmed form) answers 200 and creates nothing. */
  lemma FindOrCreateIdempotent(cats: seq<Category>, name: Value, again: Value, freshId: string, otherId: string)
    requires FilledText(name) && again.Str? && Trim(again.s) == Trim(name.s)
    ensures var first := FindOrCreate(cats, name, freshId);
            var second := FindOrCreate(first.1, again, otherId);
            second.1 == first.1 && second.0.status == 200
  {
    var first := FindOrCreate(cats, name, freshId);
    TrimEmptyIffBlank(name.s);
    TrimEmptyIffBlank(again.s);
    if !HasName(cats, Trim(name.s)) {
      assert first.1[|cats|].name == Trim(name.s);
    }
    assert HasName(first.1, Trim(again.s));
  }

  /** `sort({ name: 1 })`, with the store's string order standing in for the
      collation. */
  predicate ByName(a: Category, b: Category) {
    StrLe(a.name, b.name)
  }

  lemma ByNameIsTotal()
    ensures Total(ByName)
  {
    forall a: Category, b: Category ensures ByName(a, b) || ByName(b, a) {
      StrLeTotal(a.name, b.name);
    }
  }

  /** The Category collection. */
  class CategoryStore {
    var categories: seq<Category>

    ghost predicate Valid()
      reads this
    {
      CleanStore(categories)
    }

    constructor ()
      ensures Valid() && categories == []
    {
      categories := [];
    }

    /** `addCategory` */
    method AddCategory(name: Value, freshId: string) returns (reply: Reply<Category>)
      requires Valid()
      modifies this
      ensures Valid()
      ensures (reply, categories) == FindOrCreate(old(categories), name, freshId)
    {
      FindOrCreateKeepsClean(categories, name, freshId);
      match RequiredText(name)
      case Missing =>
        reply := Failure(400, "Category name is required");
      case NoTrim =>
        reply := Failure(500, "Something went wrong while creating category");
      case Given(trimmed) =>
        var existing := Find(categories, (c: Category) => c.name == trimmed);
        if existing.Some? {
          reply := Success(200, Some("Category already exists"), existing.value);
        } else {
          var created := Category(freshId, trimmed);
          categories := categories + [created];
          reply := Success(201, Some("Category created successfully"), created);
        }
    }

    /** `getCategories`: every category, ordered by name. */
    method GetCategories() returns (reply: Reply<seq<Category>>)
      ensures reply.status == 200 && reply.body.success && reply.body.data.Some?
      ensures Sorted(reply.body.data.value, ByName)
      ensures multiset(reply.body.data.value) == multiset(categories)
    {
      ByNameIsTotal();
      reply := Success(200, None, Sort(categories, ByName));
    }
  }
}
