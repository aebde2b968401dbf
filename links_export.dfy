/** The Excel export of the links: every stored link, newest first, becomes one row
    of the "Office" sheet or of the "Personal" sheet. The workbook is modelled as its
    two sheets' names, columns and rows; the date text is the locale formatter
    `format`, a parameter. */
module LinksExport {
  import opened Text
  import opened Collections
  import opened ImpLinkModel
  import ImpLinkController

  /** A sheet column: its header text, its row key and its width. */
  datatype Column = Column(header: string, key: string, width: nat)

  /** The columns `createSheet` gives every sheet. */
  const Columns: seq<Column> := [
    Column("Title of card", "title", 40),
    Column("Link", "link", 50),
    Column("Category", "category", 20),
    Column("Tags", "tags", 30),
    Column("Description", "description", 40),
    Column("Created At", "createdAt", 22)
  ]

  /** One row, by column key. */
  datatype Row = Row(title: string, link: string, category: string, tags: string,
                     description: string, createdAt: string)

  datatype Sheet = Sheet(name: string, columns: seq<Column>, rows: seq<Row>)

  /** The export's own `formatDate` (en-IN, short month, 12-hour clock), distinct from
      the schema's `createdTime` virtual: "" without a date, else the date as the
      locale formatter `format` renders it. */
  function FormatDate(date: Option<int>, format: int -> string): string {
    if date.None? then "" else format(date.value)
  }

  /** The row of one link: missing text is "", the tags are joined with ", " and the
      creation time goes through `formatDate`, giving "" when there is none. */
  function RowOf(l: Link, format: int -> string): (r: Row)
    ensures r.title == l.name && r.link == l.link && r.category == l.category
            && r.description == l.description
    ensures r.tags == Join(l.tags, ", ")
    ensures l.createdAt.None? ==> r.createdAt == ""
    ensures l.createdAt.Some? ==> r.createdAt == format(l.createdAt.value)
  {
    Row(l.name, l.link, l.category, Join(l.tags, ", "), l.description, FormatDate(l.createdAt, format))
  }

  function RowMaker(format: int -> string): Link -> Row {
    (l: Link) => RowOf(l, format)
  }

  /** `(linkDoc.type || "personal") === "office"`: only an "office" link goes to the
      Office sheet; a missing or any other type goes to Personal. */
  predicate ToOffice(l: Link) {
    (if l.kind == "" then "personal" else l.kind) == "office"
  }

  predicate ToPersonal(l: Link) {
    !ToOffice(l)
  }

  lemma ToOfficeExactly(l: Link)
    ensures ToOffice(l) <==> l.kind == "office"
  {
  }

  /** `ImpLink.find().sort({ createdAt: -1 })`: every stored link, newest first. */
  function Fetched(store: seq<Link>): (r: seq<Link>)
    ensures Sorted(r, ImpLinkController.NewestFirst) && multiset(r) == multiset(store)
  {
    ImpLinkController.NewestFirstIsTotal();
    Sort(store, ImpLinkController.NewestFirst)
  }

  /** `exportImpLinksExcel`: fetch newest first, make both sheets, then append each
      link's row to the sheet its type selects. */
  method Export(store: seq<Link>, format: int -> string) returns (office: Sheet, personal: Sheet)
    ensures office.name == "Office" && personal.name == "Personal"
    ensures office.columns == Columns && personal.columns == Columns
    ensures office.rows == Map(Filter(Fetched(store), ToOffice), RowMaker(format))
    ensures personal.rows == Map(Filter(Fetched(store), ToPersonal), RowMaker(format))
  {
    var fetched := Fetched(store);
    var officeRows, personalRows := [], [];
    var i := 0;
    while i < |fetched|
      invariant 0 <= i <= |fetched|
      invariant officeRows == Map(Filter(fetched[..i], ToOffice), RowMaker(format))
      invariant personalRows == Map(Filter(fetched[..i], ToPersonal), RowMaker(format))
    {
      var doc := fetched[i];
      NextRow(fetched, i, format);
      if ToOffice(doc) {
        officeRows := officeRows + [RowOf(doc, format)];
      } else {
        personalRows := personalRows + [RowOf(doc, format)];
      }
      i := i + 1;
    }
    TakeAll(fetched);
    office := Sheet("Office", Columns, officeRows);
    personal := Sheet("Personal", Columns, personalRows);
  }

  /** The link at `i` adds its row to the sheet it goes to, and nothing to the other. */
  lemma NextRow(fetched: seq<Link>, i: nat, format: int -> string)
    requires i < |fetched|
    ensures Map(Filter(fetched[..i + 1], ToOffice), RowMaker(format))
            == Map(Filter(fetched[..i], ToOffice), RowMaker(format)) + (if ToOffice(fetched[i]) then [RowOf(fetched[i], format)] else [])
    ensures Map(Filter(fetched[..i + 1], ToPersonal), RowMaker(format))
            == Map(Filter(fetched[..i], ToPersonal), RowMaker(format)) + (if ToOffice(fetched[i]) then [] else [RowOf(fetched[i], format)])
  {
    TakeOneMore(fetched, i);
    OneMoreRow(fetched[..i], fetched[i], ToOffice, format);
    OneMoreRow(fetched[..i], fetched[i], ToPersonal, format);
  }

  /** One more fetched link adds its row to the sheet it goes to, and nothing to the other. */
  lemma OneMoreRow(done: seq<Link>, doc: Link, goes: Link -> bool, format: int -> string)
    ensures Map(Filter(done + [doc], goes), RowMaker(format))
            == Map(Filter(done, goes), RowMaker(format)) + (if goes(doc) then [RowOf(doc, format)] else [])
  {
    FilterAppend(done, [doc], goes);
    assert Filter([doc], goes) == if goes(doc) then [doc] else [];
    if goes(doc) {
      MapSnoc(Filter(done, goes), doc, RowMaker(format));
    } else {
      assert Filter(done, goes) + [] == Filter(done, goes);
    }
  }

  /** The two sheets split the links: each link counts in exactly one of them. */
  lemma {:induction false} SheetsPartition(links: seq<Link>)
    ensures |Filter(links, ToOffice)| + |Filter(links, ToPersonal)| == |links|
    ensures forall l :: l in links ==> (l in Filter(links, ToOffice) <==> l !in Filter(links, ToPersonal))
  {
    if links != [] {
      SheetsPartition(links[1..]);
    }
  }

  /** So an export has one row per stored link. */
  lemma ExportRowCount(store: seq<Link>, format: int -> string)
    ensures |Map(Filter(Fetched(store), ToOffice), RowMaker(format))|
            + |Map(Filter(Fetched(store), ToPersonal), RowMaker(format))| == |store|
  {
    var fetched := Fetched(store);
    SheetsPartition(fetched);
    assert |fetched| == |multiset(fetched)| == |store|;
  }

  /** The rows of a sheet keep the fetch order: they are the rows of a subsequence of
      the fetched links. */
  lemma SheetKeepsOrder(fetched: seq<Link>)
    ensures Subseq(Filter(fetched, ToOffice), fetched) && Subseq(Filter(fetched, ToPersonal), fetched)
  {
    FilterIsSubseq(fetched, ToOffice);
    FilterIsSubseq(fetched, ToPersonal);
  }
}
