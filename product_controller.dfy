/**
 * The product handlers that change the product collection: adding one
 * product from a form, bulk ingestion from a CSV or spreadsheet file,
 * toggling the status, deleting, and partial updates. The collection is a
 * `ProductStore` object whose table the handlers replace; the image host,
 * the file parsers and the clock come in as parameters.
 */
module ProductController {
  import opened Wrappers
  import opened Text
  import opened JsNumbers
  import opened Tables
  import opened ProductModel
  import opened Multer
  import opened ParseFile

  /** What uploading the request's file to the image host produced, if there was a file. */
  datatype ImageUpload = NoImage | Uploaded(url: string) | UploadFailed

  /** The image URL a handler stores: "" without a file, the host's URL after an upload. */
  function ImageUrlOf(image: ImageUpload): string
    requires !image.UploadFailed?
  {
    if image.Uploaded? then image.url else ""
  }

  /** The multipart form of an add request: every field arrives as optional text. */
  datatype ProductForm = ProductForm(
    name: Option<string>,
    description: Option<string>,
    price: Option<string>,
    category: Option<string>,
    stock: Option<string>,
    status: Option<string>)

  /** The guard of `addProduct`: name, description, price and category are truthy. */
  predicate HasRequiredFields(form: ProductForm) {
    Truthy(form.name) && Truthy(form.description) && Truthy(form.price) && Truthy(form.category)
  }

  /** The document the add handler asks the schema to build. */
  function FormDraft(form: ProductForm, imageUrl: string): Draft {
    Draft(form.name, form.description, FormNumber(form.price), form.category,
          FormNumber(form.stock), Some(imageUrl), form.status)
  }

  /** A form that passes the guard is still rejected by the schema when stock is missing. */
  lemma AddNeedsStockToo(form: ProductForm, imageUrl: string, now: int)
    requires HasRequiredFields(form) && !Truthy(form.stock)
    ensures Construct(FormDraft(form, imageUrl), now).None?
  {
  }

  /** An add without a file stores the empty image URL, so the product cannot be activated later. */
  lemma AddedWithoutImage(form: ProductForm, now: int)
    requires Construct(FormDraft(form, ImageUrlOf(NoImage)), now).Some?
    ensures Construct(FormDraft(form, ImageUrlOf(NoImage)), now).value.imageUrl == Some("")
  {
  }

  // ---------------------------------------------------------------- bulk upload

  /** `Number(x)` of a parsed cell; a missing column is `undefined` and gives NaN. */
  function CellNumber(cell: Option<string>): (n: Num)
    ensures cell.None? ==> n == NaN
    ensures cell.Some? ==> n == JsNumber(cell.value)
  {
    if cell.None? then NaN else JsNumber(cell.value)
  }

  /** The mapping applied to each parsed row before `insertMany`. */
  function RowDraft(row: Row): (d: Draft)
    ensures d.name == row.name && d.description == row.description && d.category == row.category
    ensures d.price == FromJsNumber(CellNumber(row.price)) && d.stock == FromJsNumber(CellNumber(row.stock))
    ensures d.imageUrl == Some(if Truthy(row.imageUrl) then row.imageUrl.value else "")
    ensures d.status == Some(if Truthy(row.status) then row.status.value else "inactive")
  {
    Draft(row.name, row.description, FromJsNumber(CellNumber(row.price)), row.category,
          FromJsNumber(CellNumber(row.stock)),
          Some(if Truthy(row.imageUrl) then row.imageUrl.value else ""),
          Some(if Truthy(row.status) then row.status.value else "inactive"))
  }

  /**
   * Bulk rows default to inactive (the schema's own default is active), an
   * empty price or stock cell becomes 0 and is accepted, and a missing
   * price or stock column rejects the row.
   */
  lemma RowDraftDefaults(row: Row, now: int)
    ensures !Truthy(row.status) && Construct(RowDraft(row), now).Some? ==>
      Construct(RowDraft(row), now).value.status == Inactive
    ensures row.price == Some("") && Construct(RowDraft(row), now).Some? ==>
      Construct(RowDraft(row), now).value.price == 0
    ensures row.price.None? || row.stock.None? ==> Construct(RowDraft(row), now).None?
    ensures !Truthy(row.imageUrl) && Construct(RowDraft(row), now).Some? ==>
      Construct(RowDraft(row), now).value.imageUrl == Some("")
  {
  }

  /** Validating a whole batch: every document is built, or the batch fails as a whole. */
  function ConstructAll(drafts: seq<Draft>, now: int): (r: Option<seq<Product>>)
    ensures r.Some? <==> forall i :: 0 <= i < |drafts| ==> Construct(drafts[i], now).Some?
    ensures r.Some? ==> |r.value| == |drafts|
    ensures r.Some? ==> forall i :: 0 <= i < |drafts| ==> r.value[i] == Construct(drafts[i], now).value
    decreases |drafts|
  {
    if drafts == [] then Some([])
    else
      match Construct(drafts[0], now)
      case None => None
      case Some(p) =>
        match ConstructAll(drafts[1..], now)
        case None => None
        case Some(ps) => Some([p] + ps)
  }

  function RowDrafts(rows: seq<Row>): (ds: seq<Draft>)
    ensures |ds| == |rows|
    ensures forall i :: 0 <= i < |rows| ==> ds[i] == RowDraft(rows[i])
  {
    seq(|rows|, i requires 0 <= i < |rows| => RowDraft(rows[i]))
  }

  /** One bad row rejects the whole file. */
  lemma {:induction false} BadRowRejectsBatch(rows: seq<Row>, k: nat, now: int)
    requires k < |rows| && Construct(RowDraft(rows[k]), now).None?
    ensures ConstructAll(RowDrafts(rows), now).None?
  {
    assert RowDrafts(rows)[k] == RowDraft(rows[k]);
  }

  /** The records the store returns for a batch inserted from identifier `start` on. */
  function NewRecords(start: Id, ps: seq<Product>): (r: seq<Record<Product>>)
    ensures |r| == |ps|
    ensures forall i :: 0 <= i < |ps| ==> r[i] == Record(start + i, ps[i])
  {
    seq(|ps|, i requires 0 <= i < |ps| => Record(start + i, ps[i]))
  }

  // ---------------------------------------------------------------- status toggle

  function Flip(s: Status): (r: Status)
    ensures r != s
  {
    if s == Active then Inactive else Active
  }

  /**
   * `updateStatus` on a stored product: an inactive product without a
   * truthy image URL cannot be activated; otherwise the status flips and the
   * modification time is `now`.
   */
  function ToggleStatus(p: Product, now: int): (r: Option<Product>)
    ensures r.None? <==> p.status == Inactive && !Truthy(p.imageUrl)
    ensures r.Some? ==> r.value.status != p.status && r.value.updatedAt == now
    ensures r.Some? ==> r.value.(status := p.status, updatedAt := p.updatedAt) == p
  {
    if p.status == Inactive && !Truthy(p.imageUrl) then None
    else Some(p.(status := Flip(p.status), updatedAt := now))
  }

  /** Toggling twice restores the product, except that the modification time moves on. */
  lemma ToggleTwice(p: Product, t1: int, t2: int)
    requires ToggleStatus(p, t1).Some?
    requires p.status == Inactive || Truthy(p.imageUrl)
    ensures ToggleStatus(ToggleStatus(p, t1).value, t2) == Some(p.(updatedAt := t2))
  {
  }

  /** An active product without an image can be deactivated but never reactivated. */
  lemma ActiveWithoutImageIsOneWay(p: Product, t1: int, t2: int)
    requires p.status == Active && !Truthy(p.imageUrl)
    ensures ToggleStatus(p, t1).Some?
    ensures ToggleStatus(ToggleStatus(p, t1).value, t2).None?
  {
  }

  // ---------------------------------------------------------------- partial update

  /**
   * The body of an update request after casting. Absent fields are left
   * alone; a numeric field that does not cast makes the update fail.
   */
  datatype ProductPatch = ProductPatch(
    name: Option<string>,
    description: Option<string>,
    price: NumInput,
    category: Option<string>,
    stock: NumInput,
    status: Option<Status>)

  /** Casting the update fails when a numeric field does not cast to a Number. */
  predicate PatchUncastable(patch: ProductPatch) {
    patch.price.Uncastable? || patch.stock.Uncastable?
  }

  /**
   * `findByIdAndUpdate(id, {...body, imageUrl}, {new: true})` on a stored
   * product: no validators run, the image URL is always overwritten, and
   * the modification time becomes `now`. None is a cast error.
   */
  function ApplyPatch(p: Product, patch: ProductPatch, imageUrl: string, now: int): (r: Option<Product>)
    ensures r.None? <==> PatchUncastable(patch)
    ensures r.Some? ==> r.value.imageUrl == Some(imageUrl) && r.value.updatedAt == now && r.value.createdAt == p.createdAt
    ensures r.Some? ==> r.value.name == patch.name.GetOr(p.name)
    ensures r.Some? ==> r.value.description == patch.description.GetOr(p.description)
    ensures r.Some? ==> r.value.category == patch.category.GetOr(p.category)
    ensures r.Some? ==> r.value.status == patch.status.GetOr(p.status)
    ensures r.Some? ==> r.value.price == (if patch.price.Number? then patch.price.value else p.price)
    ensures r.Some? ==> r.value.stock == (if patch.stock.Number? then patch.stock.value else p.stock)
  {
    if PatchUncastable(patch) then None
    else
      Some(Product(
        patch.name.GetOr(p.name),
        patch.description.GetOr(p.description),
        if patch.price.Number? then patch.price.value else p.price,
        patch.category.GetOr(p.category),
        if patch.stock.Number? then patch.stock.value else p.stock,
        Some(imageUrl),
        patch.status.GetOr(p.status),
        p.createdAt,
        now))
  }

  /** An update without a file wipes the image, after which an inactive product cannot be activated. */
  lemma UpdateWithoutFileClearsImage(p: Product, patch: ProductPatch, now: int, later: int)
    requires ApplyPatch(p, patch, ImageUrlOf(NoImage), now).Some?
    ensures ApplyPatch(p, patch, ImageUrlOf(NoImage), now).value.imageUrl == Some("")
    ensures ApplyPatch(p, patch, ImageUrlOf(NoImage), now).value.status == Inactive ==>
      ToggleStatus(ApplyPatch(p, patch, ImageUrlOf(NoImage), now).value, later).None?
  {
  }

  /** Updates skip validation: an empty name is stored, and the product no longer conforms. */
  lemma UpdateSkipsValidation(p: Product, now: int)
    ensures var r := ApplyPatch(p, ProductPatch(Some(""), None, NoNumber, None, NoNumber, None), "", now);
      r.Some? && r.value.name == "" && !Conforms(r.value)
  {
  }

  /** An empty patch only refreshes the image URL and the modification time. */
  lemma EmptyPatchChangesNothingElse(p: Product, imageUrl: string, now: int)
    ensures ApplyPatch(p, ProductPatch(None, None, NoNumber, None, NoNumber, None), imageUrl, now) ==
      Some(p.(imageUrl := Some(imageUrl), updatedAt := now))
  {
  }

  // ---------------------------------------------------------------- categories

  /** `distinct('category')`: the set of categories of the stored products. */
  /** `distinct('category')`: every stored product's category, and nothing else. */
  function Categories(t: Table<Product>): (cs: set<string>)
    ensures forall id :: id in t.rows ==> t.rows[id].category in cs
    ensures forall c :: c in cs ==> exists id :: id in t.rows && t.rows[id].category == c
  {
    CategorySet(t.rows)
  }

  function CategorySet(rows: map<Id, Product>): set<string> {
    set id | id in rows :: rows[id].category
  }

  /** A map holds no more distinct categories than entries. */
  lemma {:induction false} CategoryCount(rows: map<Id, Product>)
    ensures |CategorySet(rows)| <= |rows|
    decreases |rows|
  {
    if rows != map[] {
      var k :| k in rows;
      var rest := rows - {k};
      CategoryCount(rest);
      var img := CategorySet(rows);
      var restImg := CategorySet(rest);
      assert img <= restImg + {rows[k].category} by {
        forall c | c in img ensures c in restImg + {rows[k].category} {
          var id :| id in rows && rows[id].category == c;
          if id != k { assert id in rest; }
        }
      }
      SubsetCard(img, restImg + {rows[k].category});
      assert |restImg + {rows[k].category}| <= |restImg| + 1;
      assert rest.Keys == rows.Keys - {k};
      assert |rest| == |rows| - 1;
    } else {
      assert CategorySet(rows) == {};
    }
  }

  lemma {:induction false} SubsetCard<X>(a: set<X>, b: set<X>)
    requires a <= b
    ensures |a| <= |b|
    decreases |b|
  {
    if a != {} {
      var x :| x in a;
      SubsetCard(a - {x}, b - {x});
    }
  }

  /** Adding a product adds its category and nothing else; deleting one never adds a category. */
  lemma CategoriesAfterChange(t: Table<Product>, p: Product, id: Id)
    requires t.Valid()
    ensures Categories(t.Insert(p)) == Categories(t) + {p.category}
    ensures Categories(t.Delete(id)) <= Categories(t)
  {
    var t' := t.Insert(p);
    assert t.nextId in t'.rows && t'.rows[t.nextId] == p;
    forall c | c in Categories(t') ensures c in Categories(t) + {p.category} {
      var k :| k in t'.rows && t'.rows[k].category == c;
      if k != t.nextId { assert k in t.rows; }
    }
    forall c | c in Categories(t) ensures c in Categories(t') {
      var k :| k in t.rows && t.rows[k].category == c;
      assert k != t.nextId && t'.rows[k] == t.rows[k];
    }
  }

  // ---------------------------------------------------------------- outcomes

  datatype AddOutcome = MissingFields | AddFailed | Added(id: Id, product: Product) {
    function Code(): int {
      match this
      case MissingFields => 400
      case AddFailed => 500
      case Added(_, _) => 201
    }
  }

  datatype BulkOutcome = NoFileUploaded | EmptyOrInvalid | BulkFailed
                       | BulkInserted(insertedCount: nat, data: seq<Record<Product>>) {
    function Code(): int {
      match this
      case NoFileUploaded => 400
      case EmptyOrInvalid => 400
      case BulkFailed => 500
      case BulkInserted(_, _) => 200
    }
  }

  /** `NotSaved` is a rejected save outside any `try`: the request gets no response. */
  datatype StatusOutcome = StatusNotFound | MissingImage | NotSaved | StatusUpdated(product: Product) {
    function Code(): Option<int> {
      match this
      case StatusNotFound => Some(404)
      case MissingImage => Some(400)
      case NotSaved => None
      case StatusUpdated(_) => Some(200)
    }
  }

  datatype DeleteOutcome = DeleteNotFound | Deleted {
    function Code(): int {
      if this == Deleted then 200 else 404
    }
  }

  /** `UploadUnhandled` is an image upload that failed before the `try`: no response. */
  datatype UpdateOutcome = UploadUnhandled | UpdateNotFound | UpdateFailed | Updated(product: Product) {
    function Code(): Option<int> {
      match this
      case UploadUnhandled => None
      case UpdateNotFound => Some(404)
      case UpdateFailed => Some(500)
      case Updated(_) => Some(200)
    }
  }

  // ---------------------------------------------------------------- the store

  class ProductStore {
    var table: Table<Product>

    ghost predicate Valid()
      reads this
    {
      table.Valid()
    }

    constructor ()
      ensures Valid() && table.Entries() == []
    {
      table := EmptyTable();
    }

    /** `addProduct`: guard, image upload, schema validation, insert. */
    method AddProduct(form: ProductForm, image: ImageUpload, now: int) returns (res: AddOutcome)
      requires Valid()
      modifies this
      ensures Valid()
      ensures res == MissingFields <==> !HasRequiredFields(form)
      ensures res.Added? <==>
        HasRequiredFields(form) && !image.UploadFailed? && Construct(FormDraft(form, ImageUrlOf(image)), now).Some?
      ensures res.Added? ==>
        res.product == Construct(FormDraft(form, ImageUrlOf(image)), now).value &&
        res.id == old(table).nextId && table == old(table).Insert(res.product) &&
        table.Entries() == old(table).Entries() + [Record(res.id, res.product)]
      ensures !res.Added? ==> table == old(table)
    {
      if !HasRequiredFields(form) {
        return MissingFields;
      }
      if image.UploadFailed? {
        return AddFailed;
      }
      var built := Construct(FormDraft(form, ImageUrlOf(image)), now);
      if built.None? {
        return AddFailed;
      }
      var id := table.nextId;
      InsertEntries(table, built.value);
      table := table.Insert(built.value);
      res := Added(id, built.value);
    }

    /** `bulkUploadProducts`: parse, map each row, validate the batch, insert it. */
    method BulkUpload(file: Option<UploadedFile>,
                      csv: seq<byte> -> Option<seq<Row>>,
                      workbook: seq<byte> -> Option<seq<seq<Row>>>,
                      now: int) returns (res: BulkOutcome)
      requires Valid()
      modifies this
      ensures Valid()
      ensures res == NoFileUploaded <==> file.None?
      ensures file.Some? && ParseFileBuffer(file.value, csv, workbook).Failure? ==> res == BulkFailed
      ensures res == EmptyOrInvalid <==>
        file.Some? && ParseFileBuffer(file.value, csv, workbook) == Success([])
      ensures res.BulkInserted? <==>
        file.Some? && ParseFileBuffer(file.value, csv, workbook).Success? &&
        ParseFileBuffer(file.value, csv, workbook).value != [] &&
        ConstructAll(RowDrafts(ParseFileBuffer(file.value, csv, workbook).value), now).Some?
      ensures res.BulkInserted? ==>
        var ps := ConstructAll(RowDrafts(ParseFileBuffer(file.value, csv, workbook).value), now).value;
        res.insertedCount == |ParseFileBuffer(file.value, csv, workbook).value| &&
        res.data == NewRecords(old(table).nextId, ps) &&
        table == old(table).InsertAll(ps)
      ensures !res.BulkInserted? ==> table == old(table)
    {
      if file.None? {
        return NoFileUploaded;
      }
      var parsed := ParseFileBuffer(file.value, csv, workbook);
      if parsed.Failure? {
        return BulkFailed;
      }
      var rows := parsed.value;
      if rows == [] {
        return EmptyOrInvalid;
      }
      var built := ConstructAll(RowDrafts(rows), now);
      if built.None? {
        return BulkFailed;
      }
      var start := table.nextId;
      InsertAllEntries(table, built.value);
      table := table.InsertAll(built.value);
      res := BulkInserted(|built.value|, NewRecords(start, built.value));
    }

    /** `updateStatus`: look up, refuse activation without an image, flip, save with validation. */
    method UpdateStatus(id: Id, now: int) returns (res: StatusOutcome)
      requires Valid()
      modifies this
      ensures Valid()
      ensures res == StatusNotFound <==> id !in old(table).rows
      ensures id in old(table).rows ==>
        (res == MissingImage <==> ToggleStatus(old(table).rows[id], now).None?)
      ensures res.StatusUpdated? <==>
        id in old(table).rows && ToggleStatus(old(table).rows[id], now).Some? &&
        Conforms(ToggleStatus(old(table).rows[id], now).value)
      ensures res.StatusUpdated? ==>
        res.product == ToggleStatus(old(table).rows[id], now).value &&
        table == old(table).Put(id, res.product)
      ensures !res.StatusUpdated? ==> table == old(table)
    {
      var found := table.Find(id);
      if found.None? {
        return StatusNotFound;
      }
      var toggled := ToggleStatus(found.value, now);
      if toggled.None? {
        return MissingImage;
      }
      if !Conforms(toggled.value) {
        return NotSaved;
      }
      PutEntries(table, id, toggled.value);
      table := table.Put(id, toggled.value);
      res := StatusUpdated(toggled.value);
    }

    /** `deleteProduct`: 404 for an unknown identifier, otherwise the record is removed. */
    method DeleteProduct(id: Id) returns (res: DeleteOutcome)
      requires Valid()
      modifies this
      ensures Valid()
      ensures res == Deleted <==> id in old(table).rows
      ensures table == if res == Deleted then old(table).Delete(id) else old(table)
      ensures id !in table.rows && table.Size() == old(table).Size() - (if res == Deleted then 1 else 0)
    {
      if id !in table.rows {
        return DeleteNotFound;
      }
      DeleteEntries(table, id);
      table := table.Delete(id);
      res := Deleted;
    }

    /**
     * `updateProduct`: upload (unguarded), then an unvalidated partial update.
     * Mongoose casts the update before it queries, so a cast error answers
     * 500 whether or not the identifier is stored.
     */
    method UpdateProduct(id: Id, patch: ProductPatch, image: ImageUpload, now: int) returns (res: UpdateOutcome)
      requires Valid()
      modifies this
      ensures Valid()
      ensures res == UploadUnhandled <==> image.UploadFailed?
      ensures res == UpdateFailed <==> !image.UploadFailed? && PatchUncastable(patch)
      ensures res == UpdateNotFound <==> !image.UploadFailed? && !PatchUncastable(patch) && id !in old(table).rows
      ensures res.Updated? <==>
        !image.UploadFailed? && id in old(table).rows &&
        ApplyPatch(old(table).rows[id], patch, ImageUrlOf(image), now).Some?
      ensures res.Updated? ==>
        res.product == ApplyPatch(old(table).rows[id], patch, ImageUrlOf(image), now).value &&
        table == old(table).Put(id, res.product)
      ensures !res.Updated? ==> table == old(table)
    {
      if image.UploadFailed? {
        return UploadUnhandled;
      }
      if PatchUncastable(patch) {
        return UpdateFailed;
      }
      var found := table.Find(id);
      if found.None? {
        return UpdateNotFound;
      }
      var patched := ApplyPatch(found.value, patch, ImageUrlOf(image), now);
      PutEntries(table, id, patched.value);
      table := table.Put(id, patched.value);
      res := Updated(patched.value);
    }
  }
}
