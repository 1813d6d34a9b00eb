/**
 * `ProductImportService`: the per-row state machine of a bulk product
 * import over the product and category tables, the per-job counters and
 * log, and the terminal status.
 *
 * The specification is a set of functions on `RunState` (`StepRow`,
 * `RunRows`, `Processed`); the class `Importer` keeps the same state in
 * fields and its methods are proved to change it as those functions say.
 *
 * Database work inside `transaction.atomic` either commits as a whole or
 * leaves the tables as they were; the job's counters live in memory and
 * are not rolled back. The outside world enters as inputs: the rows the
 * file reader produced, a fault per row, which image paths exist in
 * storage and which URLs download, and the clock and random parts of a
 * generated SKU.
 */
module ImportService {
  import opened Wrappers
  import opened Text
  import opened ImportModels
  import opened ImportRules
  import opened ProductModels

  /** The tables an import reads and writes: products by SKU, categories by slug, and the next free ids. */
  datatype Catalog = Catalog(
    products: map<string, Product>,
    categories: CategoryTable,
    nextProductId: nat,
    nextCategoryId: nat)

  /** A job being processed: the job record, the tables, and the log entries written so far. */
  datatype RunState = RunState(job: ImportJob, catalog: Catalog, logs: seq<ImportLog>)

  /**
   * A database failure in one row: the product write in the atomic block
   * raises, or the first log write of the row raises.
   */
  datatype RowFault = Healthy | WriteFails(reason: string) | LogFails(reason: string)

  /** Paths present in file storage and URLs whose download succeeds. */
  datatype ImageSources = ImageSources(stored: set<string>, downloadable: set<string>)

  /** What the outside world contributes to one row. */
  datatype RowInput = RowInput(fault: RowFault, images: ImageSources, skuStamp: string, skuRandom: nat)

  /** `slugify(text, allow_unicode=True)` and plain `slugify(text)`; Django's slug rules are outside this model. */
  datatype Slugifiers = Slugifiers(unicode: string -> string, ascii: string -> string)

  /** What the file reader yields: rows per CSV encoding tried (utf-8, utf-8-sig, cp1251, latin1), and the Excel reader's rows or error. */
  datatype FileInput = FileInput(path: string, csv: seq<Option<seq<Row>>>, excel: Result<seq<Row>, string>)

  // ---------------------------------------------------------------------
  // Table invariants
  // ---------------------------------------------------------------------

  predicate ProductValid(c: Catalog, k: string)
    requires k in c.products
  {
    var p := c.products[k];
    p.sku == k && p.id < c.nextProductId
    && p.categories <= c.categories.Keys
    && (p.mainCategory.Some? ==> p.mainCategory.value in c.categories)
    && AtMostOneMain(p.images)
  }

  /**
   * The schema's constraints: SKUs, slugs and ids of products are unique,
   * their categories exist, at most one image per product is main;
   * categories are keyed by slug and their names are unique.
   */
  predicate CatalogValid(c: Catalog) {
    (forall k :: k in c.products ==> ProductValid(c, k))
    && (forall k1, k2 :: k1 in c.products && k2 in c.products && k1 != k2 ==>
          c.products[k1].slug != c.products[k2].slug && c.products[k1].id != c.products[k2].id)
    && (forall k :: k in c.categories ==> c.categories[k].slug == k)
    && (forall k1, k2 :: k1 in c.categories && k2 in c.categories && k1 != k2 ==>
          c.categories[k1].name != c.categories[k2].name)
  }

  /** The tables are valid and the job's default category exists. */
  predicate StateValid(s: RunState) {
    CatalogValid(s.catalog)
    && (s.job.defaultCategory.Some? ==> s.job.defaultCategory.value in s.catalog.categories)
  }

  /** `c2` keeps every product and category of `c` except that categories may be added. */
  predicate CategoriesGrow(c: Catalog, c2: Catalog) {
    c2.products == c.products && c2.nextProductId == c.nextProductId
    && c.nextCategoryId <= c2.nextCategoryId && KeepsCategories(c, c2)
  }

  /** Every category of `c` is in `c2` unchanged. */
  predicate KeepsCategories(c: Catalog, c2: Catalog) {
    forall k :: k in c.categories ==> k in c2.categories && c2.categories[k] == c.categories[k]
  }

  /** The product's categories, and its main category, are all in `cats`. */
  predicate CategoriesExist(p: Product, cats: CategoryTable) {
    p.categories <= cats.Keys && (p.mainCategory.Some? ==> p.mainCategory.value in cats)
  }


  // ---------------------------------------------------------------------
  // Categories
  // ---------------------------------------------------------------------

  predicate NameTaken(cats: CategoryTable, name: string) {
    exists k :: k in cats && cats[k].name == name
  }

  /**
   * `Category.objects.get_or_create(slug=slugify(name), defaults=...)`: the
   * category with that slug, or a new active root category; creating fails
   * when another category already has the name.
   */
  function GetOrCreateCategory(c: Catalog, name: string, slugify: string -> string): (r: Result<(Catalog, string), Cause>)
    ensures r.Err? <==> slugify(name) !in c.categories && NameTaken(c.categories, name)
    ensures r.Err? ==> r.error == Integrity
    ensures r.Ok? ==> r.value.1 == slugify(name) && r.value.1 in r.value.0.categories
    ensures r.Ok? ==> r.value.0.products == c.products && r.value.0.nextProductId == c.nextProductId
  {
    var slug := slugify(name);
    if slug in c.categories then Ok((c, slug))
    else if NameTaken(c.categories, name) then Err(Integrity)
    else
      var cat := Category(c.nextCategoryId, name, slug, None, true, 0);
      Ok((c.(categories := c.categories[slug := cat], nextCategoryId := c.nextCategoryId + 1), slug))
  }

  /** A lookup only adds categories, and a category it creates carries the text as its name. */
  lemma GetOrCreateCategoryGrows(c: Catalog, name: string, slugify: string -> string)
    ensures GetOrCreateCategory(c, name, slugify).Ok? ==> CategoriesGrow(c, GetOrCreateCategory(c, name, slugify).value.0)
    ensures GetOrCreateCategory(c, name, slugify).Ok? && slugify(name) !in c.categories ==>
      GetOrCreateCategory(c, name, slugify).value.0.categories[slugify(name)].name == name
  {
  }

  /** A lookup keeps the tables valid: a created category's slug and name are both new. */
  lemma GetOrCreateCategoryValid(c: Catalog, name: string, slugify: string -> string)
    ensures GetOrCreateCategory(c, name, slugify).Ok? && CatalogValid(c) ==> CatalogValid(GetOrCreateCategory(c, name, slugify).value.0)
  {
    var r := GetOrCreateCategory(c, name, slugify);
    if r.Ok? && slugify(name) !in c.categories && CatalogValid(c) {
      var c2 := r.value.0;
      forall k | k in c2.products ensures ProductValid(c2, k) {
        assert ProductValid(c, k);
      }
    }
  }

  /**
   * `_parse_categories` over the comma-separated parts of a text: each
   * part stripped, empty ones skipped, the rest looked up or created in
   * turn; the first failure ends the lookup.
   */
  function ResolveParts(c: Catalog, parts: seq<string>, slugify: string -> string): (r: Result<(Catalog, seq<string>), Cause>)
    ensures r.Err? ==> r.error == Integrity
    ensures r.Ok? ==> r.value.0.products == c.products && r.value.0.nextProductId == c.nextProductId
  {
    if parts == [] then Ok((c, []))
    else
      match ResolveParts(c, parts[..|parts| - 1], slugify)
      case Err(e) => Err(e)
      case Ok(front) =>
        var name := Strip(parts[|parts| - 1]);
        if name == "" then Ok(front)
        else
          match GetOrCreateCategory(front.0, name, slugify)
          case Err(e) => Err(e)
          case Ok(last) => Ok((last.0, front.1 + [last.1]))
  }

  /** One more part: skipped when blank, otherwise looked up or created. */
  lemma ResolvePartsNext(c: Catalog, parts: seq<string>, i: nat, slugify: string -> string)
    requires i < |parts|
    ensures ResolveParts(c, parts[..i + 1], slugify) ==
      match ResolveParts(c, parts[..i], slugify)
      case Err(e) => Err(e)
      case Ok(front) =>
        if Strip(parts[i]) == "" then Ok(front)
        else match GetOrCreateCategory(front.0, Strip(parts[i]), slugify)
          case Err(e) => Err(e)
          case Ok(last) => Ok((last.0, front.1 + [last.1]))
  {
    assert parts[..i + 1][..i] == parts[..i];
  }

  /** A failure among the first parts is a failure of the whole list. */
  lemma {:induction false} ResolvePartsErrSticks(c: Catalog, parts: seq<string>, i: nat, slugify: string -> string)
    requires i <= |parts| && ResolveParts(c, parts[..i], slugify).Err?
    ensures ResolveParts(c, parts, slugify).Err?
    decreases |parts|
  {
    if i < |parts| {
      var n := |parts| - 1;
      assert parts[..n][..i] == parts[..i];
      ResolvePartsErrSticks(c, parts[..n], i, slugify);
      ResolvePartsNext(c, parts, n, slugify);
      assert parts[..n + 1] == parts;
    } else {
      assert parts[..i] == parts;
    }
  }

  /** `slugs` are the slugs of `names`, in order, and each names a category of `cats`. */
  predicate SlugsOf(slugs: seq<string>, names: seq<string>, slugify: string -> string, cats: CategoryTable) {
    |slugs| == |names| && forall i :: 0 <= i < |slugs| ==> slugs[i] == slugify(names[i]) && slugs[i] in cats
  }

  /** Resolving the parts only adds categories. */
  lemma {:induction false} ResolvePartsGrows(c: Catalog, parts: seq<string>, slugify: string -> string)
    ensures ResolveParts(c, parts, slugify).Ok? ==> CategoriesGrow(c, ResolveParts(c, parts, slugify).value.0)
  {
    if parts != [] {
      var n := |parts| - 1;
      ResolvePartsGrows(c, parts[..n], slugify);
      var front := ResolveParts(c, parts[..n], slugify);
      if front.Ok? && Strip(parts[n]) != "" {
        GetOrCreateCategoryGrows(front.value.0, Strip(parts[n]), slugify);
      }
    }
  }

  /** The slugs found are those of the non-blank stripped parts, in order, each naming a category. */
  lemma {:induction false} ResolvePartsSlugs(c: Catalog, parts: seq<string>, slugify: string -> string)
    ensures ResolveParts(c, parts, slugify).Ok? ==>
      SlugsOf(ResolveParts(c, parts, slugify).value.1, NonEmptyStripped(parts), slugify, ResolveParts(c, parts, slugify).value.0.categories)
  {
    if parts != [] {
      var n := |parts| - 1;
      ResolvePartsSlugs(c, parts[..n], slugify);
      var front := ResolveParts(c, parts[..n], slugify);
      if front.Ok? && Strip(parts[n]) != "" {
        GetOrCreateCategoryGrows(front.value.0, Strip(parts[n]), slugify);
      }
    }
  }

  /** Resolving categories keeps the tables valid. */
  lemma {:induction false} ResolvePartsValid(c: Catalog, parts: seq<string>, slugify: string -> string)
    ensures ResolveParts(c, parts, slugify).Ok? && CatalogValid(c) ==> CatalogValid(ResolveParts(c, parts, slugify).value.0)
  {
    if parts != [] {
      var n := |parts| - 1;
      ResolvePartsValid(c, parts[..n], slugify);
      var front := ResolveParts(c, parts[..n], slugify);
      if front.Ok? && Strip(parts[n]) != "" {
        GetOrCreateCategoryValid(front.value.0, Strip(parts[n]), slugify);
      }
    }
  }

  /** The categories named in a text, looked up or created. */
  function ResolveCategories(c: Catalog, text: string, slugify: string -> string): (r: Result<(Catalog, seq<string>), Cause>)
    ensures r.Err? ==> r.error == Integrity
    ensures r.Ok? ==> r.value.0.products == c.products && r.value.0.nextProductId == c.nextProductId
  {
    ResolveParts(c, Split(text, ','), slugify)
  }

  /** The slugs found are those of the category names of the text, in order, each naming a category. */
  lemma ResolveCategoriesSlugs(c: Catalog, text: string, slugify: string -> string)
    ensures ResolveCategories(c, text, slugify).Ok? ==>
      SlugsOf(ResolveCategories(c, text, slugify).value.1, CategoryNames(text), slugify, ResolveCategories(c, text, slugify).value.0.categories)
  {
    ResolvePartsSlugs(c, Split(text, ','), slugify);
  }

  function SetOf(slugs: seq<string>): (s: set<string>)
    ensures forall x :: x in s <==> x in slugs
  {
    set i | 0 <= i < |slugs| :: slugs[i]
  }

  // ---------------------------------------------------------------------
  // Images
  // ---------------------------------------------------------------------

  /**
   * `_download_image` for one image cell: a null-marker URL gives nothing; a
   * `/media/` URL names a stored file and gives an image only when the file
   * exists; any other URL gives an uploaded file `<stem>_<position>.<ext>`
   * when it downloads, and nothing when it does not (the failure is only
   * printed). The image at position 1 is the main one.
   */
  function ImageFor(stem: string, cell: ImageCell, src: ImageSources): (r: Option<ProductImage>)
    ensures r.Some? ==> r.value.order == cell.position && r.value.isMain == (cell.position == 1)
    ensures r.Some? <==> Lower(cell.url) !in UrlNullTexts
                         && if "/media/" <= cell.url then Replace(cell.url, "/media/", "") in src.stored
                            else cell.url in src.downloadable
    ensures r.Some? && "/media/" <= cell.url ==> r.value.file == Stored(Replace(cell.url, "/media/", ""))
    ensures r.Some? && !("/media/" <= cell.url) ==>
              r.value.file == Uploaded(stem + "_" + NatToString(cell.position) + "." + ImageExtension(cell.url))
  {
    var main := cell.position == 1;
    if Lower(cell.url) in UrlNullTexts then None
    else if "/media/" <= cell.url then
      var path := Replace(cell.url, "/media/", "");
      if path in src.stored then Some(ProductImage(Stored(path), main, cell.position)) else None
    else if cell.url in src.downloadable then
      var file := stem + "_" + NatToString(cell.position) + "." + ImageExtension(cell.url);
      Some(ProductImage(Uploaded(file), main, cell.position))
    else None
  }

  /** The images the cells give, in order; a cell that gives none does not stop the others. */
  function ImagesFor(stem: string, cells: seq<ImageCell>, src: ImageSources): (images: seq<ProductImage>)
    ensures |images| <= |cells|
  {
    if cells == [] then []
    else
      var n := |cells| - 1;
      match ImageFor(stem, cells[n], src)
      case None => ImagesFor(stem, cells[..n], src)
      case Some(img) => ImagesFor(stem, cells[..n], src) + [img]
  }

  /** Every cell that gives an image contributes it, whatever the cells before it gave. */
  lemma {:induction false} ImagesForComplete(stem: string, cells: seq<ImageCell>, src: ImageSources)
    ensures forall i :: 0 <= i < |cells| && ImageFor(stem, cells[i], src).Some? ==>
              ImageFor(stem, cells[i], src).value in ImagesFor(stem, cells, src)
  {
    if cells != [] {
      var n := |cells| - 1;
      var front, whole := ImagesFor(stem, cells[..n], src), ImagesFor(stem, cells, src);
      ImagesForComplete(stem, cells[..n], src);
      var last := ImageFor(stem, cells[n], src);
      assert whole == front + (if last.Some? then [last.value] else []);
      forall i | 0 <= i < n && ImageFor(stem, cells[i], src).Some?
        ensures ImageFor(stem, cells[i], src).value in whole
      {
        assert cells[..n][i] == cells[i];
      }
    }
  }

  /** Every image comes from one of the cells. */
  lemma {:induction false} ImagesForSound(stem: string, cells: seq<ImageCell>, src: ImageSources)
    ensures forall img :: img in ImagesFor(stem, cells, src) ==>
              exists i :: 0 <= i < |cells| && ImageFor(stem, cells[i], src) == Some(img)
  {
    if cells != [] {
      var n := |cells| - 1;
      var front := ImagesFor(stem, cells[..n], src);
      ImagesForSound(stem, cells[..n], src);
      forall img | img in ImagesFor(stem, cells, src)
        ensures exists i :: 0 <= i < |cells| && ImageFor(stem, cells[i], src) == Some(img)
      {
        if img in front {
          var i :| 0 <= i < n && ImageFor(stem, cells[..n][i], src) == Some(img);
          assert cells[..n][i] == cells[i];
        } else {
          assert ImageFor(stem, cells[n], src) == Some(img);
        }
      }
    }
  }

  /**
   * Images placed by cells: each comes from one of the cells, they keep the
   * cells' order, and an image is main exactly when it is in position 1.
   */
  predicate PlacedBy(images: seq<ProductImage>, cells: seq<ImageCell>) {
    (forall i :: 0 <= i < |images| ==> images[i].isMain == (images[i].order == 1))
    && (forall i :: 0 <= i < |images| ==> exists j :: 0 <= j < |cells| && images[i].order == cells[j].position)
    && (forall i, j :: 0 <= i < j < |images| ==> images[i].order < images[j].order)
  }

  lemma {:induction false} ImagesForPlaced(stem: string, cells: seq<ImageCell>, src: ImageSources)
    requires forall i, j :: 0 <= i < j < |cells| ==> cells[i].position < cells[j].position
    ensures PlacedBy(ImagesFor(stem, cells, src), cells)
  {
    if cells != [] {
      var n := |cells| - 1;
      ImagesForPlaced(stem, cells[..n], src);
      var last := ImageFor(stem, cells[n], src);
      assert ImagesFor(stem, cells, src) == ImagesFor(stem, cells[..n], src) + (if last.Some? then [last.value] else []);
      PlacedExtend(ImagesFor(stem, cells[..n], src), cells, last);
    }
  }

  /** The image of one more cell, in a later position than all before it, keeps the images placed. */
  lemma PlacedExtend(front: seq<ProductImage>, cells: seq<ImageCell>, img: Option<ProductImage>)
    requires cells != []
    requires forall i, j :: 0 <= i < j < |cells| ==> cells[i].position < cells[j].position
    requires PlacedBy(front, cells[..|cells| - 1])
    requires img.Some? ==> img.value.order == cells[|cells| - 1].position && img.value.isMain == (img.value.order == 1)
    ensures PlacedBy(front + (if img.Some? then [img.value] else []), cells)
  {
    var n := |cells| - 1;
    var r := front + (if img.Some? then [img.value] else []);
    forall i | 0 <= i < |front|
      ensures r[i] == front[i] && front[i].order < cells[n].position
      ensures exists j :: 0 <= j < |cells| && r[i].order == cells[j].position
    {
      var j :| 0 <= j < n && front[i].order == cells[..n][j].position;
      assert cells[..n][j] == cells[j];
      assert r[i] == front[i];
    }
    if img.Some? {
      assert r[|front|] == img.value && img.value.order == cells[n].position;
    }
  }

  /**
   * `_process_images`: the images of columns `image_1` .. `image_5`, files
   * named after the first 30 characters of the plain slug of the name.
   */
  function ProductImages(name: string, data: RowData, src: ImageSources, slugs: Slugifiers): (images: seq<ProductImage>)
    ensures |images| <= 5
  {
    ImagesFor(Take(slugs.ascii(name), 30), ImageCells(data, 5), src)
  }

  /** Imported images: in positions 1 to 5, in order, main exactly in position 1, so at most one main. */
  predicate ImportedImages(images: seq<ProductImage>) {
    AtMostOneMain(images)
    && (forall i :: 0 <= i < |images| ==> 1 <= images[i].order <= 5 && images[i].isMain == (images[i].order == 1))
    && (forall i, j :: 0 <= i < j < |images| ==> images[i].order < images[j].order)
  }

  /** The image column `image_<k>` of a row gives, with files named after `stem`. */
  function ColumnImage(stem: string, data: RowData, src: ImageSources, k: nat): Option<ProductImage> {
    ImageFor(stem, ImageCell(Get(data, "image_" + NatToString(k)), k), src)
  }

  /**
   * Every non-empty column `image_1` .. `image_5` that gives an image
   * contributes it: a column whose URL is a null marker, is missing from
   * storage or does not download does not stop the others.
   */
  lemma ProductImagesComplete(name: string, data: RowData, src: ImageSources, slugs: Slugifiers)
    ensures var stem := Take(slugs.ascii(name), 30);
      forall k :: 1 <= k <= 5 && Get(data, "image_" + NatToString(k)) != "" && ColumnImage(stem, data, src, k).Some? ==>
        ColumnImage(stem, data, src, k).value in ProductImages(name, data, src, slugs)
  {
    var stem := Take(slugs.ascii(name), 30);
    var cells := ImageCells(data, 5);
    ImagesForComplete(stem, cells, src);
    forall k | 1 <= k <= 5 && Get(data, "image_" + NatToString(k)) != "" && ColumnImage(stem, data, src, k).Some?
      ensures ColumnImage(stem, data, src, k).value in ProductImages(name, data, src, slugs)
    {
      ImageCellsComplete(data, 5, k);
      var i :| 0 <= i < |cells| && cells[i].position == k;
      assert cells[i] == ImageCell(Get(data, "image_" + NatToString(k)), k);
    }
  }

  /** Every image of a row is the one its column `image_<order>` gives. */
  lemma ProductImagesSound(name: string, data: RowData, src: ImageSources, slugs: Slugifiers)
    ensures var stem := Take(slugs.ascii(name), 30);
      forall img :: img in ProductImages(name, data, src, slugs) ==>
        1 <= img.order <= 5 && ColumnImage(stem, data, src, img.order) == Some(img)
  {
    var stem := Take(slugs.ascii(name), 30);
    var cells := ImageCells(data, 5);
    ImagesForSound(stem, cells, src);
    forall img | img in ProductImages(name, data, src, slugs)
      ensures 1 <= img.order <= 5 && ColumnImage(stem, data, src, img.order) == Some(img)
    {
      var i :| 0 <= i < |cells| && ImageFor(stem, cells[i], src) == Some(img);
      assert cells[i] == ImageCell(Get(data, "image_" + NatToString(cells[i].position)), cells[i].position);
    }
  }

  lemma ProductImagesFacts(name: string, data: RowData, src: ImageSources, slugs: Slugifiers)
    ensures ImportedImages(ProductImages(name, data, src, slugs))
  {
    var cells := ImageCells(data, 5);
    var images := ProductImages(name, data, src, slugs);
    ImagesForPlaced(Take(slugs.ascii(name), 30), cells, src);
    forall i | 0 <= i < |images| ensures 1 <= images[i].order <= 5 {
      var j :| 0 <= j < |cells| && images[i].order == cells[j].position;
    }
  }

  // ---------------------------------------------------------------------
  // Creating and updating one product
  // ---------------------------------------------------------------------

  /** `_generate_sku`: "SKU-<timestamp>-<random number>". */
  function GeneratedImportSku(stamp: string, random: nat): (sku: string)
    ensures |sku| > 4 && sku[..4] == "SKU-"
  {
    "SKU-" + stamp + "-" + NatToString(random)
  }

  /** The SKU of a new product: the row's, else a generated one. */
  function SkuFor(data: RowData, inp: RowInput): (sku: string)
    ensures sku != ""
    ensures Get(data, "sku") != "" ==> sku == Get(data, "sku")
  {
    if Get(data, "sku") != "" then Get(data, "sku") else GeneratedImportSku(inp.skuStamp, inp.skuRandom)
  }

  /** The slug of a new product: the row's, else the slug of its name. */
  function SlugFor(data: RowData, slugs: Slugifiers): string {
    if Get(data, "slug") != "" then Get(data, "slug") else slugs.unicode(Get(data, "name"))
  }

  /** The stock of a new product: `_to_int` of the column, 0 when it gives none. */
  function StockFor(data: RowData): int {
    ToInt(Lookup(data, "stock")).GetOr(0)
  }

  /** Every product of `c` is in `c2` unchanged. */
  predicate KeepsProducts(c: Catalog, c2: Catalog) {
    forall k :: k in c.products ==> k in c2.products && c2.products[k] == c.products[k]
  }

  /** Some product other than the one under `except` has this slug. */
  predicate SlugTaken(products: map<string, Product>, slug: string, except: Option<string>) {
    exists k :: k in products && Some(k) != except && products[k].slug == slug
  }

  /**
   * The product a row creates, before categories and images: the text
   * columns as given, a price that does not parse stored as 0, an absent
   * `is_available` read as true and the other flags false unless given,
   * and the model's default alert threshold of 5.
   */
  function NewProduct(id: nat, data: RowData, slug: string, sku: string, stock: nat): (p: Product)
    ensures p.id == id && p.name == Get(data, "name") && p.slug == slug && p.sku == sku && p.stock == stock
    ensures p.price == ToDecimal(Lookup(data, "price")).GetOr(0.0) && p.oldPrice == ToDecimal(Lookup(data, "old_price"))
    ensures p.isAvailable <==> "is_available" !in data || Lower(data["is_available"]) in BooleanTrue
    ensures p.isFeatured <==> "is_featured" in data && Lower(data["is_featured"]) in BooleanTrue
    ensures p.isNew <==> "is_new" in data && Lower(data["is_new"]) in BooleanTrue
    ensures p.isBestseller <==> "is_bestseller" in data && Lower(data["is_bestseller"]) in BooleanTrue
    ensures p.description == Get(data, "description") && p.shortDescription == Get(data, "short_description")
    ensures p.categories == {} && p.mainCategory == None && p.images == [] && p.stockAlertThreshold == 5
  {
    assert Lower("true") == "true";
    Product(id, Get(data, "name"), slug, sku, Get(data, "description"), Get(data, "short_description"),
            ToDecimal(Lookup(data, "price")).GetOr(0.0), ToDecimal(Lookup(data, "old_price")), stock, 5,
            ToBool(Some(if "is_available" in data then data["is_available"] else "true")),
            ToBool(Lookup(data, "is_featured")), ToBool(Lookup(data, "is_new")), ToBool(Lookup(data, "is_bestseller")),
            {}, None, [])
  }

  /**
   * The categories of a new product: when the row lists categories, those
   * (created as needed) with the first as main; otherwise the job's
   * default category, if any, as its only and main category.
   */
  function CategorizedNew(c: Catalog, job: ImportJob, p: Product, data: RowData, slugs: Slugifiers): (r: Result<(Catalog, Product), Cause>)
    requires p.categories == {} && p.mainCategory.None?
    ensures r.Ok? ==> r.value.0.products == c.products && r.value.0.nextProductId == c.nextProductId
    ensures r.Ok? ==> r.value.1 == p.(categories := r.value.1.categories, mainCategory := r.value.1.mainCategory)
    ensures Get(data, "categories") == "" ==>
      r == Ok((c, p.(categories := if job.defaultCategory.Some? then {job.defaultCategory.value} else {}, mainCategory := job.defaultCategory)))
  {
    if Get(data, "categories") != "" then
      match ResolveCategories(c, Get(data, "categories"), slugs.unicode)
      case Err(e) => Err(e)
      case Ok(res) => Ok((res.0, p.(categories := SetOf(res.1), mainCategory := if |res.1| > 0 then Some(res.1[0]) else None)))
    else if job.defaultCategory.Some? then Ok((c, p.(categories := {job.defaultCategory.value}, mainCategory := job.defaultCategory)))
    else Ok((c, p))
  }

  /** The product's categories are exactly the slugs of `names`. */
  predicate ListedCategories(q: Product, names: seq<string>, slugify: string -> string) {
    q.categories == set i | 0 <= i < |names| :: slugify(names[i])
  }

  /** Categorizing a new product only adds categories. */
  lemma CategorizedNewGrows(c: Catalog, job: ImportJob, p: Product, data: RowData, slugs: Slugifiers)
    requires p.categories == {} && p.mainCategory.None?
    ensures CategorizedNew(c, job, p, data, slugs).Ok? ==> CategoriesGrow(c, CategorizedNew(c, job, p, data, slugs).value.0)
  {
    if Get(data, "categories") != "" {
      ResolvePartsGrows(c, Split(Get(data, "categories"), ','), slugs.unicode);
    }
  }

  /** The listed categories become exactly the product's categories, the first listed one its main category. */
  lemma CategorizedNewListed(c: Catalog, job: ImportJob, p: Product, data: RowData, slugs: Slugifiers)
    requires p.categories == {} && p.mainCategory.None?
    ensures CategorizedNew(c, job, p, data, slugs).Ok? && Get(data, "categories") != "" ==>
      ListedCategories(CategorizedNew(c, job, p, data, slugs).value.1, CategoryNames(Get(data, "categories")), slugs.unicode)
      && CategorizedNew(c, job, p, data, slugs).value.1.mainCategory ==
           (if CategoryNames(Get(data, "categories")) == [] then None else Some(slugs.unicode(CategoryNames(Get(data, "categories"))[0])))
  {
    var text := Get(data, "categories");
    if text != "" {
      var res := ResolveCategories(c, text, slugs.unicode);
      if res.Ok? {
        var found := res.value.1;
        var q := p.(categories := SetOf(found), mainCategory := if |found| > 0 then Some(found[0]) else None);
        assert CategorizedNew(c, job, p, data, slugs) == Ok((res.value.0, q));
        ResolveCategoriesSlugs(c, text, slugs.unicode);
        SlugsListed(found, CategoryNames(text), slugs.unicode, res.value.0.categories);
      }
    }
  }

  /** Slugs found for names, as a set, are the names' slugs; the first is the first name's. */
  lemma SlugsListed(found: seq<string>, names: seq<string>, slugify: string -> string, cats: CategoryTable)
    requires SlugsOf(found, names, slugify, cats)
    ensures SetOf(found) == set i | 0 <= i < |names| :: slugify(names[i])
    ensures SetOf(found) <= cats.Keys
    ensures |found| > 0 ==> found[0] == slugify(names[0])
  {
    assert forall x :: x in SetOf(found) <==> exists i :: 0 <= i < |found| && found[i] == x;
  }

  /** Every category a new product gets exists, given that the job's default category does. */
  lemma CategorizedNewExisting(c: Catalog, job: ImportJob, p: Product, data: RowData, slugs: Slugifiers)
    requires p.categories == {} && p.mainCategory.None?
    ensures CategorizedNew(c, job, p, data, slugs).Ok? && (job.defaultCategory.Some? ==> job.defaultCategory.value in c.categories) ==>
      CategoriesExist(CategorizedNew(c, job, p, data, slugs).value.1, CategorizedNew(c, job, p, data, slugs).value.0.categories)
  {
    if Get(data, "categories") != "" {
      ResolveCategoriesSlugs(c, Get(data, "categories"), slugs.unicode);
    }
  }

  /** Categorizing a new product keeps the tables valid. */
  lemma CategorizedNewValid(c: Catalog, job: ImportJob, p: Product, data: RowData, slugs: Slugifiers)
    requires p.categories == {} && p.mainCategory.None?
    ensures CategorizedNew(c, job, p, data, slugs).Ok? && CatalogValid(c) ==> CatalogValid(CategorizedNew(c, job, p, data, slugs).value.0)
  {
    if Get(data, "categories") != "" {
      ResolvePartsValid(c, Split(Get(data, "categories"), ','), slugs.unicode);
    }
  }

  /**
   * `_create_product`'s database work as one transaction: a failing write
   * or a broken constraint (an existing SKU, a slug in use, a negative
   * stock, a category name in use under another slug) leaves the tables as
   * they were; otherwise the new product, with its categories and images,
   * is stored under its SKU with the next free id.
   */
  function CreatedProduct(c: Catalog, job: ImportJob, data: RowData, inp: RowInput, slugs: Slugifiers): (r: Result<Catalog, Cause>)
    ensures inp.fault.WriteFails? ==> r == Err(Fault(inp.fault.reason))
    ensures !inp.fault.WriteFails? && (StockFor(data) < 0 || SkuFor(data, inp) in c.products) ==> r == Err(Integrity)
    ensures r.Ok? ==> SkuFor(data, inp) in r.value.products && r.value.nextProductId == c.nextProductId + 1
  {
    if inp.fault.WriteFails? then Err(Fault(inp.fault.reason))
    else
      var sku := SkuFor(data, inp);
      var slug := SlugFor(data, slugs);
      var stock := StockFor(data);
      if stock < 0 || sku in c.products || SlugTaken(c.products, slug, None) then Err(Integrity)
      else
        StoredNew(c, job, NewProduct(c.nextProductId, data, slug, sku, stock), data, inp, slugs)
  }

  /** The second half of a create: the next id is taken, the product gets its categories and images and is stored. */
  function StoredNew(c: Catalog, job: ImportJob, p: Product, data: RowData, inp: RowInput, slugs: Slugifiers): (r: Result<Catalog, Cause>)
    requires p.categories == {} && p.mainCategory.None?
    ensures r.Ok? ==> p.sku in r.value.products && r.value.nextProductId == c.nextProductId + 1
  {
    match CategorizedNew(c.(nextProductId := c.nextProductId + 1), job, p, data, slugs)
    case Err(e) => Err(e)
    case Ok(placed) =>
      var q := placed.1.(images := ProductImages(p.name, data, inp.images, slugs));
      Ok(placed.0.(products := placed.0.products[p.sku := q]))
  }

  lemma StoredNewKeepsCategories(c: Catalog, job: ImportJob, p: Product, data: RowData, inp: RowInput, slugs: Slugifiers)
    requires p.categories == {} && p.mainCategory.None?
    ensures StoredNew(c, job, p, data, inp, slugs).Ok? ==> KeepsCategories(c, StoredNew(c, job, p, data, inp, slugs).value)
  {
    var c1 := c.(nextProductId := c.nextProductId + 1);
    var placed := CategorizedNew(c1, job, p, data, slugs);
    if placed.Ok? {
      var q := placed.value.1.(images := ProductImages(p.name, data, inp.images, slugs));
      assert StoredNew(c, job, p, data, inp, slugs) == Ok(placed.value.0.(products := placed.value.0.products[p.sku := q]));
      CategorizedNewGrows(c1, job, p, data, slugs);
    }
  }

  lemma StoredNewValid(c: Catalog, job: ImportJob, p: Product, data: RowData, inp: RowInput, slugs: Slugifiers)
    requires p.categories == {} && p.mainCategory.None?
    requires p.sku !in c.products && !SlugTaken(c.products, p.slug, None) && p.id == c.nextProductId
    ensures StoredNew(c, job, p, data, inp, slugs).Ok? && CatalogValid(c) && (job.defaultCategory.Some? ==> job.defaultCategory.value in c.categories)
      ==> CatalogValid(StoredNew(c, job, p, data, inp, slugs).value)
  {
    var c1 := c.(nextProductId := c.nextProductId + 1);
    var placed := CategorizedNew(c1, job, p, data, slugs);
    if placed.Ok? && CatalogValid(c) && (job.defaultCategory.Some? ==> job.defaultCategory.value in c.categories) {
      var q := placed.value.1.(images := ProductImages(p.name, data, inp.images, slugs));
      assert StoredNew(c, job, p, data, inp, slugs) == Ok(placed.value.0.(products := placed.value.0.products[p.sku := q]));
      CategorizedNewGrows(c1, job, p, data, slugs);
      CategorizedNewExisting(c1, job, p, data, slugs);
      CategorizedNewValid(c1, job, p, data, slugs);
      ProductImagesFacts(p.name, data, inp.images, slugs);
      NewProductValid(c, job, placed.value.0, p.sku, q);
    }
  }

  /**
   * `c2` holds one product more than `c`, under a SKU that was free, with
   * the next id, the given slug and name, and a slug no other product has.
   */
  predicate NewlyStored(c: Catalog, c2: Catalog, sku: string, slug: string, name: string) {
    sku !in c.products && c2.products.Keys == c.products.Keys + {sku} && KeepsProducts(c, c2)
    && var p := c2.products[sku];
       p.id == c.nextProductId && p.sku == sku && p.slug == slug && p.name == name
       && !SlugTaken(c.products, slug, None)
  }

  /**
   * A created product is new under its SKU, with the next id, the row's
   * slug and name, and a slug no other product has; every other product
   * and every category is kept.
   */
  lemma CreatedProductFacts(c: Catalog, job: ImportJob, data: RowData, inp: RowInput, slugs: Slugifiers)
    ensures CreatedProduct(c, job, data, inp, slugs).Ok? ==>
      NewlyStored(c, CreatedProduct(c, job, data, inp, slugs).value, SkuFor(data, inp), SlugFor(data, slugs), Get(data, "name"))
  {
    var sku := SkuFor(data, inp);
    var slug := SlugFor(data, slugs);
    if !inp.fault.WriteFails? && !(StockFor(data) < 0 || sku in c.products || SlugTaken(c.products, slug, None)) {
      StoredNewFacts(c, job, NewProduct(c.nextProductId, data, slug, sku, StockFor(data)), data, inp, slugs);
    }
  }

  /** A product stored under a fresh SKU with the next id is new, and every other product is kept. */
  lemma StoredNewFacts(c: Catalog, job: ImportJob, p: Product, data: RowData, inp: RowInput, slugs: Slugifiers)
    requires p.categories == {} && p.mainCategory.None?
    requires p.sku !in c.products && !SlugTaken(c.products, p.slug, None) && p.id == c.nextProductId
    ensures StoredNew(c, job, p, data, inp, slugs).Ok? ==> NewlyStored(c, StoredNew(c, job, p, data, inp, slugs).value, p.sku, p.slug, p.name)
  {
    var c1 := c.(nextProductId := c.nextProductId + 1);
    var placed := CategorizedNew(c1, job, p, data, slugs);
    if placed.Ok? {
      var q := placed.value.1.(images := ProductImages(p.name, data, inp.images, slugs));
      assert StoredNew(c, job, p, data, inp, slugs) == Ok(placed.value.0.(products := placed.value.0.products[p.sku := q]));
    }
  }

  /** Creating a product keeps every category as it was. */
  lemma CreatedProductKeepsCategories(c: Catalog, job: ImportJob, data: RowData, inp: RowInput, slugs: Slugifiers)
    ensures CreatedProduct(c, job, data, inp, slugs).Ok? ==> KeepsCategories(c, CreatedProduct(c, job, data, inp, slugs).value)
  {
    var sku := SkuFor(data, inp);
    var slug := SlugFor(data, slugs);
    if !inp.fault.WriteFails? && !(StockFor(data) < 0 || sku in c.products || SlugTaken(c.products, slug, None)) {
      StoredNewKeepsCategories(c, job, NewProduct(c.nextProductId, data, slug, sku, StockFor(data)), data, inp, slugs);
    }
  }

  /** A created product keeps the tables valid when the job's default category exists. */
  lemma CreatedProductValid(c: Catalog, job: ImportJob, data: RowData, inp: RowInput, slugs: Slugifiers)
    ensures CreatedProduct(c, job, data, inp, slugs).Ok? && CatalogValid(c) && (job.defaultCategory.Some? ==> job.defaultCategory.value in c.categories)
      ==> CatalogValid(CreatedProduct(c, job, data, inp, slugs).value)
  {
    var sku := SkuFor(data, inp);
    var slug := SlugFor(data, slugs);
    if !inp.fault.WriteFails? && !(StockFor(data) < 0 || sku in c.products || SlugTaken(c.products, slug, None)) {
      StoredNewValid(c, job, NewProduct(c.nextProductId, data, slug, sku, StockFor(data)), data, inp, slugs);
    }
  }

  /** A boolean column's new value: the column read as a flag when present, else the current value. */
  function Flag(data: RowData, k: string, current: bool): bool {
    if k in data then ToBool(Some(data[k])) else current
  }

  /**
   * `_update_product`'s field assignments: a non-empty name or slug, and a
   * price, old price or stock that parses, replace the current value; each
   * flag column present is re-read; nothing else changes. A negative stock
   * breaks the non-negative column.
   */
  function UpdatedFields(p: Product, data: RowData): (r: Result<Product, Cause>)
    ensures r.Err? <==> ToInt(Lookup(data, "stock")).Some? && ToInt(Lookup(data, "stock")).value < 0
    ensures r.Err? ==> r.error == Integrity
    ensures r.Ok? ==> r.value.sku == p.sku && r.value.id == p.id && r.value.images == p.images
    ensures r.Ok? ==> r.value.categories == p.categories && r.value.mainCategory == p.mainCategory
  {
    var stock := ToInt(Lookup(data, "stock"));
    if stock.Some? && stock.value < 0 then Err(Integrity)
    else Ok(Reflagged(Renamed(p, data).(stock := if stock.Some? then stock.value as nat else p.stock), data))
  }

  /**
   * Each column of an update: a non-empty name or slug and a price, old
   * price or stock that parses replace the stored value, a flag column
   * present is read as a flag; every other field is kept.
   */
  lemma UpdatedFieldsColumns(p: Product, data: RowData)
    ensures UpdatedFields(p, data).Ok? ==>
      UpdatedFields(p, data).value.name == (if Get(data, "name") != "" then Get(data, "name") else p.name)
      && UpdatedFields(p, data).value.slug == (if Get(data, "slug") != "" then Get(data, "slug") else p.slug)
      && UpdatedFields(p, data).value.price == ToDecimal(Lookup(data, "price")).GetOr(p.price)
      && UpdatedFields(p, data).value.oldPrice == (if ToDecimal(Lookup(data, "old_price")).Some? then ToDecimal(Lookup(data, "old_price")) else p.oldPrice)
      && UpdatedFields(p, data).value.stock == (if ToInt(Lookup(data, "stock")).Some? then ToInt(Lookup(data, "stock")).value else p.stock)
    ensures UpdatedFields(p, data).Ok? ==>
      (UpdatedFields(p, data).value.isAvailable <==> ("is_available" !in data && p.isAvailable) || ("is_available" in data && Lower(data["is_available"]) in BooleanTrue))
      && (UpdatedFields(p, data).value.isFeatured <==> ("is_featured" !in data && p.isFeatured) || ("is_featured" in data && Lower(data["is_featured"]) in BooleanTrue))
      && (UpdatedFields(p, data).value.isNew <==> ("is_new" !in data && p.isNew) || ("is_new" in data && Lower(data["is_new"]) in BooleanTrue))
      && (UpdatedFields(p, data).value.isBestseller <==> ("is_bestseller" !in data && p.isBestseller) || ("is_bestseller" in data && Lower(data["is_bestseller"]) in BooleanTrue))
    ensures UpdatedFields(p, data).Ok? ==>
      UpdatedFields(p, data).value.(name := p.name, slug := p.slug, price := p.price, oldPrice := p.oldPrice, stock := p.stock,
                                    isAvailable := p.isAvailable, isFeatured := p.isFeatured, isNew := p.isNew, isBestseller := p.isBestseller) == p
  {
  }

  /** The text and price columns of an update. */
  function Renamed(p: Product, data: RowData): Product {
    var price := ToDecimal(Lookup(data, "price"));
    var oldPrice := ToDecimal(Lookup(data, "old_price"));
    p.(name := if Get(data, "name") != "" then Get(data, "name") else p.name,
       slug := if Get(data, "slug") != "" then Get(data, "slug") else p.slug,
       price := if price.Some? then price.value else p.price,
       oldPrice := if oldPrice.Some? then oldPrice else p.oldPrice)
  }

  /** The flag columns of an update. */
  function Reflagged(p: Product, data: RowData): Product {
    p.(isAvailable := Flag(data, "is_available", p.isAvailable),
       isFeatured := Flag(data, "is_featured", p.isFeatured),
       isNew := Flag(data, "is_new", p.isNew),
       isBestseller := Flag(data, "is_bestseller", p.isBestseller))
  }

  /**
   * `_update_product`'s database work as one transaction: the new fields,
   * then the listed categories replacing the old ones (the main category
   * is kept), then, when the job allows it, the row's images replacing the
   * old ones. Any failure leaves the tables as they were.
   */
  function UpdatedProduct(c: Catalog, job: ImportJob, sku: string, data: RowData, inp: RowInput, slugs: Slugifiers): (r: Result<Catalog, Cause>)
    requires sku in c.products
    ensures inp.fault.WriteFails? ==> r == Err(Fault(inp.fault.reason))
    ensures r.Ok? ==> sku in r.value.products && UpdatedFields(c.products[sku], data).Ok?
  {
    if inp.fault.WriteFails? then Err(Fault(inp.fault.reason))
    else
      match UpdatedFields(c.products[sku], data)
      case Err(e) => Err(e)
      case Ok(p1) =>
        if SlugTaken(c.products, p1.slug, Some(sku)) then Err(Integrity)
        else Relinked(c, job, sku, p1, data, inp, slugs)
  }

  /**
   * `c2` is `c` with the product under `sku` replaced by `q`, up to its
   * categories (when the row lists some) and its images (when the job
   * updates them): the SKUs, every other product and every category stay,
   * and the product's slug is one no other product has.
   */
  predicate StoredUpdate(c: Catalog, c2: Catalog, sku: string, q: Product, listsCategories: bool, updateImages: bool)
    requires sku in c.products
  {
    c2.products.Keys == c.products.Keys && c2.nextProductId == c.nextProductId && KeepsCategories(c, c2)
    && (forall k :: k in c.products && k != sku ==> c2.products[k] == c.products[k])
    && var p := c2.products[sku];
       p.(categories := q.categories, images := q.images) == q
       && !SlugTaken(c.products, p.slug, Some(sku))
       && (!listsCategories ==> p.categories == q.categories)
       && (!updateImages ==> p.images == q.images)
  }

  /**
   * An update keeps every SKU and every other product; the product gets
   * the updated fields, a slug no other product has, and keeps its
   * categories when the row lists none and its images when the job does
   * not update images.
   */
  lemma UpdatedProductFacts(c: Catalog, job: ImportJob, sku: string, data: RowData, inp: RowInput, slugs: Slugifiers)
    requires sku in c.products
    ensures UpdatedProduct(c, job, sku, data, inp, slugs).Ok? ==>
      StoredUpdate(c, UpdatedProduct(c, job, sku, data, inp, slugs).value, sku, UpdatedFields(c.products[sku], data).value,
                   Get(data, "categories") != "", job.updateImages)
  {
    if !inp.fault.WriteFails? && UpdatedFields(c.products[sku], data).Ok? {
      var p1 := UpdatedFields(c.products[sku], data).value;
      if !SlugTaken(c.products, p1.slug, Some(sku)) {
        RelinkedFacts(c, job, sku, p1, data, inp, slugs);
      }
    }
  }

  /** Storing the updated product with its new links is a stored update of it. */
  lemma RelinkedFacts(c: Catalog, job: ImportJob, sku: string, p1: Product, data: RowData, inp: RowInput, slugs: Slugifiers)
    requires sku in c.products && !SlugTaken(c.products, p1.slug, Some(sku))
    ensures Relinked(c, job, sku, p1, data, inp, slugs).Ok? ==>
      StoredUpdate(c, Relinked(c, job, sku, p1, data, inp, slugs).value, sku, p1, Get(data, "categories") != "", job.updateImages)
  {
    var placed := Recategorized(c, p1, data, slugs);
    if placed.Ok? {
      var p2 := placed.value.1;
      var p3 := if job.updateImages then p2.(images := ProductImages(p2.name, data, inp.images, slugs)) else p2;
      assert Relinked(c, job, sku, p1, data, inp, slugs) == Ok(placed.value.0.(products := placed.value.0.products[sku := p3]));
      RecategorizedGrows(c, p1, data, slugs);
    }
  }

  /** An update keeps the tables valid. */
  lemma UpdatedProductValid(c: Catalog, job: ImportJob, sku: string, data: RowData, inp: RowInput, slugs: Slugifiers)
    requires sku in c.products
    ensures UpdatedProduct(c, job, sku, data, inp, slugs).Ok? && CatalogValid(c) ==> CatalogValid(UpdatedProduct(c, job, sku, data, inp, slugs).value)
  {
    if !inp.fault.WriteFails? && UpdatedFields(c.products[sku], data).Ok? {
      var p1 := UpdatedFields(c.products[sku], data).value;
      if !SlugTaken(c.products, p1.slug, Some(sku)) {
        RelinkedValid(c, job, sku, p1, data, inp, slugs);
      }
    }
  }

  lemma RelinkedValid(c: Catalog, job: ImportJob, sku: string, p1: Product, data: RowData, inp: RowInput, slugs: Slugifiers)
    requires sku in c.products && !SlugTaken(c.products, p1.slug, Some(sku))
    requires var p0 := c.products[sku];
      p1.sku == p0.sku && p1.id == p0.id && p1.categories == p0.categories && p1.mainCategory == p0.mainCategory && p1.images == p0.images
    ensures Relinked(c, job, sku, p1, data, inp, slugs).Ok? && CatalogValid(c) ==> CatalogValid(Relinked(c, job, sku, p1, data, inp, slugs).value)
  {
    RecategorizedGrows(c, p1, data, slugs);
    RecategorizedListed(c, p1, data, slugs);
    RecategorizedValid(c, p1, data, slugs);
    var r := Recategorized(c, p1, data, slugs);
    if r.Ok? {
      var p2 := r.value.1;
      ProductImagesFacts(p2.name, data, inp.images, slugs);
      var p3 := if job.updateImages then p2.(images := ProductImages(p2.name, data, inp.images, slugs)) else p2;
      ChangedProductValid(c, r.value.0, sku, p3);
    }
  }

  /** The second half of an update: the listed categories, the images when allowed, and the store. */
  function Relinked(c: Catalog, job: ImportJob, sku: string, p1: Product, data: RowData, inp: RowInput, slugs: Slugifiers): (r: Result<Catalog, Cause>)
    requires sku in c.products
    ensures r.Ok? ==> sku in r.value.products
  {
    match Recategorized(c, p1, data, slugs)
    case Err(e) => Err(e)
    case Ok(placed) =>
      var p2 := placed.1;
      var p3 := if job.updateImages then p2.(images := ProductImages(p2.name, data, inp.images, slugs)) else p2;
      Ok(placed.0.(products := placed.0.products[sku := p3]))
  }

  /** The listed categories replace a product's categories when the row lists any. */
  function Recategorized(c: Catalog, p: Product, data: RowData, slugs: Slugifiers): (r: Result<(Catalog, Product), Cause>)
    ensures r.Ok? ==> r.value.0.products == c.products && r.value.0.nextProductId == c.nextProductId
    ensures r.Ok? ==> r.value.1 == p.(categories := r.value.1.categories)
    ensures Get(data, "categories") == "" ==> r == Ok((c, p))
  {
    if Get(data, "categories") != "" then
      match ResolveCategories(c, Get(data, "categories"), slugs.unicode)
      case Err(e) => Err(e)
      case Ok(res) => Ok((res.0, p.(categories := SetOf(res.1))))
    else Ok((c, p))
  }

  /** Recategorizing only adds categories. */
  lemma RecategorizedGrows(c: Catalog, p: Product, data: RowData, slugs: Slugifiers)
    ensures Recategorized(c, p, data, slugs).Ok? ==> CategoriesGrow(c, Recategorized(c, p, data, slugs).value.0)
  {
    if Get(data, "categories") != "" {
      ResolvePartsGrows(c, Split(Get(data, "categories"), ','), slugs.unicode);
    }
  }

  /** The product's categories become exactly the listed ones, all of which exist afterwards. */
  lemma RecategorizedListed(c: Catalog, p: Product, data: RowData, slugs: Slugifiers)
    ensures Recategorized(c, p, data, slugs).Ok? && Get(data, "categories") != "" ==>
      ListedCategories(Recategorized(c, p, data, slugs).value.1, CategoryNames(Get(data, "categories")), slugs.unicode)
      && Recategorized(c, p, data, slugs).value.1.categories <= Recategorized(c, p, data, slugs).value.0.categories.Keys
  {
    var text := Get(data, "categories");
    if text != "" {
      var res := ResolveCategories(c, text, slugs.unicode);
      if res.Ok? {
        var found := res.value.1;
        assert Recategorized(c, p, data, slugs) == Ok((res.value.0, p.(categories := SetOf(found))));
        ResolveCategoriesSlugs(c, text, slugs.unicode);
        SlugsListed(found, CategoryNames(text), slugs.unicode, res.value.0.categories);
      }
    }
  }

  /** Recategorizing keeps the tables valid. */
  lemma RecategorizedValid(c: Catalog, p: Product, data: RowData, slugs: Slugifiers)
    ensures Recategorized(c, p, data, slugs).Ok? && CatalogValid(c) ==> CatalogValid(Recategorized(c, p, data, slugs).value.0)
  {
    if Get(data, "categories") != "" {
      ResolvePartsValid(c, Split(Get(data, "categories"), ','), slugs.unicode);
    }
  }

  // ---------------------------------------------------------------------
  // One row
  // ---------------------------------------------------------------------

  /**
   * The text of the exception the outer row handler meets when it logs the
   * raw pandas row: the row is not a JSON value, so its log entry cannot be
   * stored and the exception leaves the row loop.
   */
  const UnloggableRow: string := "Object of type Series is not JSON serializable"

  /** After a row: go on with the next one, or the run ends with an error message. */
  datatype Outcome = Continue(state: RunState) | Abort(state: RunState, message: string)

  /** `_log` for a normalised row: SKU and name as given ("" when absent), and the row's data. */
  function Entry(rowNum: nat, data: RowData, status: LogStatus, message: LogMessage): (e: ImportLog)
    ensures e.rowNumber == rowNum && e.status == status && e.message == message && e.rawData == data
    ensures e.sku == Get(data, "sku") && e.productName == Get(data, "name")
  {
    ImportLog(rowNum, Get(data, "sku"), Get(data, "name"), status, message, data)
  }

  function Logged(s: RunState, e: ImportLog): (t: RunState)
    ensures t.job == s.job && t.catalog == s.catalog && t.logs == s.logs + [e]
  {
    s.(logs := s.logs + [e])
  }

  /** `j2` differs from `j1` in the four counters at most. */
  predicate SameSettings(j1: ImportJob, j2: ImportJob) {
    j2.(createdCount := j1.createdCount, updatedCount := j1.updatedCount,
        errorCount := j1.errorCount, skippedCount := j1.skippedCount) == j1
  }

  /**
   * What one row may do to a run: add exactly one log entry, numbered
   * `rowNum`, leaving the job's settings alone; or end the run, which only
   * a failing log write does, with nothing of the row recorded.
   */
  predicate RowEffect(s: RunState, o: Outcome, rowNum: nat, fault: RowFault) {
    match o
    case Abort(t, m) => t == s && m == UnloggableRow && fault.LogFails?
    case Continue(t) =>
      |t.logs| == |s.logs| + 1 && t.logs[..|s.logs|] == s.logs && t.logs[|s.logs|].rowNumber == rowNum
      && SameSettings(s.job, t.job)
  }

  /**
   * An error or skip log written as the row's first log write; when that
   * write fails the exception reaches the outer row handler and the run
   * ends with nothing of the row recorded.
   */
  function LogOrAbort(s: RunState, fault: RowFault, e: ImportLog): (o: Outcome)
    ensures fault.LogFails? <==> o == Abort(s, UnloggableRow)
    ensures !fault.LogFails? ==> o == Continue(Logged(s, e))
  {
    if fault.LogFails? then Abort(s, UnloggableRow) else Continue(Logged(s, e))
  }

  /** The SKU as the "not found" message prints it: the row's text, or "None" when the column is absent. */
  function SkuText(data: RowData): string {
    if "sku" in data then data["sku"] else "None"
  }

  function Counted(job: ImportJob, created: nat, updated: nat, errors: nat, skipped: nat): (j: ImportJob)
    ensures j.createdCount == job.createdCount + created && j.updatedCount == job.updatedCount + updated
    ensures j.errorCount == job.errorCount + errors && j.skippedCount == job.skippedCount + skipped
    ensures SameSettings(job, j)
  {
    job.(createdCount := job.createdCount + created, updatedCount := job.updatedCount + updated,
         errorCount := job.errorCount + errors, skippedCount := job.skippedCount + skipped)
  }

  /** The four per-row counters added up. */
  function Tally(job: ImportJob): nat {
    job.createdCount + job.updatedCount + job.errorCount + job.skippedCount
  }

  /** The prefix of the error message logged when a create or an update fails. */
  function FailurePrefix(created: bool): string {
    if created then "Ошибка создания: " else "Ошибка обновления: "
  }

  /**
   * The logging around a create or update transaction whose outcome is
   * `stored`. A failed transaction is logged as an error. A committed one
   * raises the created (or updated) counter, then logs success; when that
   * log write fails, the transaction rolls back, the raised counter stays,
   * and an error entry is written and counted too.
   */
  function Committed(s: RunState, rowNum: nat, data: RowData, fault: RowFault, stored: Result<Catalog, Cause>,
                     created: bool, message: string): (o: Outcome)
    ensures RowEffect(s, o, rowNum, fault)
    ensures o.state.catalog == s.catalog || stored == Ok(o.state.catalog)
    ensures !fault.LogFails? ==> o.Continue? && Tally(o.state.job) == Tally(s.job) + 1
    ensures fault.LogFails? && stored.Ok? ==>
      o.Continue? && o.state.catalog == s.catalog && o.state.logs[|s.logs|].status == Failed
      && o.state.job == Counted(s.job, if created then 1 else 0, if created then 0 else 1, 1, 0)
  {
    var raised := Counted(s.job, if created then 1 else 0, if created then 0 else 1, 0, 0);
    match stored
    case Err(cause) =>
      if fault.LogFails? then Abort(s, UnloggableRow)
      else Continue(Logged(s.(job := Counted(s.job, 0, 0, 1, 0)), Entry(rowNum, data, Failed, Raised(FailurePrefix(created), cause))))
    case Ok(c2) =>
      if fault.LogFails? then
        Continue(Logged(s.(job := Counted(raised, 0, 0, 1, 0)), Entry(rowNum, data, Failed, Raised(FailurePrefix(created), Fault(fault.reason)))))
      else
        Continue(Logged(s.(job := raised, catalog := c2), Entry(rowNum, data, if created then Created else Updated, Text(message))))
  }

  /** `_create_product` and its logging; the success message names the new product and its id. */
  function CreateRow(s: RunState, rowNum: nat, data: RowData, inp: RowInput, slugs: Slugifiers): (o: Outcome)
    ensures RowEffect(s, o, rowNum, inp.fault)
    ensures o.state.catalog == s.catalog || CreatedProduct(s.catalog, s.job, data, inp, slugs) == Ok(o.state.catalog)
    ensures !inp.fault.LogFails? ==> o.Continue? && Tally(o.state.job) == Tally(s.job) + 1
    ensures inp.fault.LogFails? && CreatedProduct(s.catalog, s.job, data, inp, slugs).Ok? ==>
      o.Continue? && o.state.catalog == s.catalog && o.state.logs[|s.logs|].status == Failed
      && o.state.job == Counted(s.job, 1, 0, 1, 0)
  {
    Committed(s, rowNum, data, inp.fault, CreatedProduct(s.catalog, s.job, data, inp, slugs), true,
              "Товар создан: " + Get(data, "name") + " (ID: " + NatToString(s.catalog.nextProductId) + ")")
  }

  /** `_update_product` and its logging; the success message names the product as updated. */
  function UpdateRow(s: RunState, rowNum: nat, sku: string, data: RowData, inp: RowInput, slugs: Slugifiers): (o: Outcome)
    requires sku in s.catalog.products
    ensures RowEffect(s, o, rowNum, inp.fault)
    ensures o.state.catalog == s.catalog || UpdatedProduct(s.catalog, s.job, sku, data, inp, slugs) == Ok(o.state.catalog)
    ensures !inp.fault.LogFails? ==> o.Continue? && Tally(o.state.job) == Tally(s.job) + 1
    ensures inp.fault.LogFails? && UpdatedProduct(s.catalog, s.job, sku, data, inp, slugs).Ok? ==>
      o.Continue? && o.state.catalog == s.catalog && o.state.logs[|s.logs|].status == Failed
      && o.state.job == Counted(s.job, 0, 1, 1, 0)
  {
    var stored := UpdatedProduct(s.catalog, s.job, sku, data, inp, slugs);
    Committed(s, rowNum, data, inp.fault, stored, false, if stored.Ok? then "Товар обновлен: " + stored.value.products[sku].name else "")
  }

  /** A skipped row: its log, then the skipped counter. */
  function SkipRow(s: RunState, fault: RowFault, e: ImportLog): (o: Outcome)
    ensures RowEffect(s, o, e.rowNumber, fault) && o.state.catalog == s.catalog
    ensures !fault.LogFails? ==> o == Continue(Logged(s.(job := Counted(s.job, 0, 0, 0, 1)), e))
  {
    if fault.LogFails? then Abort(s, UnloggableRow) else Continue(Logged(s.(job := Counted(s.job, 0, 0, 0, 1)), e))
  }

  /**
   * The tables after a row: unchanged, or, as the import type decides, the
   * product with the row's SKU updated or a new product created.
   */
  predicate FromRow(s: RunState, c2: Catalog, data: RowData, inp: RowInput, slugs: Slugifiers) {
    c2 == s.catalog
    || (StoredSku(s.catalog, data) && s.job.importType != Create
        && UpdatedProduct(s.catalog, s.job, Get(data, "sku"), data, inp, slugs) == Ok(c2))
    || (!StoredSku(s.catalog, data) && s.job.importType != Update
        && CreatedProduct(s.catalog, s.job, data, inp, slugs) == Ok(c2))
  }

  /** Whether the row names the SKU of a stored product. */
  predicate StoredSku(c: Catalog, data: RowData) {
    Get(data, "sku") != "" && Get(data, "sku") in c.products
  }

  /**
   * `_process_row` after the required-field checks: the SKU decides, with
   * the import type, whether the row is skipped, updates the product with
   * that SKU, or creates a product.
   */
  function Act(s: RunState, rowNum: nat, data: RowData, inp: RowInput, slugs: Slugifiers): Outcome {
    var sku := Get(data, "sku");
    var existing := sku != "" && sku in s.catalog.products;
    match Decide(s.job.importType, existing)
    case SkipExisting => SkipRow(s, inp.fault, Entry(rowNum, data, Skipped, Text("Товар с SKU " + sku + " уже существует")))
    case SkipMissing => SkipRow(s, inp.fault, Entry(rowNum, data, Skipped, Text("Товар с SKU " + SkuText(data) + " не найден")))
    case UpdateExisting => UpdateRow(s, rowNum, sku, data, inp, slugs)
    case CreateNew => CreateRow(s, rowNum, data, inp, slugs)
  }

  /** Whether a normalised row lacks one of the two required fields. */
  predicate MissingField(data: RowData) {
    Get(data, "name") == "" || Get(data, "price") == ""
  }

  /**
   * `_process_row` for the row at index `idx` (file row `idx + 2`, after
   * the header): a row without a name, then one without a price, is logged
   * as an error without counting it; a complete row is acted on.
   */
  function StepRow(s: RunState, idx: nat, cells: Row, inp: RowInput, slugs: Slugifiers): Outcome {
    CheckRow(s, idx + 2, Normalize(cells), inp, slugs)
  }

  /** `_process_row` on the normalised row `data`: the required-field checks, then `Act`. */
  function CheckRow(s: RunState, rowNum: nat, data: RowData, inp: RowInput, slugs: Slugifiers): Outcome {
    if Get(data, "name") == "" then LogOrAbort(s, inp.fault, Entry(rowNum, data, Failed, Text("Отсутствует обязательное поле: name")))
    else if Get(data, "price") == "" then LogOrAbort(s, inp.fault, Entry(rowNum, data, Failed, Text("Отсутствует обязательное поле: price")))
    else Act(s, rowNum, data, inp, slugs)
  }

  /**
   * A complete row adds one log entry and counts once, unless its first
   * log write fails; the tables change only as `FromRow` allows.
   */
  lemma ActEffect(s: RunState, rowNum: nat, data: RowData, inp: RowInput, slugs: Slugifiers)
    ensures RowEffect(s, Act(s, rowNum, data, inp, slugs), rowNum, inp.fault)
    ensures !inp.fault.LogFails? ==> Act(s, rowNum, data, inp, slugs).Continue? && Tally(Act(s, rowNum, data, inp, slugs).state.job) == Tally(s.job) + 1
    ensures FromRow(s, Act(s, rowNum, data, inp, slugs).state.catalog, data, inp, slugs)
  {
  }

  /** A row missing a required field is logged but changes neither the job's counters nor the tables. */
  lemma CheckRowEffect(s: RunState, rowNum: nat, data: RowData, inp: RowInput, slugs: Slugifiers)
    ensures RowEffect(s, CheckRow(s, rowNum, data, inp, slugs), rowNum, inp.fault)
    ensures MissingField(data) ==> CheckRow(s, rowNum, data, inp, slugs).state.job == s.job && CheckRow(s, rowNum, data, inp, slugs).state.catalog == s.catalog
    ensures !inp.fault.LogFails? ==> CheckRow(s, rowNum, data, inp, slugs).Continue?
    ensures !inp.fault.LogFails? ==> Tally(CheckRow(s, rowNum, data, inp, slugs).state.job) == Tally(s.job) + (if MissingField(data) then 0 else 1)
    ensures FromRow(s, CheckRow(s, rowNum, data, inp, slugs).state.catalog, data, inp, slugs)
  {
    if !MissingField(data) {
      ActEffect(s, rowNum, data, inp, slugs);
    }
  }

  /**
   * What `_process_row` does for the row at index `idx`: one log entry
   * numbered `idx + 2` unless the run ends; a row missing a required field
   * counts nothing, any other row counts once.
   */
  lemma StepRowEffect(s: RunState, idx: nat, cells: Row, inp: RowInput, slugs: Slugifiers)
    ensures RowEffect(s, StepRow(s, idx, cells, inp, slugs), idx + 2, inp.fault)
    ensures MissingField(Normalize(cells)) ==>
      StepRow(s, idx, cells, inp, slugs).state.job == s.job && StepRow(s, idx, cells, inp, slugs).state.catalog == s.catalog
    ensures !inp.fault.LogFails? ==> StepRow(s, idx, cells, inp, slugs).Continue?
    ensures !inp.fault.LogFails? ==> Tally(StepRow(s, idx, cells, inp, slugs).state.job) == Tally(s.job) + (if MissingField(Normalize(cells)) then 0 else 1)
    ensures FromRow(s, StepRow(s, idx, cells, inp, slugs).state.catalog, Normalize(cells), inp, slugs)
  {
    CheckRowEffect(s, idx + 2, Normalize(cells), inp, slugs);
  }

  /** Under a create-only job, a row keeps every existing product. */
  lemma FromRowKeeps(s: RunState, c2: Catalog, data: RowData, inp: RowInput, slugs: Slugifiers)
    requires FromRow(s, c2, data, inp, slugs) && s.job.importType == Create
    ensures KeepsProducts(s.catalog, c2)
  {
    if c2 != s.catalog {
      CreatedProductFacts(s.catalog, s.job, data, inp, slugs);
    }
  }

  /** Under an update-only job, a row neither adds nor removes a product. */
  lemma FromRowKeys(s: RunState, c2: Catalog, data: RowData, inp: RowInput, slugs: Slugifiers)
    requires FromRow(s, c2, data, inp, slugs) && s.job.importType == Update
    ensures c2.products.Keys == s.catalog.products.Keys
  {
    if c2 != s.catalog {
      UpdatedProductFacts(s.catalog, s.job, Get(data, "sku"), data, inp, slugs);
    }
  }

  /** A row keeps the tables valid. */
  lemma FromRowValid(s: RunState, c2: Catalog, data: RowData, inp: RowInput, slugs: Slugifiers)
    requires FromRow(s, c2, data, inp, slugs) && StateValid(s)
    ensures StateValid(s.(catalog := c2))
  {
    if c2 != s.catalog {
      if StoredSku(s.catalog, data) && s.job.importType != Create {
        UpdatedProductFacts(s.catalog, s.job, Get(data, "sku"), data, inp, slugs);
        UpdatedProductValid(s.catalog, s.job, Get(data, "sku"), data, inp, slugs);
      } else {
        CreatedProductKeepsCategories(s.catalog, s.job, data, inp, slugs);
        CreatedProductValid(s.catalog, s.job, data, inp, slugs);
      }
    }
  }

  /** The row loop: every row in order until one ends the run. */
  function RunRows(s: RunState, rows: seq<Row>, inputs: nat -> RowInput, slugs: Slugifiers): Outcome {
    if rows == [] then Continue(s)
    else
      match RunRows(s, rows[..|rows| - 1], inputs, slugs)
      case Abort(t, m) => Abort(t, m)
      case Continue(t) => StepRow(t, |rows| - 1, rows[|rows| - 1], inputs(|rows| - 1), slugs)
  }

  // ---------------------------------------------------------------------
  // The file and the whole job
  // ---------------------------------------------------------------------

  /** The encodings tried, in order, for a CSV file. */
  const CsvEncodings: seq<string> := ["utf-8", "utf-8-sig", "cp1251", "latin1"]

  /** The first successful decoding among `attempts`. */
  function FirstDecoded(attempts: seq<Option<seq<Row>>>): (r: Option<seq<Row>>)
    ensures r.None? <==> forall i :: 0 <= i < |attempts| ==> attempts[i].None?
    ensures r.Some? ==> exists i :: 0 <= i < |attempts| && attempts[i] == r && forall j :: 0 <= j < i ==> attempts[j].None?
  {
    if attempts == [] then None
    else if attempts[0].Some? then attempts[0]
    else
      var r := FirstDecoded(attempts[1..]);
      assert forall i :: 1 <= i < |attempts| ==> attempts[i] == attempts[1..][i - 1];
      r
  }

  /**
   * `_read_file`: by the lower-cased extension, a CSV file read with the
   * first encoding that works, an Excel file by the Excel reader, anything
   * else refused.
   */
  function ReadRows(f: FileInput): (r: Result<seq<Row>, string>)
    ensures Lower(SplitExt(f.path)) !in [".csv", ".xlsx", ".xls"] ==> r == Err("Неподдерживаемый формат: " + Lower(SplitExt(f.path)))
    ensures Lower(SplitExt(f.path)) in [".xlsx", ".xls"] ==> r == f.excel
  {
    var ext := Lower(SplitExt(f.path));
    if ext == ".csv" then ReadCsv(f.csv)
    else if ext == ".xlsx" || ext == ".xls" then f.excel
    else Err("Неподдерживаемый формат: " + ext)
  }

  /**
   * A CSV file read with the first of the encodings that decodes it: the
   * rows of that decoding, or an error when none of them does.
   */
  function ReadCsv(csv: seq<Option<seq<Row>>>): (r: Result<seq<Row>, string>)
    ensures r.Err? <==> forall i :: 0 <= i < |csv| && i < |CsvEncodings| ==> csv[i].None?
    ensures r.Err? ==> r.error == "Не удалось прочитать CSV файл"
    ensures r.Ok? ==> exists i :: 0 <= i < |csv| && i < |CsvEncodings| && csv[i] == Some(r.value)
  {
    var tried := if |csv| <= |CsvEncodings| then csv else csv[..|CsvEncodings|];
    match FirstDecoded(tried)
    case Some(rows) => Ok(rows)
    case None => Err("Не удалось прочитать CSV файл")
  }

  /** The final status: completed without errors, partial when something was created or updated despite errors, error otherwise. */
  function TerminalStatus(job: ImportJob): (st: JobStatus)
    ensures st == Completed <==> job.errorCount == 0
    ensures st == Partial <==> job.errorCount > 0 && (job.createdCount > 0 || job.updatedCount > 0)
    ensures st == Error <==> job.errorCount > 0 && job.createdCount == 0 && job.updatedCount == 0
  {
    if job.errorCount == 0 then Completed
    else if job.createdCount > 0 || job.updatedCount > 0 then Partial
    else Error
  }

  /**
   * `process`: the job is marked processing, the file is read and its row
   * count recorded, the rows are processed, and the final status is set;
   * a failure to read the file, or an exception out of the row loop, ends
   * the job in error with the exception's text. The finishing time is the
   * clock's `now`.
   */
  function Processed(s: RunState, f: FileInput, inputs: nat -> RowInput, now: int, slugs: Slugifiers): (t: RunState)
    ensures t.job.processedAt == Some(now) && t.job.status != Pending && t.job.status != Processing
  {
    var started := s.(job := s.job.(status := Processing));
    match ReadRows(f)
    case Err(message) => started.(job := started.job.(status := Error, errorMessage := message, processedAt := Some(now)))
    case Ok(rows) =>
      match RunRows(started.(job := started.job.(totalRows := |rows|)), rows, inputs, slugs)
      case Continue(u) => u.(job := u.job.(status := TerminalStatus(u.job), processedAt := Some(now)))
      case Abort(u, message) => u.(job := u.job.(status := Error, errorMessage := message, processedAt := Some(now)))
  }

  // ---------------------------------------------------------------------
  // Properties of a run
  // ---------------------------------------------------------------------

  /**
   * Over a run of rows the log grows by one entry per processed row, in row
   * order, numbered from 2; a run that ends early has logged fewer entries
   * than there are rows.
   */
  lemma {:induction false} RunRowsLogs(s: RunState, rows: seq<Row>, inputs: nat -> RowInput, slugs: Slugifiers)
    ensures LogsExtend(s, RunRows(s, rows, inputs, slugs), |rows|)
  {
    if rows != [] {
      var n := |rows| - 1;
      RunRowsLogs(s, rows[..n], inputs, slugs);
      var front := RunRows(s, rows[..n], inputs, slugs);
      if front.Continue? {
        var o := StepRow(front.state, n, rows[n], inputs(n), slugs);
        StepRowEffect(front.state, n, rows[n], inputs(n), slugs);
        LogsExtendStep(s, front.state, o, n, inputs(n).fault);
      }
    }
  }

  /**
   * After `count` rows, the log of `o` extends the log of `s` by one entry
   * per processed row, numbered from 2; fewer than `count` when the run
   * ended early.
   */
  predicate LogsExtend(s: RunState, o: Outcome, count: nat) {
    |s.logs| <= |o.state.logs| && o.state.logs[..|s.logs|] == s.logs
    && (o.Continue? ==> |o.state.logs| == |s.logs| + count)
    && (o.Abort? ==> |o.state.logs| < |s.logs| + count)
    && forall i :: |s.logs| <= i < |o.state.logs| ==> o.state.logs[i].rowNumber == i - |s.logs| + 2
  }

  lemma LogsExtendStep(s: RunState, t: RunState, o: Outcome, n: nat, fault: RowFault)
    requires LogsExtend(s, Continue(t), n) && RowEffect(t, o, n + 2, fault)
    ensures LogsExtend(s, o, n + 1)
  {
    if o.Continue? {
      assert o.state.logs[..|s.logs|] == o.state.logs[..|t.logs|][..|s.logs|];
      assert forall i :: |s.logs| <= i < |t.logs| ==> o.state.logs[i] == o.state.logs[..|t.logs|][i];
    }
  }

  /** A job that starts with no log entries ends with its entries ordered by row. */
  lemma RunLogsOrdered(s: RunState, rows: seq<Row>, inputs: nat -> RowInput, slugs: Slugifiers)
    requires s.logs == []
    ensures OrderedByRow(RunRows(s, rows, inputs, slugs).state.logs)
  {
    RunRowsLogs(s, rows, inputs, slugs);
  }

  /**
   * A complete row whose product was stored but whose success log could
   * not be written is counted both as created and as an error, while the
   * transaction's rollback removes the product again.
   */
  lemma SuccessLogFailureCountsTwice(s: RunState, idx: nat, cells: Row, inp: RowInput, slugs: Slugifiers)
    requires inp.fault.LogFails? && !MissingField(Normalize(cells))
    requires !StoredSku(s.catalog, Normalize(cells)) && s.job.importType != Update
    requires CreatedProduct(s.catalog, s.job, Normalize(cells), inp, slugs).Ok?
    ensures StepRow(s, idx, cells, inp, slugs).Continue? && StepRow(s, idx, cells, inp, slugs).state.catalog == s.catalog
    ensures StepRow(s, idx, cells, inp, slugs).state.job == Counted(s.job, 1, 0, 1, 0)
    ensures |StepRow(s, idx, cells, inp, slugs).state.logs| == |s.logs| + 1
    ensures StepRow(s, idx, cells, inp, slugs).state.logs[|s.logs|].status == Failed
  {
    var data := Normalize(cells);
    assert StepRow(s, idx, cells, inp, slugs) == CreateRow(s, idx + 2, data, inp, slugs);
  }

  /** Over a whole run, a create-only import leaves every existing product as it was. */
  lemma {:induction false} CreateOnlyRunKeepsProducts(s: RunState, rows: seq<Row>, inputs: nat -> RowInput, slugs: Slugifiers)
    requires s.job.importType == Create
    ensures RunRows(s, rows, inputs, slugs).state.job.importType == Create
    ensures KeepsProducts(s.catalog, RunRows(s, rows, inputs, slugs).state.catalog)
  {
    if rows != [] {
      var n := |rows| - 1;
      CreateOnlyRunKeepsProducts(s, rows[..n], inputs, slugs);
      var front := RunRows(s, rows[..n], inputs, slugs);
      if front.Continue? {
        StepRowEffect(front.state, n, rows[n], inputs(n), slugs);
        FromRowKeeps(front.state, StepRow(front.state, n, rows[n], inputs(n), slugs).state.catalog, Normalize(rows[n]), inputs(n), slugs);
      }
    }
  }

  /** Over a whole run, an update-only import neither adds nor removes a product. */
  lemma {:induction false} UpdateOnlyRunAddsNothing(s: RunState, rows: seq<Row>, inputs: nat -> RowInput, slugs: Slugifiers)
    requires s.job.importType == Update
    ensures RunRows(s, rows, inputs, slugs).state.job.importType == Update
    ensures RunRows(s, rows, inputs, slugs).state.catalog.products.Keys == s.catalog.products.Keys
  {
    if rows != [] {
      var n := |rows| - 1;
      UpdateOnlyRunAddsNothing(s, rows[..n], inputs, slugs);
      var front := RunRows(s, rows[..n], inputs, slugs);
      if front.Continue? {
        StepRowEffect(front.state, n, rows[n], inputs(n), slugs);
        FromRowKeys(front.state, StepRow(front.state, n, rows[n], inputs(n), slugs).state.catalog, Normalize(rows[n]), inputs(n), slugs);
      }
    }
  }

  /** Storing a product that satisfies the constraints against the other products keeps the tables valid. */
  lemma PutProductValid(c: Catalog, sku: string, q: Product)
    requires CatalogValid(c)
    requires q.sku == sku && q.id < c.nextProductId && AtMostOneMain(q.images)
    requires q.categories <= c.categories.Keys && (q.mainCategory.Some? ==> q.mainCategory.value in c.categories)
    requires !SlugTaken(c.products, q.slug, Some(sku))
    requires forall k :: k in c.products && k != sku ==> c.products[k].id != q.id
    ensures CatalogValid(c.(products := c.products[sku := q]))
  {
    var c2 := c.(products := c.products[sku := q]);
    assert forall k :: k in c2.products ==> ProductValid(c2, k) by {
      forall k | k in c2.products ensures ProductValid(c2, k) {
        if k != sku {
          assert ProductValid(c, k);
        }
      }
    }
    forall k1, k2 | k1 in c2.products && k2 in c2.products && k1 != k2
      ensures c2.products[k1].slug != c2.products[k2].slug && c2.products[k1].id != c2.products[k2].id
    {
      if k1 == sku {
        assert !(k2 in c.products && Some(k2) != Some(sku) && c.products[k2].slug == q.slug);
      } else if k2 == sku {
        assert !(k1 in c.products && Some(k1) != Some(sku) && c.products[k1].slug == q.slug);
      }
    }
    assert c2.categories == c.categories;
  }

  /**
   * A new product stored under a fresh SKU, with a fresh slug and the next
   * id, in tables that only gained categories, keeps the tables valid.
   */
  lemma NewProductValid(c: Catalog, job: ImportJob, c2: Catalog, sku: string, q: Product)
    requires sku !in c.products && !SlugTaken(c.products, q.slug, None)
    requires c2.products == c.products && c2.nextProductId == c.nextProductId + 1
    requires forall k :: k in c.categories ==> k in c2.categories && c2.categories[k] == c.categories[k]
    requires CatalogValid(c.(nextProductId := c.nextProductId + 1)) ==> CatalogValid(c2)
    requires q.sku == sku && q.id == c.nextProductId && AtMostOneMain(q.images)
    requires (job.defaultCategory.Some? ==> job.defaultCategory.value in c.categories) ==>
      q.categories <= c2.categories.Keys && (q.mainCategory.Some? ==> q.mainCategory.value in c2.categories)
    ensures CatalogValid(c) && (job.defaultCategory.Some? ==> job.defaultCategory.value in c.categories) ==>
      CatalogValid(c2.(products := c2.products[sku := q]))
  {
    if CatalogValid(c) && (job.defaultCategory.Some? ==> job.defaultCategory.value in c.categories) {
      var c1 := c.(nextProductId := c.nextProductId + 1);
      forall k | k in c1.products ensures ProductValid(c1, k) {
        assert ProductValid(c, k);
      }
      assert !SlugTaken(c2.products, q.slug, Some(sku));
      forall k | k in c2.products && k != sku ensures c2.products[k].id != q.id {
        assert ProductValid(c, k);
      }
      PutProductValid(c2, sku, q);
    }
  }

  /**
   * A product changed in place, keeping its SKU and id, with a slug no
   * other product has, in tables that only gained categories, keeps the
   * tables valid.
   */
  lemma ChangedProductValid(c: Catalog, c2: Catalog, sku: string, q: Product)
    requires sku in c.products && !SlugTaken(c.products, q.slug, Some(sku))
    requires c2.products == c.products && c2.nextProductId == c.nextProductId
    requires forall k :: k in c.categories ==> k in c2.categories && c2.categories[k] == c.categories[k]
    requires CatalogValid(c) ==> CatalogValid(c2)
    requires q.sku == c.products[sku].sku && q.id == c.products[sku].id
    requires AtMostOneMain(q.images) || q.images == c.products[sku].images
    requires q.categories <= c2.categories.Keys || q.categories == c.products[sku].categories
    requires q.mainCategory == c.products[sku].mainCategory
    ensures CatalogValid(c) ==> CatalogValid(c2.(products := c2.products[sku := q]))
  {
    if CatalogValid(c) {
      assert ProductValid(c, sku);
      forall k | k in c2.products && k != sku ensures c2.products[k].id != q.id {
      }
      PutProductValid(c2, sku, q);
    }
  }

  /** A whole run keeps the tables valid. */
  lemma {:induction false} RunRowsValid(s: RunState, rows: seq<Row>, inputs: nat -> RowInput, slugs: Slugifiers)
    requires StateValid(s)
    ensures StateValid(RunRows(s, rows, inputs, slugs).state)
  {
    if rows != [] {
      var n := |rows| - 1;
      RunRowsValid(s, rows[..n], inputs, slugs);
      var front := RunRows(s, rows[..n], inputs, slugs);
      if front.Continue? {
        StepRowEffect(front.state, n, rows[n], inputs(n), slugs);
        var t := StepRow(front.state, n, rows[n], inputs(n), slugs).state;
        FromRowValid(front.state, t.catalog, Normalize(rows[n]), inputs(n), slugs);
        assert t.job.defaultCategory == front.state.job.defaultCategory;
      }
    }
  }

  /** Processing keeps the tables valid. */
  lemma ProcessedValid(s: RunState, f: FileInput, inputs: nat -> RowInput, now: int, slugs: Slugifiers)
    requires StateValid(s)
    ensures StateValid(Processed(s, f, inputs, now, slugs))
  {
    var started := s.(job := s.job.(status := Processing));
    if ReadRows(f).Ok? {
      var rows := ReadRows(f).value;
      RunRowsValid(started.(job := started.job.(totalRows := |rows|)), rows, inputs, slugs);
    }
  }

  /** A file that cannot be read ends the job in error with the reader's message, and nothing else happens. */
  lemma UnreadableFile(s: RunState, f: FileInput, inputs: nat -> RowInput, now: int, slugs: Slugifiers)
    requires ReadRows(f).Err?
    ensures var t := Processed(s, f, inputs, now, slugs);
      t.job.status == Error && t.job.errorMessage == ReadRows(f).error
      && t.catalog == s.catalog && t.logs == s.logs && Tally(t.job) == Tally(s.job)
  {
  }

  /** A job reported completed read its file and had no error; one reported partial created or updated something. */
  lemma ProcessedStatus(s: RunState, f: FileInput, inputs: nat -> RowInput, now: int, slugs: Slugifiers)
    ensures var t := Processed(s, f, inputs, now, slugs);
      (t.job.status == Completed ==> t.job.errorCount == 0 && ReadRows(f).Ok?)
      && (t.job.status == Partial ==> t.job.createdCount > 0 || t.job.updatedCount > 0)
  {
  }

  /**
   * Rows that all lack a name produce one error entry each, and change
   * neither a counter nor a table.
   */
  lemma {:induction false} NamelessRowsCountNothing(s: RunState, rows: seq<Row>, inputs: nat -> RowInput, slugs: Slugifiers)
    requires forall i :: 0 <= i < |rows| ==> Get(Normalize(rows[i]), "name") == "" && !inputs(i).fault.LogFails?
    ensures RunRows(s, rows, inputs, slugs) == Continue(RunRows(s, rows, inputs, slugs).state)
    ensures RunRows(s, rows, inputs, slugs).state.job == s.job && RunRows(s, rows, inputs, slugs).state.catalog == s.catalog
  {
    if rows != [] {
      var n := |rows| - 1;
      NamelessRowsCountNothing(s, rows[..n], inputs, slugs);
      var front := RunRows(s, rows[..n], inputs, slugs);
      assert MissingField(Normalize(rows[n]));
      StepRowEffect(front.state, n, rows[n], inputs(n), slugs);
    }
  }

  /**
   * A file whose rows all lack a name still ends "completed": the missing
   * field is logged as an error entry but never counted as an error.
   */
  lemma NamelessFileCompletes(s: RunState, f: FileInput, inputs: nat -> RowInput, now: int, slugs: Slugifiers)
    requires s.job.errorCount == 0 && ReadRows(f).Ok?
    requires var rows := ReadRows(f).value;
      forall i :: 0 <= i < |rows| ==> Get(Normalize(rows[i]), "name") == "" && !inputs(i).fault.LogFails?
    ensures Processed(s, f, inputs, now, slugs).job.status == Completed
    ensures Processed(s, f, inputs, now, slugs).catalog == s.catalog
  {
    var rows := ReadRows(f).value;
    var started := s.(job := s.job.(status := Processing, totalRows := |rows|));
    NamelessRowsCountNothing(started, rows, inputs, slugs);
  }

  // ---------------------------------------------------------------------
  // The service object
  // ---------------------------------------------------------------------

  /** The loop of `_process_row` that builds the row's dictionary. */
  method NormalizeRow(cells: Row) returns (data: RowData)
    ensures data == Normalize(cells)
  {
    data := map[];
    for i := 0 to |cells|
      invariant data == Normalize(cells[..i])
    {
      assert cells[..i + 1][..i] == cells[..i];
      match cells[i].value
      case Some(v) => data := data[Key(cells[i].column) := Strip(v)];
      case None =>
    }
    assert cells[..|cells|] == cells;
  }

  /** The first decoding that works is the one at the first index that worked. */
  lemma {:induction false} FirstDecodedAt(attempts: seq<Option<seq<Row>>>, i: nat)
    requires i < |attempts| && attempts[i].Some?
    requires forall j :: 0 <= j < i ==> attempts[j].None?
    ensures FirstDecoded(attempts) == attempts[i]
    decreases i
  {
    if i > 0 {
      FirstDecodedAt(attempts[1..], i - 1);
    }
  }

  /** `_read_file`, by the extension of the file. */
  method ReadFile(f: FileInput) returns (r: Result<seq<Row>, string>)
    ensures r == ReadRows(f)
  {
    var ext := Lower(SplitExt(f.path));
    if ext == ".csv" {
      r := DecodeCsv(f.csv);
    } else if ext == ".xlsx" || ext == ".xls" {
      r := f.excel;
    } else {
      r := Err("Неподдерживаемый формат: " + ext);
    }
  }

  /** The CSV branch of `_read_file`: each encoding tried in order until one decodes the file. */
  method DecodeCsv(csv: seq<Option<seq<Row>>>) returns (r: Result<seq<Row>, string>)
    ensures r == ReadCsv(csv)
  {
    ghost var tried := if |csv| <= |CsvEncodings| then csv else csv[..|CsvEncodings|];
    var i := 0;
    while i < |CsvEncodings|
      invariant 0 <= i <= |CsvEncodings|
      invariant forall j :: 0 <= j < i && j < |csv| ==> csv[j].None?
    {
      if i < |csv| && csv[i].Some? {
        FirstDecodedAt(tried, i);
        return Ok(csv[i].value);
      }
      i := i + 1;
    }
    r := Err("Не удалось прочитать CSV файл");
  }

  /**
   * The field assignments of `_update_product` on the loaded product: each
   * column the row fills replaces the stored value; a negative stock is
   * refused by the database when the product is saved.
   */
  method ChangeFields(p0: Product, data: RowData) returns (r: Result<Product, Cause>)
    ensures r == UpdatedFields(p0, data)
  {
    var p := ChangeTexts(p0, data);
    var stock := ToInt(Lookup(data, "stock"));
    if stock.Some? {
      if stock.value < 0 {
        return Err(Integrity);
      }
      p := p.(stock := stock.value);
    }
    assert p == Renamed(p0, data).(stock := if stock.Some? then stock.value as nat else p0.stock);
    p := ChangeFlags(p, data);
    r := Ok(p);
  }

  /** The text and price assignments of `_update_product`: a non-empty name or slug, a price or old price that parses. */
  method ChangeTexts(p0: Product, data: RowData) returns (p: Product)
    ensures p == Renamed(p0, data)
  {
    var name, slug, price, oldPrice := p0.name, p0.slug, p0.price, p0.oldPrice;
    if Get(data, "name") != "" {
      name := Get(data, "name");
    }
    if Get(data, "slug") != "" {
      slug := Get(data, "slug");
    }
    var newPrice := ToDecimal(Lookup(data, "price"));
    if newPrice.Some? {
      price := newPrice.value;
    }
    var newOldPrice := ToDecimal(Lookup(data, "old_price"));
    if newOldPrice.Some? {
      oldPrice := newOldPrice;
    }
    p := p0.(name := name, slug := slug, price := price, oldPrice := oldPrice);
  }

  /** The flag assignments of `_update_product`: each flag column present is re-read. */
  method ChangeFlags(p0: Product, data: RowData) returns (p: Product)
    ensures p == Reflagged(p0, data)
  {
    var available, featured, isNew, bestseller := p0.isAvailable, p0.isFeatured, p0.isNew, p0.isBestseller;
    if "is_available" in data {
      available := ToBool(Some(data["is_available"]));
    }
    if "is_featured" in data {
      featured := ToBool(Some(data["is_featured"]));
    }
    if "is_new" in data {
      isNew := ToBool(Some(data["is_new"]));
    }
    if "is_bestseller" in data {
      bestseller := ToBool(Some(data["is_bestseller"]));
    }
    p := p0.(isAvailable := available, isFeatured := featured, isNew := isNew, isBestseller := bestseller);
  }

  class Importer {
    var job: ImportJob
    var products: map<string, Product>
    var categories: CategoryTable
    var nextProductId: nat
    var nextCategoryId: nat
    var logs: seq<ImportLog>
    const slugs: Slugifiers

    function Tables(): Catalog
      reads this
    {
      Catalog(products, categories, nextProductId, nextCategoryId)
    }

    function State(): RunState
      reads this
    {
      RunState(job, Tables(), logs)
    }

    constructor (s: RunState, slugs: Slugifiers)
      ensures State() == s && this.slugs == slugs
    {
      job := s.job;
      products := s.catalog.products;
      categories := s.catalog.categories;
      nextProductId := s.catalog.nextProductId;
      nextCategoryId := s.catalog.nextCategoryId;
      logs := s.logs;
      this.slugs := slugs;
    }

    /** The rollback of a transaction: the tables as they were when it began. */
    method Restore(c: Catalog)
      modifies this
      ensures Tables() == c && job == old(job) && logs == old(logs)
    {
      products := c.products;
      categories := c.categories;
      nextProductId := c.nextProductId;
      nextCategoryId := c.nextCategoryId;
    }

    /** `_log`: one entry appended, unless the write fails. */
    method WriteLog(e: ImportLog, fails: bool) returns (ok: bool)
      modifies this`logs
      ensures ok == !fails
      ensures logs == if ok then old(logs) + [e] else old(logs)
    {
      if fails {
        return false;
      }
      logs := logs + [e];
      return true;
    }

    /** `process`. */
    method Process(f: FileInput, inputs: nat -> RowInput, now: int)
      modifies this
      ensures State() == Processed(old(State()), f, inputs, now, slugs)
    {
      job := job.(status := Processing);
      var read := ReadFile(f);
      match read
      case Err(message) =>
        job := job.(status := Error, errorMessage := message, processedAt := Some(now));
      case Ok(rows) =>
        job := job.(totalRows := |rows|);
        var aborted := ProcessRows(rows, inputs);
        if aborted.Some? {
          job := job.(status := Error, errorMessage := aborted.value, processedAt := Some(now));
        } else {
          job := job.(status := TerminalStatus(job), processedAt := Some(now));
        }
    }

    /** The row loop of `process`: every row in order, until an exception escapes the row handler. */
    method ProcessRows(rows: seq<Row>, inputs: nat -> RowInput) returns (aborted: Option<string>)
      modifies this
      ensures RunRows(old(State()), rows, inputs, slugs) == if aborted.None? then Continue(State()) else Abort(State(), aborted.value)
    {
      ghost var start := State();
      var idx := 0;
      aborted := None;
      while idx < |rows| && aborted.None?
        invariant 0 <= idx <= |rows|
        invariant aborted.None? ==> RunRows(start, rows[..idx], inputs, slugs) == Continue(State())
        invariant aborted.Some? ==> RunRows(start, rows[..idx], inputs, slugs) == Abort(State(), aborted.value)
      {
        assert rows[..idx + 1][..idx] == rows[..idx];
        aborted := ProcessRow(idx, rows[idx], inputs(idx));
        idx := idx + 1;
      }
      if aborted.Some? {
        RunRowsAbortSticks(start, rows, idx, inputs, slugs);
      } else {
        assert rows[..idx] == rows;
      }
    }

    /** `_process_row` with the outer handler: the exception that ends the run, if any. */
    method ProcessRow(idx: nat, cells: Row, inp: RowInput) returns (escaped: Option<string>)
      modifies this
      ensures StepRow(old(State()), idx, cells, inp, slugs) == if escaped.None? then Continue(State()) else Abort(State(), escaped.value)
    {
      var data := NormalizeRow(cells);
      escaped := Check(idx + 2, data, inp);
    }

    /** `_process_row` on the normalised row: a missing name or price is logged, a complete row acted on. */
    method Check(rowNum: nat, data: RowData, inp: RowInput) returns (escaped: Option<string>)
      modifies this
      ensures CheckRow(old(State()), rowNum, data, inp, slugs) == if escaped.None? then Continue(State()) else Abort(State(), escaped.value)
    {
      if Get(data, "name") == "" {
        escaped := FirstLog(Entry(rowNum, data, Failed, Text("Отсутствует обязательное поле: name")), inp.fault);
        return;
      }
      if Get(data, "price") == "" {
        escaped := FirstLog(Entry(rowNum, data, Failed, Text("Отсутствует обязательное поле: price")), inp.fault);
        return;
      }
      escaped := ActOn(rowNum, data, inp);
    }

    /** `_process_row` past the required fields: skip, update or create, as the SKU and the import type decide. */
    method ActOn(rowNum: nat, data: RowData, inp: RowInput) returns (escaped: Option<string>)
      modifies this
      ensures Act(old(State()), rowNum, data, inp, slugs) == if escaped.None? then Continue(State()) else Abort(State(), escaped.value)
    {
      var sku := Get(data, "sku");
      var existing := sku != "" && sku in products;
      if existing {
        if job.importType == Create {
          escaped := Skip(Entry(rowNum, data, Skipped, Text("Товар с SKU " + sku + " уже существует")), inp.fault);
        } else {
          escaped := UpdateProduct(rowNum, sku, data, inp);
        }
      } else {
        if job.importType == Update {
          escaped := Skip(Entry(rowNum, data, Skipped, Text("Товар с SKU " + SkuText(data) + " не найден")), inp.fault);
        } else {
          escaped := CreateProduct(rowNum, data, inp);
        }
      }
    }

    /** A skipped row: its log entry, then the skipped counter. */
    method Skip(e: ImportLog, fault: RowFault) returns (escaped: Option<string>)
      modifies this`logs, this`job
      ensures SkipRow(old(State()), fault, e) == if escaped.None? then Continue(State()) else Abort(State(), escaped.value)
    {
      escaped := FirstLog(e, fault);
      if escaped.None? {
        job := job.(skippedCount := job.skippedCount + 1);
      }
    }

    /** The row's first log write; when it fails, the outer handler's own log fails and ends the run. */
    method FirstLog(e: ImportLog, fault: RowFault) returns (escaped: Option<string>)
      modifies this`logs
      ensures LogOrAbort(RunState(job, Tables(), old(logs)), fault, e) == if escaped.None? then Continue(State()) else Abort(State(), escaped.value)
    {
      var ok := WriteLog(e, fault.LogFails?);
      escaped := if ok then None else Some(UnloggableRow);
    }

    /** `_create_product`. */
    method CreateProduct(rowNum: nat, data: RowData, inp: RowInput) returns (escaped: Option<string>)
      modifies this
      ensures CreateRow(old(State()), rowNum, data, inp, slugs) == if escaped.None? then Continue(State()) else Abort(State(), escaped.value)
    {
      var saved := Tables();
      var stored := InsertProduct(data, inp);
      match stored
      case Err(cause) =>
        escaped := Commit(saved, rowNum, data, inp.fault, Some(cause), true, "");
      case Ok(id) =>
        escaped := Commit(saved, rowNum, data, inp.fault, None, true, "Товар создан: " + Get(data, "name") + " (ID: " + NatToString(id) + ")");
    }

    /**
     * The logging around a transaction that left the tables as they are
     * now, or failed with `failure`; `saved` is what a rollback restores.
     */
    method Commit(saved: Catalog, rowNum: nat, data: RowData, fault: RowFault, failure: Option<Cause>, created: bool, message: string)
      returns (escaped: Option<string>)
      modifies this
      ensures Committed(RunState(old(job), saved, old(logs)), rowNum, data, fault,
                        if failure.None? then Ok(old(Tables())) else Err(failure.value), created, message)
              == if escaped.None? then Continue(State()) else Abort(State(), escaped.value)
    {
      match failure
      case Some(cause) =>
        Restore(saved);
        var ok := WriteLog(Entry(rowNum, data, Failed, Raised(FailurePrefix(created), cause)), fault.LogFails?);
        if !ok {
          return Some(UnloggableRow);
        }
        job := job.(errorCount := job.errorCount + 1);
        escaped := None;
      case None =>
        if created {
          job := job.(createdCount := job.createdCount + 1);
        } else {
          job := job.(updatedCount := job.updatedCount + 1);
        }
        var ok := WriteLog(Entry(rowNum, data, if created then Created else Updated, Text(message)), fault.LogFails?);
        if !ok {
          Restore(saved);
          ok := WriteLog(Entry(rowNum, data, Failed, Raised(FailurePrefix(created), Fault(fault.reason))), false);
          job := job.(errorCount := job.errorCount + 1);
        }
        escaped := None;
    }

    /** The transaction of `_create_product`: the new product's id, or why it failed (the tables are then to be rolled back). */
    method InsertProduct(data: RowData, inp: RowInput) returns (r: Result<nat, Cause>)
      modifies this
      ensures job == old(job) && logs == old(logs)
      ensures CreatedProduct(old(Tables()), job, data, inp, slugs) == (if r.Ok? then Ok(Tables()) else Err(r.error))
      ensures r.Ok? ==> r.value == old(nextProductId)
    {
      if inp.fault.WriteFails? {
        return Err(Fault(inp.fault.reason));
      }
      var sku := SkuFor(data, inp);
      var slug := SlugFor(data, slugs);
      var stock := StockFor(data);
      if stock < 0 || sku in products || SlugTaken(products, slug, None) {
        return Err(Integrity);
      }
      var id := nextProductId;
      r := StoreNew(NewProduct(id, data, slug, sku, stock), data, inp);
    }

    /** `Product.objects.create` with the row's categories and images: the new product's id, or why it failed. */
    method StoreNew(p: Product, data: RowData, inp: RowInput) returns (r: Result<nat, Cause>)
      requires p.categories == {} && p.mainCategory.None?
      modifies this
      ensures job == old(job) && logs == old(logs)
      ensures StoredNew(old(Tables()), job, p, data, inp, slugs) == (if r.Ok? then Ok(Tables()) else Err(r.error))
      ensures r.Ok? ==> r.value == p.id
    {
      ghost var c0 := Tables();
      nextProductId := nextProductId + 1;
      var placed := Categorize(p, data);
      if placed.Err? {
        return Err(placed.error);
      }
      var images := ProcessImages(p.name, data, inp.images);
      products := products[p.sku := placed.value.(images := images)];
      r := Ok(p.id);
    }

    /** The categories of a new product: the listed ones with the first as main, or the job's default category. */
    method Categorize(p: Product, data: RowData) returns (r: Result<Product, Cause>)
      requires p.categories == {} && p.mainCategory.None?
      modifies this`categories, this`nextCategoryId
      ensures CategorizedNew(old(Tables()), job, p, data, slugs) == (if r.Ok? then Ok((Tables(), r.value)) else Err(r.error))
    {
      if Get(data, "categories") != "" {
        var cats := ParseCategories(Get(data, "categories"));
        match cats
        case Err(e) =>
          return Err(e);
        case Ok(list) =>
          return Ok(p.(categories := SetOf(list), mainCategory := if |list| > 0 then Some(list[0]) else None));
      } else if job.defaultCategory.Some? {
        return Ok(p.(categories := {job.defaultCategory.value}, mainCategory := job.defaultCategory));
      }
      return Ok(p);
    }

    /** `_update_product`. */
    method UpdateProduct(rowNum: nat, sku: string, data: RowData, inp: RowInput) returns (escaped: Option<string>)
      requires sku in products
      modifies this
      ensures UpdateRow(old(State()), rowNum, sku, data, inp, slugs) == if escaped.None? then Continue(State()) else Abort(State(), escaped.value)
    {
      var saved := Tables();
      var stored := ChangeProduct(sku, data, inp);
      match stored
      case Err(cause) =>
        escaped := Commit(saved, rowNum, data, inp.fault, Some(cause), false, "");
      case Ok(name) =>
        escaped := Commit(saved, rowNum, data, inp.fault, None, false, "Товар обновлен: " + name);
    }

    /** The transaction of `_update_product`: the product's new name, or why it failed. */
    method ChangeProduct(sku: string, data: RowData, inp: RowInput) returns (r: Result<string, Cause>)
      requires sku in products
      modifies this
      ensures job == old(job) && logs == old(logs)
      ensures UpdatedProduct(old(Tables()), job, sku, data, inp, slugs) == (if r.Ok? then Ok(Tables()) else Err(r.error))
      ensures r.Ok? ==> sku in products && r.value == products[sku].name
    {
      if inp.fault.WriteFails? {
        return Err(Fault(inp.fault.reason));
      }
      var p := ChangeFields(products[sku], data);
      if p.Err? {
        return Err(p.error);
      }
      if SlugTaken(products, p.value.slug, Some(sku)) {
        return Err(Integrity);
      }
      r := Relink(sku, p.value, data, inp);
    }

    /** The rest of `_update_product`'s transaction: the listed categories, the images when allowed, and the save. */
    method Relink(sku: string, p: Product, data: RowData, inp: RowInput) returns (r: Result<string, Cause>)
      requires sku in products
      modifies this
      ensures job == old(job) && logs == old(logs)
      ensures Relinked(old(Tables()), job, sku, p, data, inp, slugs) == (if r.Ok? then Ok(Tables()) else Err(r.error))
      ensures r.Ok? ==> sku in products && r.value == products[sku].name
    {
      ghost var c0 := Tables();
      var q := p;
      if Get(data, "categories") != "" {
        var cats := ParseCategories(Get(data, "categories"));
        match cats
        case Err(e) =>
          return Err(e);
        case Ok(list) =>
          q := q.(categories := SetOf(list));
      }
      assert Recategorized(c0, p, data, slugs) == Ok((Tables(), q));
      if job.updateImages {
        var images := ProcessImages(q.name, data, inp.images);
        q := q.(images := images);
      }
      products := products[sku := q];
      r := Ok(q.name);
    }
    /** `Category.objects.get_or_create` by the slug of `name`. */
    method GetOrCreate(name: string) returns (r: Result<string, Cause>)
      modifies this`categories, this`nextCategoryId
      ensures GetOrCreateCategory(old(Tables()), name, slugs.unicode) == (if r.Ok? then Ok((Tables(), r.value)) else Err(r.error))
    {
      var slug := slugs.unicode(name);
      if slug in categories {
        return Ok(slug);
      }
      if NameTaken(categories, name) {
        return Err(Integrity);
      }
      categories := categories[slug := Category(nextCategoryId, name, slug, None, true, 0)];
      nextCategoryId := nextCategoryId + 1;
      r := Ok(slug);
    }

    /** `_parse_categories`: the slugs of the listed categories, creating the missing ones. */
    method ParseCategories(text: string) returns (r: Result<seq<string>, Cause>)
      modifies this`categories, this`nextCategoryId
      ensures ResolveCategories(old(Tables()), text, slugs.unicode) == (if r.Ok? then Ok((Tables(), r.value)) else Err(r.error))
    {
      var parts := Split(text, ',');
      ghost var c0 := Tables();
      var result: seq<string> := [];
      for i := 0 to |parts|
        invariant ResolveParts(c0, parts[..i], slugs.unicode) == Ok((Tables(), result))
      {
        ResolvePartsNext(c0, parts, i, slugs.unicode);
        var name := Strip(parts[i]);
        if name != "" {
          var got := GetOrCreate(name);
          match got
          case Err(e) =>
            ResolvePartsErrSticks(c0, parts, i + 1, slugs.unicode);
            return Err(e);
          case Ok(slug) =>
            result := result + [slug];
        }
      }
      assert parts[..|parts|] == parts;
      r := Ok(result);
    }

    /** `_process_images`: the cells of the five image columns, then each one fetched. */
    method ProcessImages(name: string, data: RowData, src: ImageSources) returns (images: seq<ProductImage>)
      ensures images == ProductImages(name, data, src, slugs)
    {
      var cells := CollectImageCells(data);
      images := FetchImages(Take(slugs.ascii(name), 30), cells, src);
    }
  }

  /** The non-empty cells of columns `image_1` .. `image_5`, read column by column. */
  method CollectImageCells(data: RowData) returns (cells: seq<ImageCell>)
    ensures cells == ImageCells(data, 5)
  {
    cells := [];
    for i := 1 to 6
      invariant cells == ImageCells(data, i - 1)
    {
      var url := Get(data, "image_" + NatToString(i));
      if url != "" {
        cells := cells + [ImageCell(url, i)];
      }
    }
  }

  /** Each cell fetched in turn; the images obtained, in order. */
  method FetchImages(stem: string, cells: seq<ImageCell>, src: ImageSources) returns (images: seq<ProductImage>)
    ensures images == ImagesFor(stem, cells, src)
  {
    images := [];
    for j := 0 to |cells|
      invariant images == ImagesFor(stem, cells[..j], src)
    {
      assert cells[..j + 1][..j] == cells[..j];
      match ImageFor(stem, cells[j], src)
      case Some(img) => images := images + [img];
      case None =>
    }
    assert cells[..|cells|] == cells;
  }

  /** Once a run has ended, the remaining rows change nothing. */
  lemma {:induction false} RunRowsAbortSticks(s: RunState, rows: seq<Row>, k: nat, inputs: nat -> RowInput, slugs: Slugifiers)
    requires k <= |rows| && RunRows(s, rows[..k], inputs, slugs).Abort?
    ensures RunRows(s, rows, inputs, slugs) == RunRows(s, rows[..k], inputs, slugs)
    decreases |rows|
  {
    if k < |rows| {
      var n := |rows| - 1;
      assert rows[..n][..k] == rows[..k];
      RunRowsAbortSticks(s, rows[..n], k, inputs, slugs);
      var front := RunRows(s, rows[..n], inputs, slugs);
      assert RunRows(s, rows, inputs, slugs) == Abort(front.state, front.message);
    } else {
      assert rows[..k] == rows;
    }
  }
}
