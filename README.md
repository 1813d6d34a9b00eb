# Gipsum shop — a Dafny model of its core

This project models the core of a small online shop. The shop has a Django
and REST-framework backend and a Nuxt front end. Each module below follows
one source file, or one group of them, and proves what that code promises.

- **Product import** (`Uploads`, `ImportModels`, `ImportRules`,
  `ImportService`): the import job, its status and type codes and its
  upload path.
  - The per-row rules: row normalisation, number and boolean coercion,
    category lists, image columns and the create / update / skip decision.
  - The row-by-row state machine of `ProductImportService` over the product
    and category tables, with its counters, log and terminal status.
  - The class `ImportService.Importer` holds that state in fields. Its
    methods are proved to change it exactly as the specification functions
    `StepRow`, `RunRows` and `Processed` say.
- **Catalogue** (`ProductModels`, `ProductViews`):
  - categories as a parent forest: full path, active descendants and
    breadcrumbs;
  - SKU generation, discount, stock flags and the main image;
  - the listing's filter chain, lookup by id or slug, and the search action.
- **Cart** (`CartModels`, `CartService`, `CartViews`, `CartStore`):
  - cart lines with one line per product, and the count and total derived
    from them;
  - the `CartService` class over the cart table and the session: add,
    remove, update, clear and merge;
  - the endpoints' serializer bounds and stock guards in front of those
    operations;
  - the client-side store with its getters and how each request's outcome
    updates it.
- **Orders** (`Orders`):
  - shipping, 8% tax and the total;
  - order creation from the cart, stock taken only when it suffices;
  - the order number and the "e-mail already sent" guard.
- **Accounts** (`Accounts`): sign-in by a normalised e-mail address, and
  registration with its field checks and the first free username.
- **Feedback** (`Feedback`):
  - the recipients list;
  - the attachment's name, extension, kind and upload path;
  - the privacy, attachment and phone checks;
  - the record `create` writes.
- **Site settings** (`SiteSettings`): typed values stored as text, and the
  read-only endpoints by key, by key list and by prefix.

`Wrappers` (Option and Result), `Seqs` and `Text` are helpers. `Text` holds
the Python string operations the code relies on, stated on `seq<char>`.

Decimal amounts are modelled as `real`. Everything outside the program is an
input to the operation that meets it:
- rows read from a file, and download and storage outcomes;
- database faults inside a transaction;
- uuid hex digits and the clock;
- the outcome of each front-end request.

Two behaviours of the code are modelled as written:
- **Malformed price.** A new product whose price cell does not read as a
  number is stored at price 0 (`backend/products/import_service.py:135`).
  The row is not reported as an error.
- **Row counters.** A row that lacks a name or a price is logged as an
  error and counted in no counter (`backend/products/import_service.py:96-102`),
  so the counters need not add up to the rows read. A row whose success log
  fails after the write is counted twice.
  `ImportService.NamelessRowsCountNothing` and
  `ImportService.SuccessLogFailureCountsTwice` state both.

## Model

| member | source | states |
|---|---|---|
| Uploads.UploadExtension | backend/products/import_models.py:10 | the kept extension has no dot, uses only characters of the uploaded name, and is the whole name when it has no dot |
| Uploads.UploadExtensionAfterLastDot | backend/products/import_models.py:10 | the extension is a suffix of the name: with a dot in the name, exactly the text after its last dot |
| Uploads.DatedPath | backend/products/import_models.py:20 | the path splits on `/` into exactly prefix, the year in decimal, two-digit month and `stem.ext`, and its text after the last dot is the upload's extension |
| ImportModels.JobStatusOf | backend/products/import_models.py:26-32 | a stored code read back as a status has that code; codes outside the five choices read as none |
| ImportModels.JobStatusCodes | backend/products/import_models.py:26-32 | every job status round-trips through its stored code |
| ImportModels.ImportTypeOf | backend/products/import_models.py:34-38 | a stored import-type code read back has that code |
| ImportModels.ImportTypeCodes | backend/products/import_models.py:34-38 | every import type round-trips through its stored code |
| ImportModels.LogStatusOf | backend/products/import_models.py:115-121 | a stored log-status code read back has that code (`error` is the failed status) |
| ImportModels.LogStatusCodes | backend/products/import_models.py:115-121 | every log status round-trips through its stored code |
| ImportModels.NewJob | backend/products/import_models.py:47-101 | a new job is pending, unprocessed, with every counter at zero, an empty error message, the import type defaulting to create-and-update and both flags off unless given |
| ImportModels.ImportFilePath | backend/products/import_models.py:10-20 | the path is `imports/<year>/<month>/import_<first 8 hex>.<ext>`, dated by the job's creation time and by the clock when there is none, and keeps the upload's extension |
| ImportRules.LastPresent | backend/products/import_service.py:88-90 | the index of the last non-empty cell whose stripped, lower-cased column name is the key, or -1 when there is none |
| ImportRules.Normalize | backend/products/import_service.py:86-90 | the row dictionary has exactly the normalised names of the non-empty cells, each mapped to the stripped text of the last such cell |
| ImportRules.Lookup | backend/products/import_service.py:93-94 | `data.get(k)` has a value exactly when the key is present |
| ImportRules.CleanMoney | backend/products/import_service.py:302 | the cleaned money text has no comma, space, rouble or dollar sign left |
| ImportRules.ToDecimal | backend/products/import_service.py:297-305 | null texts give none; otherwise the cleaned text is read as `Decimal()` reads it (`Text.DecimalText`), so a cleaned plain literal reads as its value |
| ImportRules.NullTextUnreadable | backend/products/import_service.py:299-300 | a null marker in any letter case never reads as a number |
| ImportRules.ToDecimalCleaned | backend/products/import_service.py:297-305 | a cell reads the same as its cleaned text: spaces, currency signs and a comma for the point make no difference |
| ImportRules.ToDecimalRoubles | backend/products/import_service.py:297-305 | a price written as digits followed by ` ₽` reads as that number |
| ImportRules.ToDecimalSpacedRoubles | backend/products/import_service.py:297-305 | digits, any other whitespace character (a no-break space, a tab) and `₽` also read as that number: cleaning keeps that whitespace and `Decimal()` strips it |
| ImportRules.ToInt | backend/products/import_service.py:307-314 | null texts give none; any other text gives a value exactly when it reads as a decimal with `,` as the point, and the value is that decimal truncated toward zero |
| ImportRules.ToIntWhole | backend/products/import_service.py:307-314 | a stock written as a whole number reads as that number |
| ImportRules.ToIntFraction | backend/products/import_service.py:307-314 | a stock written as `<n>,<digits>` reads as `n`: the fraction is dropped |
| ImportRules.ToBool | backend/products/import_service.py:19-320 | true exactly when the lower-cased text is one of the listed true-words; false for a missing or empty value |
| ImportRules.ToBoolIgnoresCase | backend/products/import_service.py:316-320 | a cell reads the same as its lower-cased form |
| ImportRules.NonEmptyStripped | backend/products/import_service.py:223-226 | the kept names are non-empty, already stripped, and no more than the parts |
| ImportRules.CategoryNames | backend/products/import_service.py:217-226 | every parsed category name is non-empty, stripped and free of commas |
| ImportRules.CategoryNamesRoundTrip | backend/products/import_service.py:217-226 | parsing clean names joined by commas gives back exactly those names in order |
| ImportRules.ImageCells | backend/products/import_service.py:240-249 | the non-empty `image_1`..`image_n` cells, in increasing position, each with that column's text |
| ImportRules.ImageCellsComplete | backend/products/import_service.py:240-249 | every non-empty column `image_k` with `1 <= k <= n` gives a cell in position `k` |
| ImportRules.ImageExtension | backend/products/import_service.py:282-284 | the kept extension is always an allowed one: the URL's own (after the last dot, before `?`, cut to four characters) when that is allowed, and `jpg` otherwise |
| ImportRules.ImageExtensionKept | backend/products/import_service.py:282-284 | a URL ending in `.<allowed extension>`, with or without a query, keeps that extension |
| ImportRules.Decide | backend/products/import_service.py:111-123 | an existing product is skipped by a create-only import and updated otherwise; a missing one is skipped by an update-only import and created otherwise |
| ImportService.GetOrCreateCategory | backend/products/import_service.py:229-233 | the category under the name's slug, or a new one; creation fails with an integrity error exactly when the slug is new but another category already has the name; products are untouched |
| ImportService.GetOrCreateCategoryGrows | backend/products/import_service.py:229-233 | a lookup only adds categories, and a created category carries the typed name |
| ImportService.GetOrCreateCategoryValid | backend/products/import_service.py:229-233 | a lookup keeps the table constraints (slug keys, unique names) |
| ImportService.ResolveParts | backend/products/import_service.py:222-236 | resolving the parts fails only with an integrity error and never touches products |
| ImportService.ResolvePartsErrSticks | backend/products/import_service.py:222-236 | a failure among the first parts fails the whole list |
| ImportService.ResolvePartsGrows | backend/products/import_service.py:222-236 | resolving the parts only adds categories |
| ImportService.ResolvePartsSlugs | backend/products/import_service.py:222-236 | the slugs found are those of the stripped non-blank parts, in order, each naming a stored category |
| ImportService.ResolvePartsValid | backend/products/import_service.py:222-236 | resolving the parts keeps the table constraints |
| ImportService.ResolveCategories | backend/products/import_service.py:217-236 | `_parse_categories` fails only with an integrity error and never touches products |
| ImportService.ResolveCategoriesSlugs | backend/products/import_service.py:217-236 | the slugs found are those of the text's category names, in order, each naming a stored category |
| ImportService.ImageFor | backend/products/import_service.py:257-295 | a cell gives an image exactly when its URL is no null marker and its file is in storage (`/media/` paths) or downloads (other URLs); the image has the cell's position as order, is main exactly in position 1, and its file is the stored path or `<stem>_<position>.<extension>` |
| ImportService.ImagesFor | backend/products/import_service.py:251-255 | no more images than cells (which images: `ImagesForComplete`, `ImagesForSound`) |
| ImportService.ImagesForComplete | backend/products/import_service.py:251-255 | every cell that gives an image contributes it, whatever the cells before it gave |
| ImportService.ImagesForSound | backend/products/import_service.py:251-255 | every image is the one some cell gives |
| ImportService.ImagesForPlaced | backend/products/import_service.py:251-255 | each image comes from one cell, in the cells' order, main exactly in position 1 |
| ImportService.ProductImages | backend/products/import_service.py:238-255 | at most five images per row (which images: `ProductImagesComplete`, `ProductImagesSound`) |
| ImportService.ProductImagesComplete | backend/products/import_service.py:238-255 | every non-empty column `image_1`..`image_5` that gives an image contributes it; a failing column does not stop the others |
| ImportService.ProductImagesSound | backend/products/import_service.py:238-255 | every image of a row is in a position from 1 to 5 and is the one that position's column gives |
| ImportService.ProductImagesFacts | backend/products/import_service.py:238-255 | the imported images are in positions 1 to 5, in order, and at most one is main (with backend/products/models.py:212-218) |
| ImportService.GeneratedImportSku | backend/products/import_service.py:322-326 | a generated SKU starts with `SKU-` |
| ImportService.SkuFor | backend/products/import_service.py:132 | a new product's SKU is never empty and is the row's own whenever the row gives one |
| ImportService.NewProduct | backend/products/import_service.py:129-142 | the created product has the row's texts, an unparsable price stored as 0, `is_available` true unless given, `is_featured`, `is_new` and `is_bestseller` each true exactly when its cell reads as true, and no categories or images yet |
| ImportService.CategorizedNew | backend/products/import_service.py:144-154 | only categories change; without a category column the job's default category becomes the only and main category |
| ImportService.CategorizedNewGrows | backend/products/import_service.py:144-150 | categorising a new product only adds categories |
| ImportService.CategorizedNewListed | backend/products/import_service.py:145-150 | the listed categories become exactly the product's categories and the first listed one its main category |
| ImportService.SlugsListed | backend/products/import_service.py:146-149 | the found slugs, as a set, are the slugs of the names; the first is the first name's |
| ImportService.CategorizedNewExisting | backend/products/import_service.py:144-154 | every category a new product gets exists, given that the job's default category does |
| ImportService.CategorizedNewValid | backend/products/import_service.py:144-154 | categorising a new product keeps the table constraints |
| ImportService.CreatedProduct | backend/products/import_service.py:125-164 | a failing write gives that fault; a negative stock or a taken SKU gives an integrity error; success stores the product under its SKU and takes the next id |
| ImportService.CreatedProductFacts | backend/products/import_service.py:125-164 | a created product is new under its SKU, with the next id, the row's slug and name, and a slug no other product has; every other product is kept |
| ImportService.CreatedProductKeepsCategories | backend/products/import_service.py:125-164 | creating a product changes no existing category |
| ImportService.CreatedProductValid | backend/products/import_service.py:125-164 | creating a product keeps the table constraints when the job's default category exists |
| ImportService.StoredNewValid | backend/products/import_service.py:129-157 | storing a fresh product with its categories and images keeps the table constraints |
| ImportService.StoredNewFacts | backend/products/import_service.py:129-157 | a product stored under a fresh SKU with the next id is new and every other product is kept |
| ImportService.UpdatedFields | backend/products/import_service.py:170-198 | the field assignments fail exactly on a negative stock, and never change the SKU, id, images or categories |
| ImportService.UpdatedFieldsColumns | backend/products/import_service.py:170-198 | each column the row fills (non-empty name or slug, a parsable price, old price or stock, a present flag) replaces the stored value and every other field is kept |
| ImportService.UpdatedProduct | backend/products/import_service.py:166-215 | a failing write gives that fault; success keeps the product under its SKU with the updated fields |
| ImportService.UpdatedProductFacts | backend/products/import_service.py:166-209 | an update keeps every SKU and every other product; the product keeps its categories when the row lists none and its images when the job does not update images |
| ImportService.RelinkedFacts | backend/products/import_service.py:198-209 | storing the updated product with its new links is such an update |
| ImportService.UpdatedProductValid | backend/products/import_service.py:166-209 | an update keeps the table constraints |
| ImportService.Recategorized | backend/products/import_service.py:200-203 | only the product's categories change, and nothing changes when the row lists none |
| ImportService.RecategorizedListed | backend/products/import_service.py:200-203 | the product's categories become exactly the listed ones, all of which exist afterwards |
| ImportService.RecategorizedValid | backend/products/import_service.py:200-203 | re-categorising keeps the table constraints |
| ImportService.Entry | backend/products/import_service.py:328-338 | a log entry carries the row number, status, message and data, with the row's SKU and name ("" when absent) |
| ImportService.LogOrAbort | backend/products/import_service.py:39-101 | a first log write that fails ends the run with nothing of the row recorded; otherwise exactly that entry is appended |
| ImportService.Counted | backend/products/import_service.py:115-215 | the four counters grow by the given amounts and nothing else of the job changes |
| ImportService.Committed | backend/products/import_service.py:159-215 | one log entry per row; without a log fault the tally grows by one; when the success log fails after a committed write, the write is rolled back while the created or updated count stays and an error is counted too |
| ImportService.CreateRow | backend/products/import_service.py:125-164 | the tables are unchanged or are exactly the created product's tables; the tally grows by one unless the log write fails |
| ImportService.UpdateRow | backend/products/import_service.py:166-215 | the tables are unchanged or are exactly the updated tables; the tally grows by one unless the log write fails |
| ImportService.SkipRow | backend/products/import_service.py:113-122 | a skipped row logs one entry and raises only the skipped counter |
| ImportService.ActEffect | backend/products/import_service.py:104-123 | a complete row adds one log entry and counts once unless its log write fails, and changes the tables only by the update or creation the import type allows |
| ImportService.CheckRowEffect | backend/products/import_service.py:92-123 | a row missing a name or a price is logged but changes neither a counter nor a table |
| ImportService.StepRowEffect | backend/products/import_service.py:37-123 | the row at index `i` adds one log entry numbered `i + 2` unless the run ends, counts nothing when a required field is missing and once otherwise |
| ImportService.FromRowKeeps | backend/products/import_service.py:112-116 | under a create-only import a row keeps every existing product |
| ImportService.FromRowKeys | backend/products/import_service.py:118-122 | under an update-only import a row neither adds nor removes a product |
| ImportService.FromRowValid | backend/products/import_service.py:84-123 | a row keeps the table constraints |
| ImportService.FirstDecoded | backend/products/import_service.py:71-75 | none exactly when every decoding failed; otherwise the first decoding that worked |
| ImportService.FirstDecodedAt | backend/products/import_service.py:71-75 | the first working encoding's rows are the ones used |
| ImportService.ReadRows | backend/products/import_service.py:64-82 | an extension other than `.csv`, `.xlsx` or `.xls` is refused with its message; Excel files come from the Excel reader |
| ImportService.ReadCsv | backend/products/import_service.py:69-76 | a CSV file fails exactly when no encoding decodes it, with the fixed message; otherwise its rows come from one of the encodings |
| ImportService.TerminalStatus | backend/products/import_service.py:45-51 | completed exactly without errors; partial exactly with errors and something created or updated; error otherwise |
| ImportService.Processed | backend/products/import_service.py:25-59 | a processed job has its finishing time set and is never left pending or processing |
| ImportService.RunRowsLogs | backend/products/import_service.py:37-43 | the log grows by one entry per processed row, in row order, numbered from 2; a run that ends early has fewer entries than rows |
| ImportService.RunLogsOrdered | backend/products/import_service.py:37-43 | a job that starts without log entries ends with its entries ordered by row number (with backend/products/import_models.py:136-139) |
| ImportService.SuccessLogFailureCountsTwice | backend/products/import_service.py:127-164 | a created row whose success log cannot be written is rolled back, yet counted both as created and as an error, with an error entry |
| ImportService.CreateOnlyRunKeepsProducts | backend/products/import_service.py:112-116 | a create-only import never changes an existing product |
| ImportService.UpdateOnlyRunAddsNothing | backend/products/import_service.py:118-122 | an update-only import neither adds nor removes products |
| ImportService.RunRowsValid | backend/products/import_service.py:37-43 | a whole run keeps the table constraints |
| ImportService.ProcessedValid | backend/products/import_service.py:25-59 | processing keeps the table constraints |
| ImportService.UnreadableFile | backend/products/import_service.py:53-55 | a file that cannot be read ends the job in error with the reader's message, and nothing else changes |
| ImportService.ProcessedStatus | backend/products/import_service.py:45-55 | a completed job read its file and had no error; a partial one created or updated something |
| ImportService.NamelessRowsCountNothing | backend/products/import_service.py:96-98 | rows without a name each log an error yet change no counter and no table |
| ImportService.NamelessFileCompletes | backend/products/import_service.py:46-98 | a file whose rows all lack a name still ends completed |
| ImportService.RunRowsAbortSticks | backend/products/import_service.py:30-55 | once an exception ends the run, the remaining rows change nothing |
| ImportService.NormalizeRow | backend/products/import_service.py:87-90 | the loop builds exactly the normalised row |
| ImportService.ReadFile | backend/products/import_service.py:64-82 | the method reads the file as `ReadRows` specifies |
| ImportService.DecodeCsv | backend/products/import_service.py:71-76 | the encoding loop returns what `ReadCsv` specifies |
| ImportService.ChangeFields | backend/products/import_service.py:170-198 | the assignments give exactly `UpdatedFields` |
| ImportService.ChangeTexts | backend/products/import_service.py:171-186 | the text, price and stock assignments as specified |
| ImportService.ChangeFlags | backend/products/import_service.py:189-196 | the flag assignments as specified |
| ImportService.CollectImageCells | backend/products/import_service.py:240-249 | the loop over `image_1`..`image_5` collects exactly the non-empty cells in order |
| ImportService.FetchImages | backend/products/import_service.py:251-255 | the loop yields exactly the images the cells give, in order |
| ImportService.Importer.constructor | backend/products/import_service.py:21-23 | the service starts on the given job, tables and log |
| ImportService.Importer.Restore | backend/products/import_service.py:128-169 | a rollback restores the tables and keeps the job and log |
| ImportService.Importer.WriteLog | backend/products/import_service.py:328-338 | one entry appended unless the write fails |
| ImportService.Importer.Process | backend/products/import_service.py:25-59 | the new state is exactly `Processed` of the old one |
| ImportService.Importer.ProcessRows | backend/products/import_service.py:37-43 | the row loop leaves the state `RunRows` specifies, reporting the escaping exception if any |
| ImportService.Importer.ProcessRow | backend/products/import_service.py:37-123 | one row leaves the state `StepRow` specifies |
| ImportService.Importer.Check | backend/products/import_service.py:92-102 | the required-field checks leave the state `CheckRow` specifies |
| ImportService.Importer.ActOn | backend/products/import_service.py:104-123 | skip, update or create leaves the state `Act` specifies |
| ImportService.Importer.Skip | backend/products/import_service.py:113-122 | a skip leaves the state `SkipRow` specifies |
| ImportService.Importer.FirstLog | backend/products/import_service.py:39-101 | the first log write leaves the state `LogOrAbort` specifies |
| ImportService.Importer.CreateProduct | backend/products/import_service.py:125-164 | `_create_product` leaves the state `CreateRow` specifies |
| ImportService.Importer.Commit | backend/products/import_service.py:159-215 | the logging after a transaction leaves the state `Committed` specifies |
| ImportService.Importer.InsertProduct | backend/products/import_service.py:128-157 | the creating transaction leaves the tables `CreatedProduct` specifies and returns the new id |
| ImportService.Importer.StoreNew | backend/products/import_service.py:129-157 | storing the new product leaves the tables `StoredNew` specifies |
| ImportService.Importer.Categorize | backend/products/import_service.py:144-154 | categorising a new product as `CategorizedNew` specifies |
| ImportService.Importer.UpdateProduct | backend/products/import_service.py:166-215 | `_update_product` leaves the state `UpdateRow` specifies |
| ImportService.Importer.ChangeProduct | backend/products/import_service.py:169-209 | the updating transaction leaves the tables `UpdatedProduct` specifies and returns the product's name |
| ImportService.Importer.Relink | backend/products/import_service.py:198-209 | the rest of the update leaves the tables `Relinked` specifies |
| ImportService.Importer.GetOrCreate | backend/products/import_service.py:229-233 | the lookup changes the categories as `GetOrCreateCategory` specifies |
| ImportService.Importer.ParseCategories | backend/products/import_service.py:217-236 | the loop over the parts changes the categories as `ResolveCategories` specifies |
| ImportService.Importer.ProcessImages | backend/products/import_service.py:238-255 | the images are exactly `ProductImages` |
| ProductModels.Ancestry | backend/products/models.py:10-16 | the chain of slugs from a root category down to the given one, each linked to the previous by its parent field |
| ProductModels.GetFullPath | backend/products/models.py:36-43 | the loop returns the names of the category's ancestry, root first, joined with ` > ` |
| ProductModels.ActiveChildren | backend/products/models.py:48 | every child listed is in the table, active, and has the category as parent |
| ProductModels.ActiveChildrenMembers | backend/products/models.py:48 | a slug is listed exactly when the table order holds it as an active child of the category |
| ProductModels.ActiveChildrenInOrder | backend/products/models.py:48 | over a table order without repeats, the children come once each and in that order |
| ProductModels.Subtree | backend/products/models.py:45-50 | starts with the category itself, and every later entry is active with its parent earlier in the list |
| ProductModels.Subtrees | backend/products/models.py:47-49 | every entry is active and is a child of the category or of an earlier entry |
| ProductModels.GetAllChildren | backend/products/models.py:45-50 | the loop over active children returns the pre-order subtree, with or without the category itself as `include_self` says |
| ProductModels.SubtreeExactly | backend/products/models.py:45-50 | the subtree holds exactly the category and the categories below it along active categories |
| ProductModels.SubtreeDistinct | backend/products/models.py:45-50 | the subtree lists no category twice |
| ProductModels.SubtreesDistinct | backend/products/models.py:47-49 | the subtrees of distinct children are disjoint and without repeats |
| ProductModels.GeneratedSku | backend/products/models.py:160-164 | the generated SKU is `PRD-` followed by at least six digits whose value is the last id plus one (zero without products) |
| ProductModels.GeneratedSkuInjective | backend/products/models.py:160-164 | different last ids never generate the same SKU |
| ProductModels.SaveProduct | backend/products/models.py:158-165 | an empty SKU is replaced by the generated one, anything else is kept, and the saved SKU is never empty |
| ProductModels.DiscountPercent | backend/products/models.py:173-178 | zero without a truthy old price above the price, otherwise the truncated saving percentage |
| ProductModels.DiscountBounded | backend/products/models.py:173-178 | with a non-negative price the discount lies between 0 and 100 |
| ProductModels.MainImage | backend/products/models.py:167-171 | none exactly when there are no images; an image flagged main when one exists; otherwise the first image |
| ProductModels.MainImageIsTheMain | backend/products/models.py:167-218 | under the one-main-image constraint the main image is that flagged image |
| ProductViews.IntLiteral | backend/products/views.py:201-202 | a value `int()` accepts is non-empty, and a string of digits reads as its decimal value |
| ProductViews.OrderingOf | backend/products/views.py:192-194 | the ordering applied is always one of the six allowed keys; without the parameter it is `-created_at`; with it, it applies exactly when the value is allowed |
| Text.DecimalText | backend/products/views.py:169-174 | the lookup value of a price bound as `Decimal()` reads it: a plain literal reads as its value, and surrounding whitespace, underscores and exponents are read too (lemmas below) |
| Text.DecimalTextStripped | backend/products/views.py:169-174 | whitespace around a bound does not change its value: the value is that of the text `strip()` leaves |
| Text.DecimalTextExponent | backend/products/views.py:169-174 | a literal followed by `e<k>` reads as its value times ten to the `k` |
| Text.DecimalTextUnderscores | backend/products/views.py:169-174 | every underscore drops out wherever it stands: a text that is a plain literal once its underscores are removed (`1_000`, `_5`, `5_`, `5._0`) reads as that literal |
| Text.DecimalTextDigits | backend/products/views.py:169-174 | a string of digits reads as its decimal value |
| Text.DecimalTextNonNumeric | backend/products/views.py:169-174 | a value starting with anything but a digit, a sign, a point or an underscore (`inf`, `Infinity`, `nan`, `sNaN`), which the price field refuses, reads as no number |
| ProductViews.NumberParam | backend/products/views.py:169-174 | a bound fails exactly when it is supplied and not a finite decimal, and the error names it; it applies exactly when supplied, at the value `Decimal()` reads |
| ProductViews.ParseQueryRules | backend/products/views.py:156-190 | each filter is switched on by its own parameter alone: the flags only by the text `true`, the price bounds, category and search only by a non-empty value, the bounds at the value `Decimal()` reads |
| ProductViews.ParseQueryFails | backend/products/views.py:164-174 | the query fails exactly when a supplied category id is not an integer or a supplied price bound is not a finite decimal |
| ProductViews.ListingSpec | backend/products/views.py:149-196 | `get_queryset` fails exactly on an unreadable category id or price bound; otherwise it lists exactly the products that pass the filters, never more than the table, with the ordering that applies |
| ProductViews.SelectSpec | backend/products/views.py:149-196 | the listing holds exactly the products passing every filter, in table order and each once, never more than the table; non-staff see only available products |
| ProductViews.DistinctParts | backend/products/views.py:196 | a list without repeats keeps none in its tail, and its head is not in the tail |
| ProductViews.DistinctPrepend | backend/products/views.py:196 | putting a product not yet in a list without repeats in front keeps it without repeats |
| ProductViews.FindById | backend/products/views.py:203-206 | a product found by primary key has that id and, for non-staff, is available; when none is found every product with that id is unavailable to a non-staff user |
| ProductViews.FindBySlug | backend/products/views.py:208-211 | the same for a lookup by slug |
| ProductViews.RetrieveChoice | backend/products/views.py:198-214 | `retrieve` looks a value that reads as an integer up by id and anything else by slug, and returns only a product it may show; a value of digits always goes by id |
| ProductViews.FilterTermSpec | backend/products/views.py:277-281 | the search narrows to exactly the products whose name, description or a category name contains the term |
| ProductViews.Take20 | backend/products/views.py:281 | the slice is a prefix of at most 20 products, the whole list when it is no longer |
| ProductViews.SearchResults | backend/products/views.py:267-288 | a query shorter than 2 characters is refused; otherwise at most 20 results, each matching the term and passing every listing filter, with the count equal to the number of results |
| ProductViews.CrumbsOf | backend/products/views.py:113-117 | one crumb per category, carrying its id, name and slug |
| ProductViews.CrumbStep | backend/products/views.py:112-119 | one step of the walk: appending a category's crumb before the reversal equals putting its parent's chain in front |
| ProductViews.CrumbsChain | backend/products/views.py:109-119 | the crumbs run from a root category down to the category itself, each the parent of the next |
| ProductViews.GetBreadcrumbs | backend/products/views.py:109-119 | the loop's result is exactly the crumbs of the category's ancestry, root first |
| CartModels.Plus | backend/cart/models.py:37-41 | adding amounts adds their values, and the sum stays the integer 0 only when both are |
| CartModels.LineTotalCost | backend/cart/models.py:72-76 | a line's total is its price times its quantity, and the integer 0 exactly when it has no price |
| CartModels.TotalIsCost | backend/cart/models.py:39-41 | the cart total is what its lines cost, and stays the integer 0 exactly when no line has a price |
| CartModels.CountAppend | backend/cart/models.py:35-41 | item count and total cost add up over concatenated lines |
| CartModels.CountReplace | backend/cart/models.py:35-41 | replacing a line changes the count and the cost by the difference of the two lines |
| CartModels.Find | backend/cart/models.py:64-67 | the found position holds the product's line, and there is none exactly when the cart lacks the product |
| CartModels.FindUnique | backend/cart/models.py:67 | with one line per product the found line is the product's only line |
| CartModels.Saved | backend/cart/models.py:78-82 | saving keeps product and quantity, and the price is either kept or the product's |
| CartModels.SavedPrice | backend/cart/models.py:78-82 | a non-zero price is kept; a missing or zero price takes a non-zero product price; saving twice equals saving once |
| CartService.QuantityOfSingle | backend/cart/models.py:67 | with one line per product, the quantity held of a product is that line's quantity |
| CartService.AddedLines | backend/cart/cart.py:28-44 | after `add` the product has exactly one line, new with the requested quantity and the product's price, or the old one with its quantity replaced or increased; every other line stays in place |
| CartService.AddedCount | backend/cart/cart.py:28-44 | adding without override raises the item count by the quantity added |
| CartService.RemovedLines | backend/cart/cart.py:51-57 | after `remove` the product has no line, every other product holds what it held, the count drops by the product's quantity, and removing an absent product changes nothing |
| CartService.RemovedFilters | backend/cart/cart.py:53-56 | every remaining line is a line of the cart for another product |
| CartService.QuantitySetLines | backend/cart/cart.py:59-69 | a positive quantity keeps every line's product and price, changes only the product's line, and sets its quantity to the one given |
| CartService.MergeOneCounts | backend/cart/cart.py:116-127 | merging one line adds its quantity to that product and to the count, keeping one line per product |
| CartService.MergedSums | backend/cart/cart.py:116-127 | the merge loop leaves each product with the sum of both carts' quantities and keeps one line per product |
| CartService.MergeIntoUserCart | backend/cart/cart.py:104-131 | merging a session cart into the user's other cart sums both carts product by product and deletes the session cart |
| CartService.MergeOwnCartDeletesIt | backend/cart/views.py:148-164 | when the user's cart is the current cart itself, the merge deletes it: afterwards the user owns no cart and the service's cart is empty |
| CartService.MergeFixedKeepsEverything | backend/cart/cart.py:104-131 | with the corrected merge, the service's cart belongs to the user and holds every product of both carts exactly once, and the tables stay valid |
| CartService.MergedTablesValid | backend/cart/cart.py:104-131 | the merge keeps one line per product and at most one cart per user |
| CartService.Cart.constructor | backend/cart/cart.py:10-26 | the service works on the user's or the session's cart, found or freshly created |
| CartService.Cart.GetCount | backend/cart/cart.py:100-102 | the loop returns the sum of the line quantities (with backend/cart/models.py:35-37) |
| CartService.Cart.GetTotal | backend/cart/cart.py:95-98 | the loop returns the cart total, whose value is what the lines cost (with backend/cart/models.py:39-41) |
| CartService.Cart.UpdateSession | backend/cart/cart.py:133-139 | the session entry is rewritten from the cart's count and total |
| CartService.Cart.Add | backend/cart/cart.py:28-49 | the cart's lines become `Added` of the old lines, the session is refreshed and the returned line is the product's |
| CartService.Cart.Remove | backend/cart/cart.py:51-57 | the cart's lines become `Removed` of the old lines and the session is refreshed |
| CartService.Cart.UpdateQuantity | backend/cart/cart.py:59-69 | the cart's lines become `QuantitySet` of the old lines and the session is refreshed |
| CartService.Cart.Clear | backend/cart/cart.py:71-74 | the cart has no lines and the session holds a zero count and total |
| CartService.Cart.MergeWithUser | backend/cart/cart.py:104-131 | the tables become `MergedTables` of the old ones, the service moves to the user's cart, and the session is left as it was |
| CartService.Cart.MergeLines | backend/cart/cart.py:116-127 | the loop merges every source line into the target cart as `Merged` specifies |
| CartViews.AddGuardCases | backend/cart/views.py:38-58 | an add goes through exactly when the request is valid (quantity 1 to 100), the product exists and is available and its stock covers the requested quantity; a stock refusal reports both numbers (with backend/cart/serializers.py:24-27) |
| CartViews.UpdateGuardCases | backend/cart/views.py:81-96 | an update goes through exactly when the request is valid (quantity 0 to 100), the product exists and the stock covers a positive quantity; quantity 0 removes the line (with backend/cart/serializers.py:30-32) |
| CartViews.RemoveGuard | backend/cart/views.py:113-118 | a remove goes through exactly for an existing product id; a missing id is a bad request and an unknown one not found (with backend/cart/serializers.py:35-36) |
| CartViews.Respond | backend/cart/views.py:66-73 | the response carries the cart's total, count and lines as read back from the cart |
| CartViews.AddView | backend/cart/views.py:34-74 | a refused add leaves cart and session unchanged; an accepted one applies `add` and answers with the new cart |
| CartViews.UpdateView | backend/cart/views.py:77-106 | a refused update leaves cart and session unchanged; an accepted one applies `update_quantity` and answers with the new cart |
| CartViews.RemoveView | backend/cart/views.py:109-128 | a refused remove leaves cart and session unchanged; an accepted one removes the line and answers with the new cart |
| CartViews.ClearView | backend/cart/views.py:131-145 | the cart is emptied and the answer is the fixed empty cart with total `"0.00"` |
| CartViews.MergeView | backend/cart/views.py:148-164 | as written, the signed-in user's cart is deleted, the user is left without a cart and the answer is an empty cart (with backend/cart/cart.py:104-131) |
| CartViews.MergeViewFixed | backend/cart/views.py:148-164 | with the corrected merge, the user's cart holds what it held plus any separate session cart, product by product (with backend/cart/cart.py:104-131) |
| CartStore.ErrorText | frontend/app/stores/cart.ts:91-124 | an error message that is present and non-empty is shown as is; otherwise the action's fallback text is |
| CartStore.FirstIndex | frontend/app/stores/cart.ts:31 | `find` gives the first item for the product, with no earlier one, or reports that no item has it |
| CartStore.Store.constructor | frontend/app/stores/cart.ts:14-21 | the store starts with no items, total `"0.00"`, count 0, no flags set and no error, and so is empty |
| CartStore.Store.GettersAgree | frontend/app/stores/cart.ts:24-37 | the getters agree: without an item for the product its quantity is 0 and it cannot be increased; with one, the first item decides both quantity and whether it is below stock |
| CartStore.Store.Settle | frontend/app/stores/cart.ts:83-93 | a successful answer with a body replaces items, total and count; any other outcome keeps them; an error records the message or the fallback |
| CartStore.Store.FetchCart | frontend/app/stores/cart.ts:72-97 | as `Settle` with the text "Failed to load cart"; loading is off afterwards whatever the outcome and the updating flag is untouched |
| CartStore.Store.Mutate | frontend/app/stores/cart.ts:100-193 | the shared shape of the three mutating actions: body replaces the cart, failure keeps it and records the error, updating is off afterwards |
| CartStore.Store.AddToCart | frontend/app/stores/cart.ts:100-129 | `success` is true exactly when the request succeeded; a success with a cart body installs exactly that cart, anything else keeps items, total and count; a failure records its message or "Failed to add to cart"; the request flag is cleared and the loading flag kept |
| CartStore.Store.UpdateQuantity | frontend/app/stores/cart.ts:132-161 | as `AddToCart`, with the fallback "Failed to update cart" |
| CartStore.Store.RemoveFromCart | frontend/app/stores/cart.ts:164-193 | as `AddToCart`, with the fallback "Failed to remove from cart" |
| CartStore.Store.ClearCart | frontend/app/stores/cart.ts:196-219 | a successful request empties the local cart (total `"0.00"`, count 0) whatever the server answered; a failure keeps it and records the error |
| CartStore.Store.QuickAdd | frontend/app/stores/cart.ts:222-228 | the local items become `Bumped` of the old ones by the quantity, 1 when none is given: the optimistic update before the background add |
| CartStore.BumpedItems | frontend/app/stores/cart.ts:223-228 | the optimistic update keeps every item's product, stock and position, raises only the first item for the product by exactly the quantity, and changes nothing when the product has no item |
| CartStore.BumpedQuantity | frontend/app/stores/cart.ts:30-226 | after the optimistic update the first item for the product is still the same one, so `getItemQuantity` reads the raised quantity |
| CartStore.FirstIndexIs | frontend/app/stores/cart.ts:31 | a position holding the product with none before it is exactly the one `find` returns |
| Orders.ShippingRule | backend/orders/views.py:124-133 | without a shipping method an order ships free exactly when the subtotal is above 100 and pays 10 otherwise (100 itself pays); with a method, free only once the subtotal reaches a non-zero `free_from`, its cost otherwise |
| Orders.CheckoutTotals | backend/orders/views.py:121-136 | the tax is 8% of the subtotal and the total is subtotal plus tax plus shipping; with non-negative amounts the total never falls below the subtotal |
| Orders.OrderNumber | backend/orders/models.py:54-57 | an order number is `ORD-` followed by eight upper-case hexadecimal digits, twelve characters in all |
| Orders.NumberStable | backend/orders/models.py:54-57 | saving always leaves a number, keeps a number already given, and saving twice gives the same number as saving once |
| Orders.ConfirmAtMostOnce | backend/orders/models.py:65-176 | the confirmation answers true exactly when not yet sent and the mail went out, then records sent and the time; otherwise nothing changes; after a success a second call answers false and changes nothing |
| Orders.SavedItem | backend/orders/models.py:187-189 | a saved order line's total is its price times its quantity |
| Orders.Order.constructor | backend/orders/models.py:8-47 | a new order is pending, carries the given customer fields and amounts, a fresh order number, no lines and no e-mail sent (with backend/orders/views.py:139-147) |
| Orders.Order.Save | backend/orders/models.py:54-57 | the order number becomes the one saving assigns, so an existing number is kept |
| Orders.Order.FullName | backend/orders/models.py:62-63 | the full name is the first name, one space and the last name |
| Orders.Order.SendConfirmationEmail | backend/orders/models.py:65-176 | the mail flag, its time and the answer are those of the at-most-once confirmation rule |
| Orders.Order.UpdateStatus | backend/orders/views.py:218-230 | the new status is stored, and the status e-mail is due exactly when the status changed |
| Orders.Shop.constructor | backend/orders/views.py:150-167 | the shop starts with the given stock table |
| Orders.StockAfterSpec | backend/orders/views.py:150-167 | placing the items keeps the set of products, never takes a stock below zero, and each product loses exactly its line's quantity when its stock covers it and nothing otherwise |
| Orders.StockAfterExact | backend/orders/views.py:161-164 | each product's stock after the loop is the expected one, line by line |
| Orders.ExpectedSnoc | backend/orders/views.py:161-164 | one more cart line changes only its own product's expected stock, and only when the stock covers it |
| Orders.ItemsForSpec | backend/orders/views.py:150-167 | there is one order line per cart line whose product still exists, at the line's price and quantity, and no line for a deleted product |
| Orders.RejectionCases | backend/orders/views.py:81-119 | an order is created exactly when the cart count is positive, the form is valid and every non-zero method id names an active method; an empty cart is reported first |
| Orders.CreateOrder | backend/orders/views.py:77-181 | a refused request changes neither stock nor cart; an accepted one creates a pending order with the request's names, the checkout amounts, the user's e-mail when none was given, one line per existing product, takes the stock, empties the current cart and leaves every other cart as it was, resets the session summary to zero and reports whether the confirmation went out |
| Orders.PlaceItems | backend/orders/views.py:150-167 | the loop appends exactly the order lines of the specification and leaves exactly the specified stock |
| Accounts.LowerCharIdempotent | backend/config/views.py:31 | lower-casing a character twice is lower-casing it once |
| Accounts.NormalizeEmailIdempotent | backend/config/views.py:31 | normalising an address (lower-case, then strip) twice changes nothing, so a stored address matches itself when typed again |
| Accounts.WithEmail | backend/config/views.py:36 | the accounts with the address are exactly those in the table with it, and there are none exactly when the address is not taken |
| Accounts.WithEmailAppend | backend/config/views.py:36 | one more account adds itself to the lookup's result exactly when it has the address |
| Accounts.ByUsername | backend/config/views.py:44 | an account found by username is in the table with that username; none is found only when no account has it |
| Accounts.ByUsernameFinds | backend/config/views.py:44 | with unique usernames, an account's own username finds that account |
| Accounts.Authenticate | backend/config/views.py:44-46 | an account let in has that username and that password and is active |
| Accounts.LoginOutcomes | backend/config/views.py:26-72 | every refusal is the same 401 text, so an unknown address cannot be told from a wrong password; the caller is let in exactly when one account has the address, the password checks and it is active; several accounts with the address are a lookup error |
| Accounts.LoginIgnoresCaseAndSpaces | backend/config/views.py:31 | signing in depends on the address only through its lower-cased, stripped form |
| Accounts.ReportsNothingIffAcceptable | backend/config/views.py:85-101 | registration reports no field error exactly when the address is given and free, the password has at least 8 characters and both passwords agree |
| Accounts.CandidateInjective | backend/config/views.py:103-108 | different positions give different candidate usernames (base, base1, base2, ...) |
| Accounts.TriedSize | backend/config/views.py:103-108 | the first n candidates are n different names |
| Accounts.TriedBound | backend/config/views.py:106-108 | no more candidates than names in use can all be taken, so the search ends |
| Accounts.FirstFreeUnique | backend/config/views.py:103-108 | there is only one first free candidate |
| Accounts.Accounts.constructor | backend/config/views.py:26-130 | the account table starts with the given users and no signed-in session |
| Accounts.Accounts.Login | backend/config/views.py:26-72 | the answer is the login outcome; a successful sign-in stores the account and a two-week or browser-session expiry, any other outcome leaves the session alone |
| Accounts.Accounts.Validate | backend/config/views.py:85-98 | the error map is filled field by field with exactly the errors the rules report |
| Accounts.Accounts.FreeUsername | backend/config/views.py:103-108 | the loop returns the first candidate no account uses, every earlier candidate being taken |
| Accounts.Accounts.Register | backend/config/views.py:75-130 | a malformed body is refused; a parsed form is refused with exactly the reported errors when it is not acceptable; an acceptable form whose address has nothing before `@` while no account has the empty username ends in a server error (`create_user` refuses an empty username); every other acceptable form is registered; nothing changes unless it is registered; a registration adds one active account with the normalised address, the stripped first name and the first free username, and the session signs in to it |
| Accounts.RegisteredCanLogIn | backend/config/views.py:31-117 | an account just registered signs in with its password and its address typed in any case and with any surrounding spaces |
| Accounts.StoredAddressLogsIn | backend/config/views.py:31-117 | in particular the address as submitted at registration and the stored address both sign in |
| Feedback.Cleaned | backend/feedback/models.py:209-210 | the kept entries are non-empty and already stripped, never more than the parts, and carry no comma when no part did |
| Feedback.StrippedEntry | backend/feedback/models.py:210 | stripping an entry twice is stripping it once and adds no comma |
| Feedback.EmailList | backend/feedback/models.py:209-210 | every recipient returned is non-empty, stripped and free of commas |
| Feedback.CleanedKeeps | backend/feedback/models.py:210 | entries that are already non-empty and stripped are all kept, in order |
| Feedback.EmailListRoundTrip | backend/feedback/models.py:169-210 | writing a list of clean addresses joined by commas and reading it back gives the same list, nothing lost, added or reordered |
| Feedback.AttachmentFilename | backend/feedback/models.py:146-149 | no name gives no file name; otherwise the file name is the part of the stored name after its last '/', the whole name when it has none |
| Feedback.AttachmentExtension | backend/feedback/models.py:152-155 | no name gives no extension; otherwise the extension is empty or a single dot followed by text with no dot and no '/' |
| Feedback.AttachmentKinds | backend/feedback/models.py:142-163 | a message without a file is neither an image nor a PDF, and no file is both |
| Feedback.StemPlain | backend/feedback/models.py:10 | the eight hexadecimal characters of the stored stem hold no '/' and no dot |
| Feedback.FeedbackFilePath | backend/feedback/models.py:7-11 | as written, the path fails exactly when `created_at` is unset; otherwise it is `feedback/<year>/<month>/<8 hex>.<ext>` and keeps the uploaded name's last extension |
| Feedback.FeedbackFilePathFixed | backend/feedback/models.py:7-11 | the corrected path is the same layout, dated by `created_at` or, while it is unset, by the clock, and keeps the uploaded name's extension |
| Feedback.SaveNew | backend/feedback/models.py:61-130 | as written, a new message without a file is stored with the save's time, and every new message with a file fails |
| Feedback.SaveNewFixed | backend/feedback/models.py:7-130 | with the corrected path a new message is dated by the save, stores a path exactly when it has a file, filed under the month of the save |
| Feedback.CheckPrivacy | backend/feedback/serializers.py:50-56 | only an accepted privacy policy passes; a refusal carries the policy message |
| Feedback.ValidatorExtension | backend/feedback/serializers.py:15-17 | the extension checked is the name's suffix without its dot, lower-cased |
| Feedback.CheckAttachment | backend/feedback/serializers.py:11-84 | no file passes; a file passes exactly when it is non-empty, has an allowed extension, weighs at most 10 MB and declares an allowed content type; an empty file and an oversized one are refused with their own errors |
| Feedback.PhonePatternIsRegex | backend/feedback/models.py:40-43 | the search-free reading of the phone pattern accepts exactly the phones the regular expression does |
| Feedback.RemoveAbsent | backend/feedback/serializers.py:88 | removing a character a text does not contain leaves it unchanged |
| Feedback.PatternPassesCharCheck | backend/feedback/models.py:40-43 | the serializer's digits-and-plus check never refuses a phone the model's pattern accepts (with backend/feedback/serializers.py:86-92) |
| Feedback.CheckPhone | backend/feedback/models.py:37-45 | a phone passes, trimmed, exactly when it is empty or fits 20 characters and matches the pattern; the digits-only check never decides (with backend/feedback/serializers.py:86-92) |
| Feedback.ClientIp | backend/feedback/serializers.py:107-114 | with a forwarded-for header the address is one comma-free entry of it; without one it is the peer address, if any |
| Feedback.ClientIpFirstHop | backend/feedback/serializers.py:109-111 | behind proxies the address is the first hop's, trimmed, whatever follows it |
| Feedback.AddRequestMeta | backend/feedback/serializers.py:98-103 | without a request the data is unchanged; with one it gains exactly the client address and the first 500 characters of the user agent and referring page, every other entry kept |
| Feedback.Create | backend/feedback/serializers.py:94-105 | as written, the message data never holds the privacy-policy URL; the request details are added and every other entry is kept |
| Feedback.Submit | backend/feedback/views.py:64-78 | as written, the URL chosen in the view is lost: every message is stored with an empty privacy-policy URL (with backend/feedback/serializers.py:94-96) |
| Feedback.CreateFixed | backend/feedback/serializers.py:94-105 | the corrected `create` keeps the privacy-policy URL, adds the request details and keeps every other entry (with backend/feedback/models.py:74-77) |
| Feedback.SubmitFixed | backend/feedback/views.py:64-78 | with the corrected `create` the message is stored with the URL the view chose (with backend/feedback/models.py:74-77) |
| Feedback.LastDotOfStored | backend/feedback/models.py:152-155 | in a stored path the last dot is the one before the extension |
| Feedback.LastSlashOfStored | backend/feedback/models.py:146-149 | in a stored path the last '/' ends the directory part |
| Feedback.SplitExtAt | backend/feedback/models.py:154 | `splitext` takes the text from the last dot when that dot follows the last '/' and more than dots precede it |
| Feedback.StoredExtension | backend/feedback/models.py:152-155 | the extension read back from a stored path is the one written into it |
| Feedback.UploadExtensionOfAccepted | backend/feedback/models.py:9 | the extension written into the stored path is the one the extension validator accepted (with backend/feedback/serializers.py:15-17) |
| Feedback.StoredHead | backend/feedback/models.py:11 | the directory part of a stored path is non-empty and ends in '/' |
| Feedback.StoredShape | backend/feedback/models.py:7-11 | with the corrected path a stored attachment is the directory part, the eight-character stem, a dot and the extension |
| Feedback.LowerDotted | backend/feedback/models.py:154 | lower-casing a dotted extension lower-cases the text after the dot |
| Feedback.AllowedKinds | backend/feedback/serializers.py:15-17 | every extension the form allows is an image extension or `.pdf` once dotted (with backend/feedback/models.py:158-163) |
| Feedback.AcceptedFileShown | backend/feedback/serializers.py:11-20 | with the corrected path, every file the form accepts is shown as an image or a PDF (with backend/feedback/models.py:7-11, backend/feedback/models.py:158-163) |
| SiteSettings.KeySetSize | backend/site_settings/models.py:13 | with unique keys there are as many keys as settings |
| SiteSettings.GetValue | backend/site_settings/models.py:30-40 | a boolean setting reads as a flag, a number setting as a number (0 when it does not parse), an image setting as a URL present exactly when a file is, and any other type as its stored text |
| SiteSettings.BooleanIgnoresCase | backend/site_settings/models.py:31-32 | a boolean setting ignores case and is true exactly when its lower-cased text is `true`, `1`, `yes` or `on` |
| SiteSettings.NumberValues | backend/site_settings/models.py:33-37 | a number setting holding a whole number reads as that number; text that does not parse reads as 0 |
| SiteSettings.ImageValue | backend/site_settings/models.py:38-39 | an image setting with a file reads as the file's URL under the media root, and any URL it gives lies under that root (with backend/site_settings/serializers.py:41-44) |
| SiteSettings.DetailsByKey | backend/site_settings/views.py:83-130 | the map by key has exactly the settings' keys |
| SiteSettings.EntriesByKey | backend/site_settings/views.py:52-59 | the entries filled by `list` have exactly the settings' keys |
| SiteSettings.DetailsByKeyFind | backend/site_settings/views.py:83-130 | with distinct keys each setting's full representation is found under its own key |
| SiteSettings.EntriesByKeyFind | backend/site_settings/views.py:52-59 | with distinct keys each setting's short entry is found under its own key |
| SiteSettings.KeysOf | backend/site_settings/views.py:33 | the `keys` parameter gives one trimmed, comma-free key per comma-separated part |
| SiteSettings.Queryset | backend/site_settings/views.py:27-40 | the queryset holds exactly the active settings matching the `keys` and `key` parameters, never more than the table, without repeated keys when the table has none |
| SiteSettings.QuerysetOnlyActive | backend/site_settings/views.py:17-40 | only active settings are handed out; without parameters all active ones are; with `key` only that key is |
| SiteSettings.List | backend/site_settings/views.py:42-64 | with `keys` or `key` the answer is the short entries of exactly the selected settings by key; otherwise the full representation of each selected setting, in order |
| SiteSettings.CheckKey | backend/site_settings/serializers.py:50-57 | a key passes exactly when, trimmed, it is not blank and fits 100 characters, and it is stored trimmed |
| SiteSettings.CheckKeys | backend/site_settings/serializers.py:49-53 | a key list passes exactly when every key does, and is stored key by key trimmed |
| SiteSettings.ValidateBulk | backend/site_settings/serializers.py:47-62 | a request naming neither field, or an empty list, is refused; a valid one keeps the fields it was given and asks for a non-empty list or a non-empty key |
| SiteSettings.KeysList | backend/site_settings/serializers.py:64-70 | the keys are the list when given, else the single key, else none |
| SiteSettings.ValidatedAsksForKeys | backend/site_settings/serializers.py:59-70 | a request that passes its checks always asks for at least one key |
| SiteSettings.Wanted | backend/site_settings/views.py:76 | the settings fetched are exactly the active ones whose key is asked for |
| SiteSettings.BulkPartition | backend/site_settings/views.py:75-88 | the keys asked for split into found and not found, disjoint and together the request; `not_found` is absent exactly when everything was found; a key is found exactly when an active setting has it, and the data holds exactly the found keys |
| SiteSettings.BulkView | backend/site_settings/views.py:66-88 | the bulk endpoint refuses exactly the requests that fail their checks and otherwise answers the partition for the request's keys |
| SiteSettings.ActiveWithKey | backend/site_settings/views.py:108 | a setting found is active and has the key; none is found only when no active setting has it |
| SiteSettings.ByKey | backend/site_settings/views.py:90-111 | a missing or empty key is 400, a key without an active setting 404, otherwise the full representation of an active setting with that key |
| SiteSettings.WithPrefix | backend/site_settings/views.py:125 | the settings kept are exactly the active ones whose key starts with the prefix, without repeated keys when the table has none |
| SiteSettings.GroupView | backend/site_settings/views.py:118-123 | a missing or empty prefix is refused, and only then |
| SiteSettings.GroupContents | backend/site_settings/views.py:113-131 | every setting `group` hands out is active and has the prefix, every such setting is handed out under its key, and the count is the number handed out |

## Left out

- File reading by pandas, image downloads by `requests`, and the existence
  checks of `default_storage` are not modelled. Their results are inputs:
  rows per encoding, whether a URL downloads, whether a stored path exists.
  The bytes of a downloaded image are not modelled.
- Sending e-mail is not modelled: order confirmations, admin and
  status-change notices, and feedback notifications. Only whether a mail
  went out is an input, where the code branches on it. The texts and HTML
  of the mails are left out.
- `slugify` (Django's slug rules) is a function parameter, not a definition.
- `float()` is modelled on plain decimal literals only: an optional sign,
  digits and at most one point. Exponents, `inf`, `nan` and underscores
  read as unparsable. This affects `_to_int` in the import and number
  settings.
- `str.isdigit` and `\d` are modelled on the ASCII digits. Python also
  accepts other Unicode digits.
- `lower()` is modelled on the Latin capitals A to Z and the Cyrillic
  capitals U+0400 to U+042F. Other letters keep their case.
- ProductViews.NumberParam: `Decimal()` also reads non-ASCII digits, and
  its whitespace is Python's `str.strip()` set, which the model follows for
  the characters `Text.IsSpace` lists. The model reads other digits as no
  number.
- Accounts.Accounts.Register: `create_user` also fails, with a database
  error, on a username over 150 characters or an address over 254; the view
  checks neither length first. `normalize_username` applies NFKC, so the
  stored name can differ from the candidate whose uniqueness was checked.
  The model checks no length and stores the candidate as it is.
- ProductViews.IntLiteral: `int()` also accepts underscores between digits
  and non-ASCII digits. The model reads those as no number.
- ImportRules.ToDecimal: `Decimal()` also reads `inf`, `Infinity`, `sNaN`
  and a signed `NaN` such as `-nan`, which `_to_decimal` returns. It also
  reads non-ASCII digits. The model reads all of these as no number. A
  price of `inf` makes the row fail when the product is saved, where the
  model stores 0.
- ImportRules.ToInt: only non-negative `<n>,<digits>` stocks have their own
  lemma (`ToIntFraction`). Negative values are covered only by truncation
  toward zero in the contract.
- Field limits are not modelled. These are the `max_length` of
  `Product.name` (200), `Product.sku` (50) and `Category.name` (100), and of
  the log's `sku` (50) and `product_name` (200). Also the
  `max_digits=10, decimal_places=2` of the prices. A row whose SKU has 51
  characters fails when it is saved; the model creates the product.
- ProductModels.Forest: the category operations require the parent links
  to form a forest, witnessed by a ghost rank. The code has no cycle check.
  On a cycle of parent links, `get_full_path`, `get_all_children` and the
  breadcrumbs of `backend/products/views.py` never return. The model does
  not cover that case.
- Decimal values are `real`. Three things are not modelled:
  - the database's rounding to two decimal places;
  - the text form of a Decimal in a response;
  - the `str()`/`Decimal()` round trip of the cart total.
- Database lookups (`icontains`, `startswith`, equality on keys) follow the
  text rules stated in the model. Collation and case-folding beyond the
  letters `lower()` covers are not modelled.
- ProductViews.OrderingOf: the model states which ordering key applies, but
  not the resulting order. The listing keeps table order. Pagination is not
  modelled.
- The category endpoints `list`, `tree`, `flat` and `products` are not
  modelled. Neither are the product actions `featured`, `new_arrivals`,
  `bestsellers`, `by_category` and `related`. Of these views only the
  breadcrumbs, the product listing, `retrieve` and `search` are part of this
  model.
- Permissions, authentication classes, CSRF handling, the HTTP method
  restrictions, `get_csrf`, `logout_view` and `me_view` are not modelled.
- Accounts.Authenticate: passwords are compared as stored text. Hashing is
  not modelled, and neither is the session-key rotation of `login`.
  `create_user` is modelled as adding the account.
- Of the orders endpoints, `my_orders`, `resend_email`, `get_queryset` and
  the payment and shipping method list views are not modelled. The order
  serializer is reduced to a validity flag and the fields the view reads.
- `backend/orders/views.py` imports `PaymentMethod` and `ShippingMethod` and
  stores `shipping_method` on an order, but `backend/orders/models.py`
  defines neither. The model follows the schema the view uses: a shipping
  method with `cost`, `free_from` and `is_active`.
- A cart line's price is `None` only before the line is first saved,
  because the column is NOT NULL (`backend/cart/models.py:56-60`). The model
  keeps `None` for the `total` property. An order line built from such a
  line would get price 0, but a stored cart never holds one.
- Feedback.CheckPhone: reports the first failing check. The REST
  framework collects every field's errors; the other fields' checks are not
  modelled.
- SiteSettings.ValidateBulk: reports one error, where the REST framework
  would list every failing field.
- ImportService.RowFault: one fault per row, so a second failing log write
  in the same row cannot be expressed.
- Of `CartService.get_items`, only the lines are modelled. The dictionary
  it builds for each line (names, image URLs, texts) is left out.
- Of the feedback form, the name, e-mail, message type, subject and message
  field checks are not modelled. Neither are the Telegram settings and the
  other `FeedbackSettings` fields.
- `HomePageSettingsView` is not modelled. It is the `group` query for the
  prefix `home_` plus the `bulk` lookup without its checks.
- Image URLs are the media root followed by the stored name. Storage
  back-ends that build other URLs are not modelled.
- A JSON body that is not an object, and JSON values of the wrong type, are
  not modelled beyond the `JSONDecodeError` branch of the account views.

## Findings

| source | as written | input that shows it | evidently intended | confidence | as-written member | corrected member |
|---|---|---|---|---|---|---|
| backend/cart/views.py:148-164 | For a signed-in user, `CartService` already works on the user's own cart. `merge_with_user` finds that same cart as the user's cart, merges its lines into themselves and then deletes it. | A signed-in user whose cart holds two units of product 7 posts to the merge endpoint. The cart is deleted and the answer is an empty cart. | The user's cart is kept. Only a separate session cart is merged into it, product by product. | not executed | CartViews.MergeView | CartViews.MergeViewFixed |
| backend/feedback/models.py:7-11 | `feedback_file_path` reads `instance.created_at`. The upload path is computed on the first save, before `created_at` (an `auto_now_add` field declared after `attachment`) is filled in. `None.strftime` raises. | A new feedback message submitted with the attachment `scan.pdf`. | The path is dated by the clock while `created_at` is unset, as `import_file_path` in `backend/products/import_models.py:15-18` does. | not executed | Feedback.SaveNew | Feedback.SaveNewFixed |
| backend/feedback/serializers.py:94-96 | The view passes the chosen privacy-policy URL to `serializer.save` (`backend/feedback/views.py:78`), but `create` pops `privacy_policy_url` from the data before writing. The model's `privacy_policy_url` column is always stored empty. | A valid submission that gives `privacy_policy_url` = `https://site.com/privacy/`. The stored message has an empty URL. | The URL chosen for the message is stored in its column. | not executed | Feedback.Submit | Feedback.SubmitFixed |
