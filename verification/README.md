# Smart-Cart backend core, modelled in Dafny

This project models the decision logic of two backends of the Smart-Cart
shop and proves properties of it.

**PHP backend (Slim).** The files cover:

- `GET /products`. Optional filters add predicate fragments with positional
  placeholders `$1`, `$2`, … in a fixed order. The sort column comes from an
  allow-list. A numeric `limit` adds `LIMIT … OFFSET …`.
- `parseJsonFields`, which decodes the four JSONB columns of each fetched row.
- `GET /similar/{id}`: a lookup by id, a 404 when nothing is found, otherwise
  other products of the same category.
- `PUT /cart_items/{id}/update`. It builds a partial `SET` clause from the
  fields present in the body, binds the id last, and answers 400, 404 or 200.

**Flask assistant.** The files cover:

- `normalize_text` and the category keys.
- The category detector: the first category whose key occurs in the input.
- `find_best_match`: the first title match, otherwise the best TF-IDF score
  above 0.3.
- The result loop of `find_similar_products_knn`.
- The reply order of `/ask`: greeting, stock question, category with a price
  bound, price bound below, price bound above, not understood.
- `/similar`, with its 400 for an empty query.
- The `trending_searches` counter, which `/ask` and `/similar` update and
  `/trending` reads through `most_common(10)`.

Files and modules:

| file | module | what it holds |
|---|---|---|
| `wrappers.dfy` | `Wrappers` | `Option` |
| `php_strings.dfy` | `PhpStrings` | integer text, the `(int)` cast, `is_numeric`, `explode`/`implode`, `strtoupper`, `empty` |
| `sql.dfy` | `Sql` | bound values, templates with holes, and `Refs`, the numbers of every `$` followed by digits in a statement; for the quote-free statements of this backend these are exactly the parameters PostgreSQL binds |
| `product_query.dfy` | `ProductQuery` | `GET /products`: the reference `Plan` of filters and the handler's step-by-step construction |
| `rows.dfy` | `Rows` | fetched rows and `parseJsonFields` |
| `similar_products.dfy` | `SimilarProducts` | `GET /similar/{id}` of the PHP backend |
| `cart_update.dfy` | `CartUpdate` | `PUT /cart_items/{id}/update` |
| `text_normalize.dfy` | `TextNormalize` | `lower`, `strip`, `normalize_text`, the category keys |
| `assistant.dfy` | `Assistant` | the category detector, `find_best_match`, the kNN result loop |
| `trending.dfy` | `Trending` | the `Counter` of searches and `most_common` |
| `replies.dfy` | `AssistantReplies` | the replies of `/ask` and `/similar`, given the input |
| `flask_app.dfy` | `FlaskApp` | the three routes over the shared counter |

The Flask handlers depend on outside services: HTTP fetches from the products
API, regular-expression matches, `safe_float`, and the scikit-learn
computations. These enter as the fields of `AssistantReplies.Env`, as
functions of exactly what the code passes them. Database results in the PHP
handlers are method parameters.

## Model

| member | source | states |
|---|---|---|
| PhpStrings.NatToText | slim-backend/public/index.php:124-126 | an integer interpolated into the statement is a non-empty run of digits, with no leading zero except for 0 |
| PhpStrings.IntToText | slim-backend/public/index.php:126 | any integer is written as an optional minus followed by digits |
| PhpStrings.DecimalOfNatToText | slim-backend/public/index.php:77-79 | reading back the digits written for a placeholder number gives that number |
| PhpStrings.ToInt | slim-backend/public/index.php:121-122 | the `(int)` cast always yields a 64-bit integer |
| PhpStrings.IntTextRoundTrip | slim-backend/public/index.php:121-126 | every 64-bit integer, written out and cast back with `(int)`, is unchanged |
| PhpStrings.Upper | slim-backend/public/index.php:119 | `strtoupper` keeps the length and upper-cases each character on its own |
| PhpStrings.Explode | slim-backend/public/index.php:107 | `explode(',', s)` gives at least one piece, and no piece holds a comma |
| PhpStrings.ImplodeExplode | slim-backend/public/index.php:107 | joining the pieces of `explode(',', s)` with commas gives back `s` |
| PhpStrings.ExplodeCount | slim-backend/public/index.php:107-108 | there is exactly one more tag piece than there are commas |
| PhpStrings.IsNumeric | slim-backend/public/index.php:121-122 | a text is numeric exactly when it is an optional sign followed by digits, at least one of them |
| PhpStrings.Empty | slim-backend/public/index.php:76-104 | a parameter that is not empty is present with some text; any text of two or more characters is not empty |
| PhpStrings.Implode | slim-backend/public/index.php:115 | the joined text starts with the first piece, followed by the separator when there are more |
| Sql.Placeholder | slim-backend/public/index.php:77 | `$$i` renders as a `$` followed by the counter |
| Sql.RefsPlaceholder | slim-backend/public/index.php:77 | a placeholder not followed by a digit refers to its own number and nothing more |
| Sql.RefsSkip | slim-backend/public/index.php:115 | fixed text without a `$` adds no reference |
| Sql.RefsRender | slim-backend/public/index.php:76-112 | a rendered fragment refers to its number once per hole, and to nothing else |
| Sql.RefsImplode | slim-backend/public/index.php:115 | fragments joined by `implode` keep their references, in order |
| Sql.ExpandBounds | slim-backend/public/index.php:72-113 | every number referred to is one of the fragments' numbers; when each fragment has a hole, every number is used |
| Sql.ExpandSingles | slim-backend/public/index.php:445-457 | one-hole fragments numbered from `start` refer to `start`, `start + 1`, … once each, in order |
| Sql.NumberedAppend | slim-backend/public/index.php:74-79 | a fragment appended to a numbered list gets the next number |
| ProductQuery.ScalarKind | slim-backend/public/index.php:76-104 | the five single-valued filters are checked in a fixed rank order |
| ProductQuery.TagFilters | slim-backend/public/index.php:106-112 | each tag gives one containment fragment, bound to `json_encode([tag])` |
| ProductQuery.Plan | slim-backend/public/index.php:72-113 | every single-valued fragment is for a requested parameter and binds its value (the search text wrapped in `%`); tag fragments appear only when `tags` is requested and bind a JSON array |
| ProductQuery.WhereSql | slim-backend/public/index.php:115 | the WHERE text is empty exactly when there are no fragments |
| ProductQuery.SortField | slim-backend/public/index.php:117-118 | the ORDER BY column is always on the allow-list; it is the requested one when that is allowed, else `id` |
| ProductQuery.DirectionOf | slim-backend/public/index.php:119 | descending exactly when `order` is given and upper-cases to `DESC`; ascending when it is absent |
| ProductQuery.LimitOf | slim-backend/public/index.php:121 | a limit exactly when `limit` is present and numeric, and then a 64-bit integer |
| ProductQuery.OffsetOf | slim-backend/public/index.php:122 | the offset is a 64-bit integer, and 0 unless `offset` is present and numeric |
| ProductQuery.LimitSql | slim-backend/public/index.php:121-127 | the LIMIT/OFFSET text is absent exactly when `limit` is missing or not numeric |
| ProductQuery.Statement | slim-backend/public/index.php:115-127 | the statement is the SELECT, the WHERE part, then the ORDER BY and LIMIT part |
| ProductQuery.ClausesSnoc | slim-backend/public/index.php:76-79 | emitting a filter appends its fragment, numbered one past the fragments before it, and appends its value |
| ProductQuery.Append | slim-backend/public/index.php:77-79 | the three statements of each filter block keep the fragment list, the value list and the counter in step with the plan |
| ProductQuery.AddIfRequested | slim-backend/public/index.php:76-104 | a single-valued block emits its filter exactly when the parameter is not PHP-empty |
| ProductQuery.BuildScalarFilters | slim-backend/public/index.php:72-104 | the five blocks in order emit exactly the fragments and values of the single-valued part of the plan, with the placeholder counter one past its length |
| ProductQuery.AppendTags | slim-backend/public/index.php:106-113 | the tag loop appends one fragment and one value per tag, in order |
| ProductQuery.BuildFilters | slim-backend/public/index.php:72-113 | the fragment list and the value list are those of the plan |
| ProductQuery.ProductsQuery | slim-backend/public/index.php:72-127 | the statement and values built step by step are `Statement(p)` and the plan's values |
| ProductQuery.PlanOrdered | slim-backend/public/index.php:76-113 | fragments appear in the handler's order of checks; only tag fragments repeat |
| ProductQuery.OrderedUnique | slim-backend/public/index.php:76-104 | each single-valued filter occurs at most once |
| ProductQuery.InScalarPrefix | slim-backend/public/index.php:76-104 | the first m checks emit exactly the requested filters among the first m kinds, each bound to its value |
| ProductQuery.ScalarValue | slim-backend/public/index.php:76-104 | every single-valued filter binds text: the search text wrapped in `%` on both sides, any other filter its parameter as given |
| ProductQuery.ScalarPresence | slim-backend/public/index.php:76-104 | a single-valued filter is in the plan exactly when its parameter is not PHP-empty; the search value is wrapped in `%` |
| ProductQuery.PlanTags | slim-backend/public/index.php:106-112 | with `tags` given, the plan ends with commas + 1 tag fragments, each bound to its own piece |
| ProductQuery.TagsRoundTrip | slim-backend/public/index.php:107-110 | the tag texts bound, joined with commas, give back the `tags` parameter |
| ProductQuery.TemplatesWellFormed | slim-backend/public/index.php:77-109 | no fragment text holds a `$` or a digit that could lengthen a placeholder |
| ProductQuery.TemplateHoles | slim-backend/public/index.php:77-109 | the search fragment uses its placeholder three times and every other fragment uses it once |
| ProductQuery.OrderSqlSafe | slim-backend/public/index.php:117-126 | the ORDER BY and LIMIT text holds no `$` |
| ProductQuery.StatementPlaceholders | slim-backend/public/index.php:115-124 | the statement's placeholders are exactly the fragments' numbers, once per hole, in order |
| ProductQuery.PlaceholdersMatchValues | slim-backend/public/index.php:72-129 | every placeholder has a bound value, and every bound value is referred to |
| ProductQuery.ClausesOfSameKinds | slim-backend/public/index.php:76-113 | the fragment texts depend only on the kinds of the filters, never on the values |
| ProductQuery.StatementOfShape | slim-backend/public/index.php:115-127 | two requests with the same filter kinds, sort, direction and limit get the same statement text |
| ProductQuery.FilterTextNeverReachesStatement | slim-backend/public/index.php:76-104 | changing the text of a requested single-valued filter leaves the statement unchanged |
| ProductQuery.TagTextNeverReachesStatement | slim-backend/public/index.php:106-113 | changing the tags text while keeping its number of commas leaves the statement unchanged |
| ProductQuery.OrderingOfAgreeing | slim-backend/public/index.php:117-122 | sort, direction, limit and offset read only their own parameters |
| ProductQuery.OffsetNeedsLimit | slim-backend/public/index.php:122-127 | without a numeric `limit`, `offset` has no effect on the statement |
| ProductQuery.LimitTextReadsBack | slim-backend/public/index.php:121-126 | the LIMIT and OFFSET numbers written into the statement read back as the integers computed |
| Rows.Decode | slim-backend/public/index.php:37 | on the valid JSON text a jsonb column holds, `json_decode` gives null exactly for the text `null` |
| Rows.LiftRow | slim-backend/public/index.php:132 | a fetched row keeps its columns; SQL NULL becomes PHP null |
| Rows.DecodeField | slim-backend/public/index.php:37 | one iteration rewrites its column with the decoding of the text or of `'null'` and changes nothing else |
| Rows.ParseJsonFields | slim-backend/public/index.php:34-39 | the loop leaves the row `Parsed(row0)`, the four columns decoded in turn |
| Rows.Parsed | slim-backend/public/index.php:34-39 | the decoded row has the original columns plus the four JSONB columns |
| Rows.DecodeFieldsKeys | slim-backend/public/index.php:36-37 | decoding adds exactly the decoded columns to the row |
| Rows.DecodeFieldsOthers | slim-backend/public/index.php:36-37 | a column that is not decoded keeps its value |
| Rows.DecodeFieldsDecoded | slim-backend/public/index.php:36-37 | with distinct columns, each decoded column holds the decoding of its original text |
| Rows.ParsedKeepsOthers | slim-backend/public/index.php:34-39 | the four JSONB columns are always present afterwards; every other column keeps its value |
| Rows.ParsedJsonColumn | slim-backend/public/index.php:35-37 | a missing or NULL JSONB column becomes null; one holding text becomes its decoding |
| Rows.ParseRows | slim-backend/public/index.php:131-135 | every fetched row is decoded and collected, in fetch order |
| CartUpdate.Plan | slim-backend/public/index.php:447-457 | a field is assigned exactly when it is set (present and not null) |
| CartUpdate.AssignmentsAppend | slim-backend/public/index.php:447-457 | assigning one more field appends its assignment, numbered after the others |
| CartUpdate.PlanValuesAppend | slim-backend/public/index.php:449-455 | assigning one more field appends its cast value |
| CartUpdate.BuildAssignments | slim-backend/public/index.php:443-457 | the SET list and the cast values are those of `Plan(body)`, and the counter is one past the last placeholder |
| CartUpdate.PrepareUpdate | slim-backend/public/index.php:434-460 | nothing to update exactly when neither field is set; otherwise the statement is `UpdateSql(Plan(body))` with the assignments' values and the id |
| CartUpdate.UpdateSql | slim-backend/public/index.php:461 | the statement starts with `UPDATE cart_items SET ` and ends with the RETURNING list |
| CartUpdate.UpdateValues | slim-backend/public/index.php:443-460 | one value per set field, then the id as the last value |
| CartUpdate.PlanCases | slim-backend/public/index.php:443-459 | the three possible SET lists, with their values, `$1`/`$2` numbering and the id last |
| CartUpdate.PlanOrder | slim-backend/public/index.php:447-457 | the quantity is assigned before the price; a prepared update assigns at least one |
| CartUpdate.ValuesMatchAssignments | slim-backend/public/index.php:447-459 | there is one more value than assignments, value k belongs to assignment k, and the id is last |
| CartUpdate.ColumnTemplateShape | slim-backend/public/index.php:448-454 | each assignment uses its placeholder once and holds no other `$` |
| CartUpdate.ReturningSafe | slim-backend/public/index.php:460 | the RETURNING list holds no `$` |
| CartUpdate.UpdateTailRefs | slim-backend/public/index.php:460 | the WHERE and RETURNING part refers only to the id's placeholder |
| CartUpdate.RefsOfUpdate | slim-backend/public/index.php:460 | the statement over one-hole assignments refers to `$1` … `$n` once each, in order |
| CartUpdate.UpdatePlaceholders | slim-backend/public/index.php:443-460 | the statement refers to `$1` … `$n`, once each and in order, where n is the number of bound values |
| CartUpdate.Project | slim-backend/public/index.php:465-473 | the integer columns are 64-bit integers; the price is set exactly when the column is, and then `(float)` of its text |
| CartUpdate.ProjectRoundTrip | slim-backend/public/index.php:465-473 | integer columns that hold 64-bit numbers are projected as those numbers |
| CartUpdate.UpdateCartItem | slim-backend/public/index.php:433-481 | 400 exactly when neither field is set, and then nothing is prepared; otherwise the prepared statement is `UpdateSql(Plan(body))` with `UpdateValues`, and 404 exactly when it returns no row, else 200 with the projected row |
| SimilarProducts.LookupSql | slim-backend/public/index.php:223 | the lookup statement is `SELECT * FROM products WHERE id = $1` |
| SimilarProducts.SimilarSql | slim-backend/public/index.php:234 | the category statement is `SELECT * FROM products WHERE id != $1 AND category = $2 LIMIT 10` |
| SimilarProducts.Missing | slim-backend/public/index.php:226 | `!$product` holds unless a row came back with at least one column |
| SimilarProducts.CategoryParam | slim-backend/public/index.php:231-235 | the category binds as its text, or as null exactly when the column is missing or SQL NULL |
| SimilarProducts.SimilarTo | slim-backend/public/index.php:218-247 | the lookup runs `LookupSql()` bound to the cast id; 404 exactly when no product is found; otherwise the category statement, bound to the id and the category, and every fetched row decoded |
| SimilarProducts.LookupPlaceholders | slim-backend/public/index.php:223 | the lookup refers to `$1` only |
| SimilarProducts.CategoryTailPlaceholders | slim-backend/public/index.php:234 | the end of the category statement refers only to its category placeholder |
| SimilarProducts.SimilarStatementPlaceholders | slim-backend/public/index.php:234 | the category statement refers to its id placeholder, then to its category placeholder |
| SimilarProducts.SimilarPlaceholders | slim-backend/public/index.php:234-235 | the category statement refers to `$1` (the id, which excludes the product itself) and then `$2` (its category), one per bound value |
| TextNormalize.Lower | flask-backend/app.py:95 | `lower()` keeps the length and lowers each character on its own |
| TextNormalize.SkipRun | flask-backend/app.py:95 | a run outside `[a-z0-9]` is dropped entirely, up to the next kept character |
| TextNormalize.Strip | flask-backend/app.py:95 | the stripped text neither starts nor ends with white space |
| TextNormalize.KeepAlnum | flask-backend/app.py:25 | only `[a-z0-9]` characters remain |
| TextNormalize.CategoryKey | flask-backend/app.py:25 | a category key holds only `[a-z0-9]` |
| TextNormalize.SquashShape | flask-backend/app.py:95 | after the substitution the text holds only `[a-z0-9]` and single blanks |
| TextNormalize.Squash | flask-backend/app.py:95 | the substitution never lengthens the text and leaves only `[a-z0-9]` and blanks |
| TextNormalize.RemoveBlanks | flask-backend/app.py:127 | `.replace(" ", "")` never lengthens the text, leaves no blank, and changes nothing in text without blanks |
| TextNormalize.StripNormal | flask-backend/app.py:95 | stripping such text leaves no blank at either end |
| TextNormalize.NormalizeText | flask-backend/app.py:94-95 | `normalize_text` returns `[a-z0-9]` words separated by single blanks, with no blank at either end |
| TextNormalize.SquashFixed | flask-backend/app.py:95 | the substitution leaves text in that shape unchanged |
| TextNormalize.LowerFixed | flask-backend/app.py:95 | `lower()` leaves such text unchanged |
| TextNormalize.StripFixed | flask-backend/app.py:95 | `strip()` leaves unchanged text that starts and ends with a kept character |
| TextNormalize.NormalFixed | flask-backend/app.py:94-95 | `normalize_text` leaves normal text unchanged |
| TextNormalize.NormalizeTextIdempotent | flask-backend/app.py:94-95 | `normalize_text` is idempotent |
| TextNormalize.RemoveBlanksOfSquash | flask-backend/app.py:95 | the substituted text without its blanks is the input's `[a-z0-9]` characters |
| TextNormalize.RemoveBlanksOfTrim | flask-backend/app.py:95 | stripping drops only blanks |
| TextNormalize.SquashedInput | flask-backend/app.py:124-127 | the normalised input without blanks is the input's own lower-cased `[a-z0-9]` characters |
| TextNormalize.KeyOfPrefixed | flask-backend/app.py:25 | letters and digits in front of a category name go through to its key unchanged |
| Assistant.ContainsAt | flask-backend/app.py:127 | `pattern in text` holds when the pattern occurs at some position |
| Assistant.Contains | flask-backend/app.py:127 | Python's `in`: when it holds, the pattern occurs at some index of the text (`ContainsAt` gives the converse) |
| Assistant.Product.InStock | flask-backend/app.py:139 | a positive stock count or the status "In Stock" means in stock; with neither field present the product is not in stock |
| Assistant.FirstCategoryFrom | flask-backend/app.py:126-129 | a category found is one of the list, and its key occurs in the input |
| Assistant.MatchedCategory | flask-backend/app.py:124-129 | a matched category is one of the 24 listed, and its key occurs in the input without blanks |
| Assistant.MatchCategory | flask-backend/app.py:124-129 | the loop returns the first category, in list order, whose key occurs in the input without blanks |
| Assistant.FirstCategoryFromSpec | flask-backend/app.py:126-129 | no match exactly when no key occurs; a match is the earliest category whose key occurs |
| Assistant.MatchedCategorySpec | flask-backend/app.py:124-129 | the same, stated over the input's own `[a-z0-9]` characters |
| Assistant.WomensShoesKey | flask-backend/app.py:25 | the key of `womens-shoes` is `wo` followed by the key of `mens-shoes` |
| Assistant.WomensShoesMatchMensShoes | flask-backend/app.py:124-129 | an input naming women's shoes is matched to `mens-shoes` |
| Assistant.WomensShoesNeverMatched | flask-backend/app.py:16-22 | `womens-shoes` is never the matched category, whatever the input |
| Assistant.FirstTitleFrom | flask-backend/app.py:77-79 | a title match found is an index of the products |
| Assistant.FirstTitleFromSpec | flask-backend/app.py:76-79 | no title match exactly when no lower-cased title contains the lower-cased name; otherwise the first that does |
| Assistant.ArgMax | flask-backend/app.py:87-88 | `argmax` picks an index holding the largest score, the first of equal ones |
| Assistant.Fallback | flask-backend/app.py:87-91 | the fallback returns an index of the products |
| Assistant.BestMatch | flask-backend/app.py:73-91 | no products gives None; a product returned is one of the list |
| Assistant.BestMatchSpec | flask-backend/app.py:73-91 | no products gives None; the first title match wins; without one, a product is returned exactly when some score is above 0.3, and it is the first highest-scoring one |
| Assistant.FindBestMatch | flask-backend/app.py:73-91 | the loop and the fallback return `BestMatch` |
| Assistant.Others | flask-backend/app.py:212-215 | the candidates kept are products of the list and never the target |
| Assistant.KnnNeighbours | flask-backend/app.py:192-219 | an empty target or list gives nothing; with k ≥ 1 the result is the first k candidates other than the target, nearest first |
| Assistant.Take | flask-backend/app.py:216-217 | the first n, or all when there are fewer |
| Trending.Entries | flask-backend/app.py:252 | the counter's entries, in insertion order, with their counts |
| Trending.Take | flask-backend/app.py:252 | `most_common(n)` keeps the first n sorted entries |
| Trending.InsertDescPermutes | flask-backend/app.py:252 | inserting an entry adds exactly that entry |
| Trending.InsertDesc | flask-backend/app.py:252 | inserting into the sorted list adds one entry |
| Trending.SortDesc | flask-backend/app.py:252 | the sort `most_common` applies keeps the number of entries |
| Trending.InsertDescSorted | flask-backend/app.py:252 | inserting into a list sorted by count keeps it sorted |
| Trending.SortDescSpec | flask-backend/app.py:252 | the stable sort orders by count, largest first, and is a permutation |
| Trending.SortDescStable | flask-backend/app.py:252 | the sort is stable: the entries of any one count keep their order |
| Trending.SortedEntries | flask-backend/app.py:252 | the sorted entries are the counter's entries rearranged, with none lost |
| Trending.MostCommonCounts | flask-backend/app.py:252-256 | every listed entry carries the count the counter holds for its query |
| Trending.MostCommonIsTop | flask-backend/app.py:252 | no query left out has a larger count than one listed |
| Trending.MostCommonSpec | flask-backend/app.py:251-256 | at most n entries, counts never rising, true counts, and none left out counted more |
| Trending.MostCommon | flask-backend/app.py:252 | `most_common(n)` lists the smaller of n and the number of queries, counts never rising |
| Trending.MostCommonStable | flask-backend/app.py:252 | among equal counts, the listed queries come in the order they were first counted |
| Trending.Increment | flask-backend/app.py:111 | `counter[q] += 1`: q gains one, starting from 0, and every other query keeps its count |
| Trending.SearchCounter.constructor | flask-backend/app.py:26 | the counter starts empty |
| Trending.SearchCounter.Add | flask-backend/app.py:229 | the counts become `Increment(old counts, q)`; a new query goes last in the insertion order |
| Trending.SearchCounter.Top | flask-backend/app.py:251-252 | at most n entries, each with the count the counter holds for its query |
| AssistantReplies.Titles | flask-backend/app.py:81 | one lower-cased title per product, in order |
| AssistantReplies.Lookup | flask-backend/app.py:134-135 | the product found for a name is one that the title search returned |
| AssistantReplies.PricedBelow | flask-backend/app.py:152 | the products kept are exactly those priced below the bound |
| AssistantReplies.PricedAbove | flask-backend/app.py:159 | the products kept are exactly those priced above the bound |
| AssistantReplies.Answer.Status | flask-backend/app.py:140-146 | only the reply that would raise a KeyError on a missing title is a 500 |
| AssistantReplies.RepliesTo | flask-backend/app.py:113-189 | a greeting is always greeted; a 500 arises only on a stock question; with no greeting, stock question, category or price bound the input is not understood |
| AssistantReplies.IsGreeting | flask-backend/app.py:113 | the input is a greeting exactly when it is `hi`, `hello` or `hey` |
| AssistantReplies.Replies | flask-backend/app.py:113-189 | the dispatch with the category matched by lines 124-129: a greeting is greeted, and a category reply always names one of the listed categories |
| AssistantReplies.RepliesUnique | flask-backend/app.py:113-189 | the reply order determines the reply: no two different replies fit one input |
| AssistantReplies.AnswerStock | flask-backend/app.py:131-146 | a stock question is answered from the product found for the stripped name, with line 139's in-stock test |
| AssistantReplies.AnswerCategory | flask-backend/app.py:148-169 | a category reply is filtered by the "below" bound if present, else by the "above" bound, else not at all |
| AssistantReplies.AnswerPrice | flask-backend/app.py:171-189 | without a category, all products under the "below" bound, else over the "above" bound, else not understood |
| AssistantReplies.Respond | flask-backend/app.py:113-189 | the reply follows the order: greeting, stock question, category, below, above, not understood |
| AssistantReplies.SimilarAnswer.Status | flask-backend/app.py:226-246 | 400 exactly for the missing title; 500 exactly for a found product without a title |
| AssistantReplies.SimilarOf | flask-backend/app.py:239 | at most five similar products, none of them the target, all taken from the list fetched for its category |
| AssistantReplies.FindsSimilar | flask-backend/app.py:231-246 | never a 400; a reply with products lists at most five, not the target, and the target came from the title search |
| AssistantReplies.FindsSimilarUnique | flask-backend/app.py:231-246 | the reply to `/similar` is determined by the query |
| AssistantReplies.FindSimilar | flask-backend/app.py:231-246 | no product found gives `NoProduct`; otherwise the kNN neighbours of the found product within its category |
| FlaskApp.UserInput | flask-backend/app.py:108 | the input has the length of the stripped query and no white space at either end |
| FlaskApp.Ask | flask-backend/app.py:105-189 | a non-empty stripped, lower-cased input is counted once, going last in the insertion order when new; an empty one is not counted; the reply is the one the order determines |
| FlaskApp.Similar | flask-backend/app.py:222-246 | 400 exactly when the stripped query is empty, with nothing counted; otherwise the lower-cased query is counted, going last in the insertion order when new, then answered |
| FlaskApp.TrendingSearches | flask-backend/app.py:249-257 | at most ten entries, counts never rising, each with its true count, and no query left out counted more often than one listed |

## Left out

- HTTP plumbing is not modelled: routing, CORS headers, JSON encoding of replies, status headers and the answer texts of the assistant. The reply data and the `yes`/`no` flags are kept.
- The 404 reply of the cart update is returned without the JSON content type (index.php line 477), although every other reply sets it. Headers are not part of the model.
- Database access is given as parameters: connections, query execution and the rows fetched. A failing statement is not modelled.
- `pg_fetch_assoc` column order is not kept: a row is a map, so PHP's key order in the JSON output is lost.
- `json_encode` and `json_decode` are symbolic. `json_decode` is interpreted only on the literal `null`, and jsonb columns are taken to hold valid JSON text; PHP also gives null for invalid JSON. A request body that is not a JSON object is treated as an empty map.
- `PhpStrings.ToInt`: covers `(int)` only for an optional sign and decimal digits. Leading and trailing blanks, decimal fractions and exponents are not modelled.
- `PhpStrings.IsNumeric`: accepts only an optional sign and decimal digits. PHP 8's `is_numeric` also accepts leading and trailing blanks, decimal fractions and exponents, so `limit=2.5` yields `LIMIT 2` and `limit=%2010` or `limit=10%20` yield `LIMIT 10` in PHP, but the model emits no LIMIT for them (`ProductQuery.LimitOf`).
- The casts of the cart update are kept symbolic: `(int)` of the quantity is the bound value `CastToInt` and `(float)` of the price is `CastToFloat`; neither is evaluated.
- `TextNormalize.Lower`: changes ASCII letters only, while Python's `lower()` covers all of Unicode.
- `PhpStrings.Upper`: changes ASCII letters only, as `strtoupper` does since PHP 8.2.
- The regular expressions of `/ask` are fields of `Env`, not modelled pattern matchers: the stock question and the numbers after "below" and "above".
- `fetch_products_by_title`, `fetch_products_by_category` and `fetch_all_products` are fields of `Env`. Their HTTP requests and their fallback to an empty list on errors are not modelled.
- `safe_float` is the field `Env.price`, and prices are reals rather than IEEE doubles.
- The 0.3 threshold is compared as a real number.
- The TF-IDF vectoriser, the cosine similarity and the kNN search are `Env.similarities` and `Env.neighbours`.
- scikit-learn raises an error when a category has fewer than six products, because `n_neighbors` is k + 1. That error is not modelled.
- `Assistant.KnnNeighbours`: bounds the result by k only for k ≥ 1. With k = 0 the loop still keeps one candidate, because it tests the count after appending. The routes always pass k = 5.
- `Assistant.FindBestMatch`: a product is a map of optional fields, so a `title` that is present but JSON null cannot be represented. In Python, `p.get('title', '')` then returns None and `.lower()` raises at lines 78 and 81, a 500; the model matches such a product against the empty title.
- `AssistantReplies.AnswerStock`: likewise, an `availabilitystatus` that is present but null makes `.lower()` raise at line 138, a 500; the model reads it as the empty text.
- `AssistantReplies.FindSimilar`: a found product whose `category` is present but null gets `None` from `.get("category", "")` at line 237, so Python fetches `?category=None` (line 53) and shows `None` in the answer (line 242); the model fetches and shows the empty category instead.
- Array-valued query parameters of `GET /products` (`tags[]=a`) are not modelled: every parameter is one text. In PHP such a value makes `explode` throw, a 500.
- `int(stock)` of a stock value that is not an integer raises in Python. Stock is modelled as an optional integer, so that failure is not modelled.
- A request whose "query" is not a string is not modelled. The query is the text of that key, or empty when the key is absent.
- `FlaskApp.Ask`: counts the input and computes the reply. The order of the two cannot be observed, so the contract does not state it.
- Concurrent requests sharing `trending_searches` are not modelled.
- The other PHP routes are not part of this model: `/favicon.ico`, `/product/{id}`, `/categories`, `/category/{id}`, `/trending`, the three review routes, `/imagecarousel`, `/todays-sales`, the two `cart_items` listings, the cart delete and `/`.
- The Fiber backend is not part of this model.
