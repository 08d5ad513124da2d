/**
 * The replies of the `/ask` and `/similar` routes of the Flask assistant
 * (flask-backend/app.py lines 113-189 and 231-246), given the input once
 * it has been counted.
 *
 * Everything a reply depends on from outside is part of an `Env`: the
 * regular expressions the input is matched against, the products API, the
 * price conversion and the two scikit-learn computations.
 */
module AssistantReplies {
  import opened Wrappers
  import opened TextNormalize
  import opened Assistant

  /** What the handlers get from outside, as functions of what the code passes them. */
  datatype Env = Env(
    stockQuestion: string -> Option<string>,   // group 1 of the stock pattern of line 131
    priceBelow: string -> Option<real>,        // the number after "below", "under", ... (lines 119, 121)
    priceAbove: string -> Option<real>,        // the number after "above", "over", ... (lines 120, 122)
    byTitle: string -> seq<Product>,           // fetch_products_by_title (lines 62-70)
    byCategory: string -> seq<Product>,        // fetch_products_by_category (lines 51-59)
    all: seq<Product>,                         // fetch_all_products (lines 41-48)
    price: Product -> real,                    // safe_float(p.get("price")) (lines 98-102)
    similarities: (string, seq<string>) -> seq<real>, // TF-IDF cosine similarities (lines 82-86)
    neighbours: (Product, seq<Product>, nat) -> seq<nat>) // kNN indices, nearest first (lines 196-210)
  {
    /** One similarity per title, and neighbour indices within the products searched. */
    ghost predicate Valid() {
      && (forall q, ts :: |similarities(q, ts)| == |ts|)
      && (forall t, ps, k, i :: 0 <= i < |neighbours(t, ps, k)| ==> neighbours(t, ps, k)[i] < |ps|)
    }
  }

  /** Line 81: the lower-cased titles the TF-IDF comparison works on. */
  function Titles(products: seq<Product>): (ts: seq<string>)
    ensures |ts| == |products|
    ensures forall i :: 0 <= i < |products| ==> ts[i] == Lower(products[i].Title())
  {
    seq(|products|, i requires 0 <= i < |products| => Lower(products[i].Title()))
  }

  /** `find_best_match(name, fetch_products_by_title(name))` (lines 134-135, 231-232). */
  function Lookup(env: Env, name: string): (r: Option<Product>)
    requires env.Valid()
    ensures r.Some? ==> r.value in env.byTitle(name)
  {
    var found := env.byTitle(name);
    BestMatch(name, found, env.similarities(Lower(name), Titles(found)))
  }

  /** The products priced below `bound`, in their order (lines 152, 173). */
  function PricedBelow(ps: seq<Product>, price: Product -> real, bound: real): (r: seq<Product>)
    ensures forall p :: p in r <==> p in ps && price(p) < bound
    ensures |r| <= |ps|
  {
    if ps == [] then []
    else (if price(ps[0]) < bound then [ps[0]] else []) + PricedBelow(ps[1..], price, bound)
  }

  /** The products priced above `bound`, in their order (lines 159, 182). */
  function PricedAbove(ps: seq<Product>, price: Product -> real, bound: real): (r: seq<Product>)
    ensures forall p :: p in r <==> p in ps && price(p) > bound
    ensures |r| <= |ps|
  {
    if ps == [] then []
    else (if price(ps[0]) > bound then [ps[0]] else []) + PricedAbove(ps[1..], price, bound)
  }

  /** The replies of `/ask`; the answer texts are left out, the data and the `yes`/`no` flag are kept. */
  datatype Answer =
    | Greeting                                                    // lines 113-117
    | StockReply(product: Product, inStock: bool)                 // lines 136-145
    | NoStockMatch(name: string)                                  // line 146
    | CategoryBelow(category: string, bound: real, products: seq<Product>) // lines 151-157
    | CategoryAbove(category: string, bound: real, products: seq<Product>) // lines 158-164
    | CategoryAll(category: string, products: seq<Product>)       // lines 165-169
    | Below(bound: real, products: seq<Product>)                  // lines 171-178
    | Above(bound: real, products: seq<Product>)                  // lines 180-187
    | NotUnderstood                                               // line 189
    | ServerError                                                 // `best_product["title"]` with no title
  {
    function Status(): (code: nat)
      ensures code == 500 <==> this.ServerError?
      ensures code == 200 || code == 500
    {
      if ServerError? then 500 else 200
    }

    /** The reply's `yes` flag; every other successful reply carries `no`. */
    predicate Yes()
      requires !ServerError?
    {
      match this
      case StockReply(_, inStock) => inStock
      case NoStockMatch(_) => false
      case NotUnderstood => false
      case _ => true
    }
  }

  /** Line 113: the input is one of the three listed greetings. */
  function IsGreeting(input: string): (r: bool)
    ensures r <==> input == "hi" || input == "hello" || input == "hey"
  {
    input in ["hi", "hello", "hey"]
  }

  /**
   * Lines 113-189: the reply to an input, `category` being the category
   * matched for it (`MatchedCategory(NormalizeText(input))`, lines 124-129).
   * Replies are tried in this order: a greeting, a stock question, a category
   * (with a price bound below, above or none), a price bound below, a price
   * bound above; anything else is not understood.
   */
  ghost function RepliesTo(env: Env, input: string, category: Option<string>, answer: Answer): (r: bool)
    requires env.Valid()
    ensures r && IsGreeting(input) ==> answer == Greeting
    ensures r && answer.Status() == 500 ==> !IsGreeting(input) && env.stockQuestion(input).Some?
    ensures r && !IsGreeting(input) && env.stockQuestion(input).None? && category.None?
            && env.priceBelow(input).None? && env.priceAbove(input).None? ==>
              answer == NotUnderstood
  {
    var stock := env.stockQuestion(input);
    var below := env.priceBelow(input);
    var above := env.priceAbove(input);
    && (answer.Greeting? <==> IsGreeting(input))
    && (answer.StockReply? || answer.NoStockMatch? || answer.ServerError? <==> !IsGreeting(input) && stock.Some?)
    && (answer.StockReply? ==>
          Lookup(env, Strip(stock.value)) == Some(answer.product) && !answer.product.IsEmpty()
          && answer.product.title.Some? && answer.inStock == answer.product.InStock())
    && (answer.NoStockMatch? ==>
          answer.name == Strip(stock.value)
          && (Lookup(env, answer.name).None? || Lookup(env, answer.name).value.IsEmpty()))
    && (answer.ServerError? ==>
          Lookup(env, Strip(stock.value)).Some? && !Lookup(env, Strip(stock.value)).value.IsEmpty()
          && Lookup(env, Strip(stock.value)).value.title.None?)
    && (answer.CategoryBelow? || answer.CategoryAbove? || answer.CategoryAll? <==>
          !IsGreeting(input) && stock.None? && category.Some?)
    && (answer.CategoryBelow? || answer.CategoryAbove? || answer.CategoryAll? ==> answer.category == category.value)
    && (answer.CategoryBelow? <==> !IsGreeting(input) && stock.None? && category.Some? && below.Some?)
    && (answer.CategoryAbove? <==> !IsGreeting(input) && stock.None? && category.Some? && below.None? && above.Some?)
    && (answer.CategoryBelow? ==>
          answer.bound == below.value && answer.products == PricedBelow(env.byCategory(answer.category), env.price, answer.bound))
    && (answer.CategoryAbove? ==>
          answer.bound == above.value && answer.products == PricedAbove(env.byCategory(answer.category), env.price, answer.bound))
    && (answer.CategoryAll? ==> answer.products == env.byCategory(answer.category))
    && (answer.Below? <==> !IsGreeting(input) && stock.None? && category.None? && below.Some?)
    && (answer.Below? ==> answer.bound == below.value && answer.products == PricedBelow(env.all, env.price, answer.bound))
    && (answer.Above? <==> !IsGreeting(input) && stock.None? && category.None? && below.None? && above.Some?)
    && (answer.Above? ==> answer.bound == above.value && answer.products == PricedAbove(env.all, env.price, answer.bound))
  }

  /** Lines 113-189 with the category matched for the input by lines 124-129. */
  ghost function Replies(env: Env, input: string, answer: Answer): (r: bool)
    requires env.Valid()
    ensures r && IsGreeting(input) ==> answer == Greeting
    ensures r && (answer.CategoryBelow? || answer.CategoryAbove? || answer.CategoryAll?) ==>
              answer.category in AllCategories
  {
    RepliesTo(env, input, MatchedCategory(NormalizeText(input)), answer)
  }

  /** The reply is determined by the input: no two different replies satisfy the dispatch order. */
  lemma RepliesUnique(env: Env, input: string, category: Option<string>, a: Answer, b: Answer)
    requires env.Valid() && RepliesTo(env, input, category, a) && RepliesTo(env, input, category, b)
    ensures a == b
  {
  }

  /** Lines 131-146: a stock question is answered from the product found by its title. */
  method AnswerStock(env: Env, input: string, category: Option<string>) returns (answer: Answer)
    requires env.Valid() && !IsGreeting(input) && env.stockQuestion(input).Some?
    ensures RepliesTo(env, input, category, answer)
  {
    var name := Strip(env.stockQuestion(input).value);
    var found := env.byTitle(name);
    var best := FindBestMatch(name, found, env.similarities(Lower(name), Titles(found)));
    if best.Some? && !best.value.IsEmpty() {
      if best.value.title.None? {
        return ServerError;
      }
      return StockReply(best.value, best.value.InStock());
    }
    return NoStockMatch(name);
  }

  /** Lines 148-169: the products of the matched category, filtered by the first price bound found. */
  method AnswerCategory(env: Env, input: string, category: string) returns (answer: Answer)
    requires env.Valid() && !IsGreeting(input) && env.stockQuestion(input).None?
    ensures RepliesTo(env, input, Some(category), answer)
  {
    var below := env.priceBelow(input);
    var above := env.priceAbove(input);
    var products := env.byCategory(category);
    if below.Some? {
      return CategoryBelow(category, below.value, PricedBelow(products, env.price, below.value));
    }
    if above.Some? {
      return CategoryAbove(category, above.value, PricedAbove(products, env.price, above.value));
    }
    return CategoryAll(category, products);
  }

  /** Lines 171-189: all products filtered by the first price bound found, or no answer. */
  method AnswerPrice(env: Env, input: string) returns (answer: Answer)
    requires env.Valid() && !IsGreeting(input) && env.stockQuestion(input).None?
    ensures RepliesTo(env, input, None, answer)
  {
    var below := env.priceBelow(input);
    var above := env.priceAbove(input);
    if below.Some? {
      return Below(below.value, PricedBelow(env.all, env.price, below.value));
    }
    if above.Some? {
      return Above(above.value, PricedAbove(env.all, env.price, above.value));
    }
    return NotUnderstood;
  }

  /** Lines 113-189 after the input has been counted. */
  method Respond(env: Env, input: string) returns (answer: Answer)
    requires env.Valid()
    ensures Replies(env, input, answer)
  {
    if IsGreeting(input) {
      return Greeting;
    }
    var matched := MatchCategory(NormalizeText(input), AllCategories);
    if env.stockQuestion(input).Some? {
      answer := AnswerStock(env, input, matched);
    } else if matched.Some? {
      answer := AnswerCategory(env, input, matched.value);
    } else {
      answer := AnswerPrice(env, input);
    }
  }

  /** The replies of `/similar`. */
  datatype SimilarAnswer =
    | MissingTitle                                                // lines 226-227
    | NoProduct(query: string)                                    // lines 234-235
    | SimilarFound(target: Product, category: string, similar: seq<Product>) // lines 237-246
    | Failed                                                      // `target_product["title"]` with no title
  {
    function Status(): (code: nat)
      ensures code == 400 <==> this.MissingTitle?
      ensures code == 500 <==> this.Failed?
      ensures code == 200 <==> this.NoProduct? || this.SimilarFound?
    {
      match this
      case MissingTitle => 400
      case Failed => 500
      case _ => 200
    }
  }

  /** The result of `find_similar_products_knn(target, products, k=5)`. */
  function SimilarOf(env: Env, target: Product, products: seq<Product>): (r: seq<Product>)
    requires env.Valid()
    ensures |r| <= 5
    ensures forall p :: p in r ==> p != target && p in products
  {
    if target.IsEmpty() || products == [] then []
    else Take(Others(target, products, env.neighbours(target, products, 5)), 5)
  }

  /** Lines 231-246: the reply to a query that is not empty once stripped. */
  ghost function FindsSimilar(env: Env, productQuery: string, answer: SimilarAnswer): (r: bool)
    requires env.Valid()
    ensures r ==> answer.Status() != 400
    ensures r && answer.SimilarFound? ==>
              |answer.similar| <= 5 && answer.target !in answer.similar && answer.target in env.byTitle(productQuery)
  {
    var target := Lookup(env, productQuery);
    && !answer.MissingTitle?
    && (answer.NoProduct? <==> target.None? || target.value.IsEmpty())
    && (answer.NoProduct? ==> answer.query == productQuery)
    && (answer.Failed? ==> target.Some? && !target.value.IsEmpty() && target.value.title.None?)
    && (answer.SimilarFound? ==>
          target == Some(answer.target) && !answer.target.IsEmpty() && answer.target.title.Some?
          && answer.category == answer.target.Category()
          && answer.similar == SimilarOf(env, answer.target, env.byCategory(answer.category)))
  }

  /** The reply is determined by the query. */
  lemma FindsSimilarUnique(env: Env, productQuery: string, a: SimilarAnswer, b: SimilarAnswer)
    requires env.Valid() && FindsSimilar(env, productQuery, a) && FindsSimilar(env, productQuery, b)
    ensures a == b
  {
  }

  /** Lines 231-246. */
  method FindSimilar(env: Env, productQuery: string) returns (answer: SimilarAnswer)
    requires env.Valid()
    ensures FindsSimilar(env, productQuery, answer)
  {
    var found := env.byTitle(productQuery);
    var target := FindBestMatch(productQuery, found, env.similarities(Lower(productQuery), Titles(found)));
    if target.None? || target.value.IsEmpty() {
      return NoProduct(productQuery);
    }
    var category := target.value.Category();
    var products := env.byCategory(category);
    var similar := KnnNeighbours(target.value, products, env.neighbours(target.value, products, 5), 5);
    if target.value.title.None? {
      return Failed;
    }
    return SimilarFound(target.value, category, similar);
  }
}
