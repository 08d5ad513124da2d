/**
 * The decision procedures of the Flask assistant (flask-backend/app.py):
 * the category detector (lines 16-25, 124-129), `find_best_match`
 * (lines 73-91) and the result loop of `find_similar_products_knn`
 * (lines 212-217).
 *
 * What these get from outside is given as parameters: the TF-IDF cosine
 * similarities of `find_best_match` and the neighbour indices of the kNN
 * search.
 */
module Assistant {
  import opened Wrappers
  import opened TextNormalize

  /** Lines 16-22, in their order. */
  const AllCategories: seq<string> := [
    "mens-shoes", "groceries", "motorcycle", "home-decoration", "womens-bags",
    "sunglasses", "furniture", "beauty", "mobile-accessories", "laptops",
    "womens-watches", "tablets", "womens-shoes", "sports-accessories",
    "smartphones", "womens-dresses", "mens-watches", "mens-shirts", "vehicle",
    "fragrances", "womens-jewellery", "skin-care", "kitchen-accessories", "tops"
  ]

  /** The pattern stands in the text from index `i` on. */
  predicate OccursAt(text: string, pattern: string, i: int) {
    0 <= i <= |text| - |pattern| && text[i..i + |pattern|] == pattern
  }

  /** Python's `pattern in text` on strings: the pattern occurs at some index of the text. */
  function Contains(text: string, pattern: string): (r: bool)
    ensures r ==> |pattern| <= |text|
    ensures r ==> exists i :: OccursAt(text, pattern, i)
    decreases |text|
  {
    if |pattern| <= |text| && text[..|pattern|] == pattern then
      assert OccursAt(text, pattern, 0);
      true
    else if text != [] && Contains(text[1..], pattern) then
      var i :| OccursAt(text[1..], pattern, i);
      assert text[i + 1..i + 1 + |pattern|] == text[1..][i..i + |pattern|];
      assert OccursAt(text, pattern, i + 1);
      true
    else false
  }

  /** `pattern in text` holds when the pattern occurs at some position of the text. */
  lemma {:induction false} ContainsAt(text: string, pattern: string, i: nat)
    requires i + |pattern| <= |text| && text[i..i + |pattern|] == pattern
    ensures Contains(text, pattern)
    decreases i
  {
    if i > 0 {
      assert text[1..][i - 1..i - 1 + |pattern|] == pattern;
      ContainsAt(text[1..], pattern, i - 1);
    }
  }

  /** The category the loop of lines 126-129 settles on, looking from index `i` of `cats` on. */
  function FirstCategoryFrom(squashed: string, cats: seq<string>, i: nat): (r: Option<string>)
    requires i <= |cats|
    ensures r.Some? ==> r.value in cats[i..] && Contains(squashed, CategoryKey(r.value))
    decreases |cats| - i
  {
    if i == |cats| then None
    else if Contains(squashed, CategoryKey(cats[i])) then Some(cats[i])
    else FirstCategoryFrom(squashed, cats, i + 1)
  }

  /** The category matched for a normalised input: one of the list whose key occurs in it. */
  function MatchedCategory(normalizedInput: string): (r: Option<string>)
    ensures r.Some? ==> r.value in AllCategories && Contains(RemoveBlanks(normalizedInput), CategoryKey(r.value))
  {
    FirstCategoryFrom(RemoveBlanks(normalizedInput), AllCategories, 0)
  }

  /**
   * Lines 124-129: try the categories in order and stop at the first whose
   * key is found in the input; `cats` is the list the keys were made from.
   */
  method MatchCategory(normalizedInput: string, cats: seq<string>) returns (matched: Option<string>)
    ensures matched == FirstCategoryFrom(RemoveBlanks(normalizedInput), cats, 0)
  {
    var squashed := RemoveBlanks(normalizedInput);
    matched := None;
    var i := 0;
    while i < |cats|
      invariant 0 <= i <= |cats|
      invariant FirstCategoryFrom(squashed, cats, 0) == FirstCategoryFrom(squashed, cats, i)
    {
      if Contains(squashed, CategoryKey(cats[i])) {
        matched := Some(cats[i]);
        return;
      }
      i := i + 1;
    }
  }

  /**
   * The matched category is the earliest one whose key occurs in the
   * input's letters and digits; with no such category there is no match.
   */
  lemma {:induction false} FirstCategoryFromSpec(squashed: string, cats: seq<string>, i: nat)
    requires i <= |cats|
    ensures FirstCategoryFrom(squashed, cats, i).None? <==>
              forall j :: i <= j < |cats| ==> !Contains(squashed, CategoryKey(cats[j]))
    ensures FirstCategoryFrom(squashed, cats, i).Some? ==>
              exists j :: i <= j < |cats| && cats[j] == FirstCategoryFrom(squashed, cats, i).value
                && Contains(squashed, CategoryKey(cats[j]))
                && forall m :: i <= m < j ==> !Contains(squashed, CategoryKey(cats[m]))
    decreases |cats| - i
  {
    if i < |cats| && !Contains(squashed, CategoryKey(cats[i])) {
      FirstCategoryFromSpec(squashed, cats, i + 1);
      if FirstCategoryFrom(squashed, cats, i).Some? {
        var j :| i + 1 <= j < |cats| && cats[j] == FirstCategoryFrom(squashed, cats, i).value
                && Contains(squashed, CategoryKey(cats[j]))
                && forall m :: i + 1 <= m < j ==> !Contains(squashed, CategoryKey(cats[m]));
        assert forall m :: i <= m < j ==> !Contains(squashed, CategoryKey(cats[m]));
      }
    }
  }

  /**
   * Lines 124-129 with line 25: the category matched for an input is the
   * earliest whose key occurs in the input's own `[a-z0-9]` characters.
   */
  lemma MatchedCategorySpec(userInput: string, cats: seq<string>)
    ensures FirstCategoryFrom(RemoveBlanks(NormalizeText(userInput)), cats, 0).None? <==>
              forall j :: 0 <= j < |cats| ==> !Contains(KeepAlnum(Lower(userInput)), CategoryKey(cats[j]))
    ensures FirstCategoryFrom(RemoveBlanks(NormalizeText(userInput)), cats, 0).Some? ==>
              exists j :: 0 <= j < |cats| && cats[j] == FirstCategoryFrom(RemoveBlanks(NormalizeText(userInput)), cats, 0).value
                && Contains(KeepAlnum(Lower(userInput)), CategoryKey(cats[j]))
                && forall m :: 0 <= m < j ==> !Contains(KeepAlnum(Lower(userInput)), CategoryKey(cats[m]))
  {
    SquashedInput(userInput);
    FirstCategoryFromSpec(KeepAlnum(Lower(userInput)), cats, 0);
  }

  /** Text that contains `a + b` contains `b`. */
  lemma {:induction false} ContainsSuffix(text: string, a: string, b: string)
    requires Contains(text, a + b)
    ensures Contains(text, b)
    decreases |text|
  {
    var p := a + b;
    if |p| <= |text| && text[..|p|] == p {
      assert text[|a|..|a| + |b|] == p[|a|..];
      ContainsAt(text, b, |a|);
    } else {
      ContainsSuffix(text[1..], a, b);
    }
  }

  lemma WomensShoesKey()
    ensures CategoryKey("womens-shoes") == "wo" + CategoryKey("mens-shoes")
  {
    assert "womens-shoes" == "wo" + "mens-shoes";
    KeyOfPrefixed("wo", "mens-shoes");
  }

  lemma ShoeCategories()
    ensures AllCategories[0] == "mens-shoes" && AllCategories[12] == "womens-shoes"
  {
  }

  /**
   * "mens-shoes" comes first in the list and its key occurs inside the key
   * of "womens-shoes": an input naming women's shoes is matched to the men's
   * category (lines 17-19, 126-129).
   */
  lemma WomensShoesMatchMensShoes(normalizedInput: string)
    requires Contains(RemoveBlanks(normalizedInput), CategoryKey("womens-shoes"))
    ensures MatchedCategory(normalizedInput) == Some("mens-shoes")
  {
    WomensShoesKey();
    ContainsSuffix(RemoveBlanks(normalizedInput), "wo", CategoryKey("mens-shoes"));
    ShoeCategories();
  }

  /** For the same reason "womens-shoes" is never the matched category, whatever the input. */
  lemma WomensShoesNeverMatched(normalizedInput: string)
    ensures MatchedCategory(normalizedInput) != Some("womens-shoes")
  {
    var squashed := RemoveBlanks(normalizedInput);
    if Contains(squashed, CategoryKey("womens-shoes")) {
      WomensShoesMatchMensShoes(normalizedInput);
    } else {
      FirstCategoryFromSpec(squashed, AllCategories, 0);
    }
  }

  /** A product as the products API returns it; a field that is absent is `None`. */
  datatype Product = Product(
    title: Option<string>, category: Option<string>, stock: Option<int>,
    availability: Option<string>, others: map<string, string>)
  {
    /** `not product`: the empty dictionary. */
    predicate IsEmpty() {
      title.None? && category.None? && stock.None? && availability.None? && others == map[]
    }

    /** `p.get("title", "")`. */
    function Title(): string {
      title.GetOr("")
    }

    function Category(): string {
      category.GetOr("")
    }

    /** Line 139: in stock when the status reads "in stock" or the stock count is positive. */
    function InStock(): (r: bool)
      ensures stock.Some? && stock.value > 0 ==> r
      ensures availability == Some("In Stock") ==> r
      ensures availability.None? && stock.None? ==> !r
    {
      Lower(availability.GetOr("")) == "in stock" || stock.GetOr(0) > 0
    }
  }

  predicate TitleMatches(name: string, p: Product) {
    Contains(Lower(p.Title()), Lower(name))
  }

  /** The index the loop of lines 77-79 returns at, looking from index `i` on. */
  function FirstTitleFrom(name: string, products: seq<Product>, i: nat): (r: Option<nat>)
    requires i <= |products|
    ensures r.Some? ==> i <= r.value < |products|
    decreases |products| - i
  {
    if i == |products| then None
    else if TitleMatches(name, products[i]) then Some(i)
    else FirstTitleFrom(name, products, i + 1)
  }

  /** The first product whose title contains the name is the one found, and none before it matches. */
  lemma {:induction false} FirstTitleFromSpec(name: string, products: seq<Product>, i: nat)
    requires i <= |products|
    ensures FirstTitleFrom(name, products, i).None? <==>
              forall j :: i <= j < |products| ==> !TitleMatches(name, products[j])
    ensures FirstTitleFrom(name, products, i).Some? ==>
              var j := FirstTitleFrom(name, products, i).value;
              i <= j < |products| && TitleMatches(name, products[j])
              && forall m :: i <= m < j ==> !TitleMatches(name, products[m])
    decreases |products| - i
  {
    if i < |products| && !TitleMatches(name, products[i]) {
      FirstTitleFromSpec(name, products, i + 1);
    }
  }

  /** `similarities.argmax()`: the first index holding the largest score. */
  function ArgMax(scores: seq<real>): (i: nat)
    requires scores != []
    ensures i < |scores|
    ensures forall j :: 0 <= j < |scores| ==> scores[j] <= scores[i]
    ensures forall j :: 0 <= j < i ==> scores[j] < scores[i]
    decreases |scores|
  {
    if |scores| == 1 then 0
    else
      var m := ArgMax(scores[..|scores| - 1]);
      if scores[|scores| - 1] > scores[m] then |scores| - 1 else m
  }

  /** Lines 81-91: the best-scoring product, when its score is above 0.3. */
  function Fallback(products: seq<Product>, scores: seq<real>): (r: Option<nat>)
    requires |scores| == |products| && products != []
    ensures r.Some? ==> r.value < |products|
  {
    var i := ArgMax(scores);
    if scores[i] > 0.3 then Some(i) else None
  }

  /** What `find_best_match` returns, with the TF-IDF similarities given as `scores`. */
  function BestMatch(name: string, products: seq<Product>, scores: seq<real>): (r: Option<Product>)
    requires |scores| == |products|
    ensures r.Some? ==> r.value in products
    ensures products == [] ==> r.None?
  {
    if products == [] then None
    else match FirstTitleFrom(name, products, 0)
      case Some(i) => Some(products[i])
      case None =>
        match Fallback(products, scores)
        case Some(i) => Some(products[i])
        case None => None
  }

  /**
   * A product whose title contains the name always wins, and the first one
   * does; only when none does is the product with the highest score taken,
   * the first of equals, and only if its score is above 0.3.
   */
  lemma BestMatchSpec(name: string, products: seq<Product>, scores: seq<real>)
    requires |scores| == |products|
    ensures products == [] ==> BestMatch(name, products, scores).None?
    ensures forall i ::
              (0 <= i < |products| && TitleMatches(name, products[i])
               && forall j :: 0 <= j < i ==> !TitleMatches(name, products[j])) ==>
              BestMatch(name, products, scores) == Some(products[i])
    ensures (forall i :: 0 <= i < |products| ==> !TitleMatches(name, products[i])) ==>
              (BestMatch(name, products, scores).Some? <==> exists i :: 0 <= i < |products| && scores[i] > 0.3)
    ensures (forall i :: 0 <= i < |products| ==> !TitleMatches(name, products[i])) ==>
              forall i ::
                (0 <= i < |products| && (forall j :: 0 <= j < |products| ==> scores[j] <= scores[i])
                 && forall j :: 0 <= j < i ==> scores[j] < scores[i]) ==>
                BestMatch(name, products, scores) == if scores[i] > 0.3 then Some(products[i]) else None
  {
    FirstTitleFromSpec(name, products, 0);
    if products != [] && FirstTitleFrom(name, products, 0).None? {
      var m := ArgMax(scores);
      forall i | 0 <= i < |products| && (forall j :: 0 <= j < |products| ==> scores[j] <= scores[i])
          && (forall j :: 0 <= j < i ==> scores[j] < scores[i])
        ensures i == m
      {
        assert scores[i] <= scores[m] && scores[m] <= scores[i];
      }
    }
  }

  /**
   * Lines 73-91. `scores` stands for the TF-IDF cosine similarities of
   * lines 81-86, one per product.
   */
  method FindBestMatch(name: string, products: seq<Product>, scores: seq<real>) returns (best: Option<Product>)
    requires |scores| == |products|
    ensures best == BestMatch(name, products, scores)
  {
    if products == [] {
      return None;
    }
    var lowered := Lower(name);
    for i := 0 to |products|
      invariant FirstTitleFrom(name, products, 0) == FirstTitleFrom(name, products, i)
    {
      if Contains(Lower(products[i].Title()), lowered) {
        return Some(products[i]);
      }
    }
    var i := ArgMax(scores);
    if scores[i] > 0.3 {
      return Some(products[i]);
    }
    return None;
  }

  /** The candidates that are not the target, in the order the kNN search ranks them. */
  function Others(target: Product, products: seq<Product>, candidates: seq<nat>): (r: seq<Product>)
    requires forall i :: 0 <= i < |candidates| ==> candidates[i] < |products|
    ensures forall p :: p in r ==> p != target && p in products
    ensures |r| <= |candidates|
  {
    if candidates == [] then []
    else
      var p := products[candidates[0]];
      (if p != target then [p] else []) + Others(target, products, candidates[1..])
  }

  lemma OthersStep(target: Product, products: seq<Product>, candidates: seq<nat>, n: nat)
    requires forall i :: 0 <= i < |candidates| ==> candidates[i] < |products|
    requires n < |candidates|
    ensures Others(target, products, candidates[n..]) ==
              (if products[candidates[n]] != target then [products[candidates[n]]] else [])
              + Others(target, products, candidates[n + 1..])
  {
    assert candidates[n..][1..] == candidates[n + 1..];
  }

  /**
   * Lines 192-219 after the neighbour search: `candidates` are the indices
   * it returns, nearest first. With k at least 1 the result is the first k
   * candidates other than the target; the loop tests the count only after
   * an iteration, so with k = 0 it still keeps a first candidate.
   */
  method KnnNeighbours(target: Product, products: seq<Product>, candidates: seq<nat>, k: nat) returns (similar: seq<Product>)
    requires forall i :: 0 <= i < |candidates| ==> candidates[i] < |products|
    ensures target.IsEmpty() || products == [] ==> similar == []
    ensures forall p :: p in similar ==> p != target && p in products
    ensures |similar| <= if k == 0 then 1 else k
    ensures !target.IsEmpty() && products != [] && k >= 1 ==>
              similar == Take(Others(target, products, candidates), k)
  {
    if target.IsEmpty() || products == [] {
      return [];
    }
    similar := [];
    var n := 0;
    while n < |candidates|
      invariant 0 <= n <= |candidates|
      invariant similar + Others(target, products, candidates[n..]) == Others(target, products, candidates)
      invariant forall p :: p in similar ==> p != target && p in products
      invariant k >= 1 ==> |similar| < k
      invariant k == 0 ==> n == 0 && similar == []
    {
      var p := products[candidates[n]];
      ghost var rest := Others(target, products, candidates[n + 1..]);
      OthersStep(target, products, candidates, n);
      if p != target {
        assert (similar + [p]) + rest == similar + ([p] + rest);
        similar := similar + [p];
      } else {
        assert [] + rest == rest;
      }
      n := n + 1;
      if |similar| >= k {
        assert similar == Others(target, products, candidates)[..|similar|];
        break;
      }
    }
    assert n == |candidates| ==> similar == Others(target, products, candidates) by {
      if n == |candidates| {
        assert candidates[n..] == [];
      }
    }
  }

  /** `Take` for products: the first `n`, or all when there are fewer. */
  function Take(ps: seq<Product>, n: nat): (r: seq<Product>)
    ensures |r| == if n < |ps| then n else |ps|
    ensures r == ps[..|r|]
    ensures forall p :: p in r ==> p in ps
  {
    if n < |ps| then ps[..n] else ps
  }
}
