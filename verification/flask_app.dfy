/**
 * The three routes of the Flask assistant (flask-backend/app.py): `/ask`
 * (lines 105-189), `/similar` (lines 222-246) and `/trending` (lines
 * 249-257), over the module-level search counter `trending_searches`.
 *
 * `query` is `data.get("query", "")`: the text of the request's "query"
 * key, or the empty string when it has none.
 */
module FlaskApp {
  import opened TextNormalize
  import opened Assistant
  import opened AssistantReplies
  import Trending

  /** Line 108: `data.get("query", "").strip().lower()`: no white space at either end. */
  function UserInput(query: string): (r: string)
    ensures |r| == |Strip(query)|
    ensures r == [] || (!IsSpace(r[0]) && !IsSpace(r[|r| - 1]))
  {
    Lower(Strip(query))
  }

  /** Lines 105-189: a non-empty input is counted, then answered. */
  method Ask(counter: Trending.SearchCounter, env: Env, query: string) returns (answer: Answer)
    requires counter.Valid() && env.Valid()
    modifies counter
    ensures counter.Valid()
    ensures |UserInput(query)| > 0 ==> counter.counts == Trending.Increment(old(counter.counts), UserInput(query))
    ensures |UserInput(query)| > 0 ==>
              counter.order == if UserInput(query) in old(counter.counts) then old(counter.order)
                               else old(counter.order) + [UserInput(query)]
    ensures |UserInput(query)| == 0 ==> unchanged(counter)
    ensures Replies(env, UserInput(query), answer)
  {
    var input := UserInput(query);
    if |input| > 0 {
      counter.Add(input);
      answer := Respond(env, input);
    } else {
      answer := Respond(env, input);
    }
  }

  /**
   * Lines 222-246. An empty query is refused with 400 before it is counted;
   * any other is counted in lower case, looked up by title, and the products
   * of the found product's category closest to it are listed.
   */
  method Similar(counter: Trending.SearchCounter, env: Env, query: string) returns (answer: SimilarAnswer)
    requires counter.Valid() && env.Valid()
    modifies counter
    ensures counter.Valid()
    ensures answer.MissingTitle? <==> |Strip(query)| == 0
    ensures answer.MissingTitle? ==> unchanged(counter)
    ensures !answer.MissingTitle? ==> counter.counts == Trending.Increment(old(counter.counts), Lower(Strip(query)))
    ensures !answer.MissingTitle? ==>
              counter.order == if Lower(Strip(query)) in old(counter.counts) then old(counter.order)
                               else old(counter.order) + [Lower(Strip(query))]
    ensures !answer.MissingTitle? ==> FindsSimilar(env, Strip(query), answer)
  {
    var productQuery := Strip(query);
    if |productQuery| == 0 {
      return MissingTitle;
    }
    counter.Add(Lower(productQuery));
    answer := FindSimilar(env, productQuery);
  }

  /**
   * Lines 249-257: at most ten entries with the counts the counter holds,
   * counts never rising, and no query left out counted more often than one
   * listed. Nothing is counted.
   */
  method TrendingSearches(counter: Trending.SearchCounter) returns (top: seq<Trending.Entry>)
    requires counter.Valid()
    ensures top == counter.Top(10)
    ensures |top| == if 10 < |counter.order| then 10 else |counter.order|
    ensures Trending.NonIncreasing(top)
    ensures forall e :: e in top ==> e.query in counter.counts && e.count == counter.counts[e.query]
    ensures forall q :: q in counter.counts && (forall e :: e in top ==> e.query != q) ==>
              forall e :: e in top ==> counter.counts[q] <= e.count
  {
    top := counter.Top(10);
    Trending.MostCommonSpec(counter.order, counter.counts, 10);
  }
}
