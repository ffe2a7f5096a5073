/**
 * The request handler `recommendFragrances`: lower-case the message, extract the
 * notes and price bounds, compose the query, look it up with one fallback to the
 * unfiltered lookup, and project the products for display; any failure gives an
 * empty reply with status 500.
 */
module Recommend {
  import opened Common
  import opened Strings
  import opened Notes
  import opened PriceParser
  import opened Products
  import opened Query
  import opened Store
  import opened Projection

  /** The JSON request body; `message` is `None` when it is missing or is not a string. */
  datatype RequestBody = RequestBody(message: Option<string>)

  /** The HTTP status and the JSON body `{ reply }`. */
  datatype Response = Response(status: nat, reply: seq<Summary>)

  /** The reply of the catch-all error handler. */
  const Failed: Response := Response(500, [])

  /** The query the handler composes for a message. */
  function RequestFilter(message: string): Filter {
    var text := Lower(message);
    ComposeFilter(MatchedNotes(text), PriceFilter(Capture(text, UnderKeywords), Capture(text, AboveKeywords)))
  }

  /** One `find(f).limit(3)` call on the store; `call` numbers the request's lookups from 0. */
  function Lookup(repo: Repository, f: Filter, call: nat): Result<seq<Product>> {
    if repo.failingLookup == Some(call) then Failure else Success(FindMatching(repo.products, f))
  }

  /**
   * The handler. A missing message, or a lookup that throws, gives `Failed` and
   * never a partial reply; otherwise the reply summarises the selected products.
   * The fallback lookup happens once, and only when the filtered one found nothing.
   */
  method RecommendFragrances(body: RequestBody, repo: Repository) returns (res: Response)
    ensures body.message.None? ==> res == Failed
    ensures body.message.Some? ==>
      var found := FindMatching(repo.products, RequestFilter(body.message.value));
      res == if repo.failingLookup == Some(0) || (found == [] && repo.failingLookup == Some(1)) then Failed
             else Response(200, Project(Select(repo.products, RequestFilter(body.message.value))))
    ensures res.status == 200 || res == Failed
    ensures |res.reply| <= Limit
    ensures res.status == 200 ==> (res.reply == [] <==> repo.products == [])
  {
    if body.message.None? {
      return Failed;
    }
    var keyword := Lower(body.message.value);
    var matchedNotes := MatchedNotes(keyword);

    var priceFilter: Option<PriceRange> := None;
    var underMatch := ScanPrice(keyword, UnderKeywords);
    var aboveMatch := ScanPrice(keyword, AboveKeywords);
    if underMatch.Some? && aboveMatch.Some? {
      priceFilter := Some(PriceRange(lte := Some(underMatch.value), gte := Some(aboveMatch.value)));
    } else if underMatch.Some? {
      priceFilter := Some(PriceRange(lte := Some(underMatch.value), gte := None));
    } else if aboveMatch.Some? {
      priceFilter := Some(PriceRange(lte := None, gte := Some(aboveMatch.value)));
    }
    assert priceFilter == PriceFilter(underMatch, aboveMatch);

    var query := MatchAll;
    if |matchedNotes| > 0 {
      query := query.(keynoteNames := Some(matchedNotes));
    }
    if priceFilter.Some? {
      query := query.(capacity := priceFilter);
    }
    assert query == ComposeFilter(matchedNotes, priceFilter);
    assert query == RequestFilter(body.message.value);

    var primary := Lookup(repo, query, 0);
    if primary.Failure? {
      return Failed;
    }
    var perfumes := primary.value;
    if |perfumes| == 0 {
      var fallback := Lookup(repo, MatchAll, 1);
      if fallback.Failure? {
        return Failed;
      }
      MatchingAll(repo.products);
      perfumes := fallback.value;
    }
    SelectSpec(repo.products, query);
    res := Response(200, Project(perfumes));
  }

  /**
   * A product matches the query of a message exactly when (a) no vocabulary note
   * occurs in the lower-cased message, or one of its keynote names contains, ignoring
   * case, a note that does; and (b) no price keyword was found, or one capacity entry
   * is at most the "under" value and at least the "above" value, whichever were found.
   * The vocabulary is already lower-case, so folding a note's pattern changes nothing.
   */
  lemma RequestFilterMeaning(message: string, p: Product)
    ensures var text := Lower(message);
      var under, above := Capture(text, UnderKeywords), Capture(text, AboveKeywords);
      Matches(p, RequestFilter(message)) <==>
        && (|| (forall n :: n in Vocabulary ==> !Contains(text, n))
            || exists k, n | k in p.keynotes && n in Vocabulary :: Contains(text, n) && Contains(Lower(k.name), n))
        && (|| (under.None? && above.None?)
            || exists c | c in p.capacityInML ::
                 (under.Some? ==> c.price <= under.value) && (above.Some? ==> c.price >= above.value))
  {
    var text := Lower(message);
    MatchedNotesSpec(text);
    VocabularyLowerCase();
    ComposeFilterMeaning(MatchedNotes(text), Capture(text, UnderKeywords), Capture(text, AboveKeywords), p);
  }

  /**
   * A message with no note and no price keyword gives the empty query, so the
   * reply comes from the first products of the store, as the fallback gives them.
   */
  lemma NoIntentSelectsFirstProducts(message: string, ps: seq<Product>)
    requires forall n :: n in Vocabulary ==> !Contains(Lower(message), n)
    requires Capture(Lower(message), UnderKeywords).None? && Capture(Lower(message), AboveKeywords).None?
    ensures RequestFilter(message) == MatchAll
    ensures Select(ps, RequestFilter(message)) == FindAny(ps)
  {
    MatchedNotesSpec(Lower(message));
    MatchingAll(ps);
  }

  /** When the "above" value exceeds the "under" value nothing matches, and the reply is the fallback. */
  lemma InvertedBoundsFallBack(message: string, ps: seq<Product>)
    requires Capture(Lower(message), UnderKeywords).Some? && Capture(Lower(message), AboveKeywords).Some?
    requires Capture(Lower(message), AboveKeywords).value > Capture(Lower(message), UnderKeywords).value
    ensures forall p :: !Matches(p, RequestFilter(message))
    ensures Select(ps, RequestFilter(message)) == FindAny(ps)
  {
    var text := Lower(message);
    forall p: Product ensures !Matches(p, RequestFilter(message)) {
      InvertedBoundsMatchNothing(MatchedNotes(text), Capture(text, UnderKeywords).value, Capture(text, AboveKeywords).value, p);
    }
    SelectSpec(ps, RequestFilter(message));
  }
}
