/**
 * The product filter the handler composes, and what it means for a product to
 * match it under the document store's operators.
 */
module Query {
  import opened Common
  import opened Strings
  import opened Products

  /** `{ $elemMatch: { price: { $lte: …, $gte: … } } }` on `capacityInML`; absent operators are `None`. */
  datatype PriceRange = PriceRange(lte: Option<nat>, gte: Option<nat>)

  /**
   * The query object: the `keynotes.name` key holding `{ $in: [/n/i, …] }` (here the
   * list of `n`), and the `capacityInML` key holding the price range. An absent key is `None`.
   */
  datatype Filter = Filter(keynoteNames: Option<seq<string>>, capacity: Option<PriceRange>)

  /** The empty query `{}`. */
  const MatchAll: Filter := Filter(None, None)

  /**
   * `/n/i` finds `n` in `name`: the case-insensitive comparison folds both the
   * pattern and the name. `n` is a word of letters, with no regex metacharacter.
   */
  predicate PatternFound(n: string, name: string) {
    Contains(Lower(name), Lower(n))
  }

  /** `$in` over regexes on an array path: some keynote's name matches some pattern. */
  predicate SomeKeynoteMatches(p: Product, patterns: seq<string>) {
    exists k, n | k in p.keynotes && n in patterns :: PatternFound(n, k.name)
  }

  predicate InRange(price: int, r: PriceRange) {
    (r.lte.Some? ==> price <= r.lte.value) && (r.gte.Some? ==> price >= r.gte.value)
  }

  /** `$elemMatch`: one and the same capacity entry meets every bound. */
  predicate SomeEntryInRange(p: Product, r: PriceRange) {
    exists c | c in p.capacityInML :: InRange(c.price, r)
  }

  /** A document matches a query when it meets the condition of every key present. */
  predicate Matches(p: Product, f: Filter) {
    && (f.keynoteNames.Some? ==> SomeKeynoteMatches(p, f.keynoteNames.value))
    && (f.capacity.Some? ==> SomeEntryInRange(p, f.capacity.value))
  }

  /**
   * The price part of the query: the "under" capture is the upper bound and the
   * "above" capture the lower bound, by position, with no check that they are ordered.
   */
  function PriceFilter(under: Option<nat>, above: Option<nat>): Option<PriceRange> {
    if under.None? && above.None? then None else Some(PriceRange(lte := under, gte := above))
  }

  /** The query: a note clause when some note matched, joined with the price clause when present. */
  function ComposeFilter(notes: seq<string>, price: Option<PriceRange>): Filter {
    Filter(if notes == [] then None else Some(notes), price)
  }

  /**
   * Both bounds give a closed range, upper bound from "under" and lower from "above";
   * one bound gives a one-sided range; no bound gives no price clause.
   */
  lemma PriceFilterCases(under: Option<nat>, above: Option<nat>)
    ensures under.Some? && above.Some? ==> PriceFilter(under, above) == Some(PriceRange(Some(under.value), Some(above.value)))
    ensures under.Some? && above.None? ==> PriceFilter(under, above) == Some(PriceRange(Some(under.value), None))
    ensures under.None? && above.Some? ==> PriceFilter(under, above) == Some(PriceRange(None, Some(above.value)))
    ensures under.None? && above.None? ==> PriceFilter(under, above).None?
  {
  }

  /** The empty query matches every product. */
  lemma MatchAllMatchesEverything(p: Product)
    ensures Matches(p, MatchAll)
  {
  }

  /**
   * A product matches the composed query exactly when it meets the note clause
   * (if any note matched) and the price clause (if any bound was found), the
   * price clause being met by a single capacity entry.
   */
  lemma ComposeFilterMeaning(notes: seq<string>, under: Option<nat>, above: Option<nat>, p: Product)
    ensures Matches(p, ComposeFilter(notes, PriceFilter(under, above))) <==>
      && (notes == [] || exists k, n | k in p.keynotes && n in notes :: Contains(Lower(k.name), Lower(n)))
      && (|| (under.None? && above.None?)
          || exists c | c in p.capacityInML ::
               (under.Some? ==> c.price <= under.value) && (above.Some? ==> c.price >= above.value))
  {
  }

  /** Bounds found in the wrong order give a price clause no product meets. */
  lemma InvertedBoundsMatchNothing(notes: seq<string>, u: nat, a: nat, p: Product)
    requires a > u
    ensures !Matches(p, ComposeFilter(notes, PriceFilter(Some(u), Some(a))))
  {
  }
}
