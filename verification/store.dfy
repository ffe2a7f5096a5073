/**
 * The product store as the handler uses it: `Product.find(query).limit(3)` in the
 * store's own order, and the single fallback to `Product.find().limit(3)`.
 */
module Store {
  import opened Common
  import opened Products
  import opened Query

  /** The number of products one lookup returns at most. */
  const Limit: nat := 3

  /**
   * The products the store holds, in its natural order, and which of the
   * request's lookups throws, if any: 0 the filtered one, 1 the fallback.
   */
  datatype Repository = Repository(products: seq<Product>, failingLookup: Option<nat>)

  /**
   * The products that match `f`, in store order: each matching product as many
   * times as the store holds it, and no other product.
   */
  function Matching(ps: seq<Product>, f: Filter): (r: seq<Product>)
    ensures forall p :: p in r <==> p in ps && Matches(p, f)
    ensures forall p :: multiset(r)[p] == if Matches(p, f) then multiset(ps)[p] else 0
    ensures IsSubsequence(r, ps)
  {
    if ps == [] then []
    else
      assert ps == [ps[0]] + ps[1..];
      if Matches(ps[0], f) then [ps[0]] + Matching(ps[1..], f)
      else Matching(ps[1..], f)
  }

  /** `Product.find(f).limit(3)`. */
  function FindMatching(ps: seq<Product>, f: Filter): seq<Product> {
    Take(Matching(ps, f), Limit)
  }

  /** `Product.find().limit(3)`. */
  function FindAny(ps: seq<Product>): seq<Product> {
    Take(ps, Limit)
  }

  /** The products a successful request shows: the filtered ones, or the fallback when there are none. */
  function Select(ps: seq<Product>, f: Filter): seq<Product> {
    var found := FindMatching(ps, f);
    if found == [] then FindAny(ps) else found
  }

  /** The empty query keeps every product, so the filtered lookup behaves as the unfiltered one. */
  lemma {:induction false} MatchingAll(ps: seq<Product>)
    ensures Matching(ps, MatchAll) == ps
    ensures FindMatching(ps, MatchAll) == FindAny(ps)
  {
    if ps != [] {
      MatchingAll(ps[1..]);
      assert [ps[0]] + ps[1..] == ps;
    }
  }

  /**
   * The selection never exceeds the limit and is empty only for an empty store.
   * When some product matches, it is the first matching products in store order
   * and all of them match; otherwise it is the first products of the store.
   */
  lemma SelectSpec(ps: seq<Product>, f: Filter)
    ensures |Select(ps, f)| <= Limit
    ensures Select(ps, f) == [] <==> ps == []
    ensures (exists p :: p in ps && Matches(p, f)) ==>
      Select(ps, f) == Take(Matching(ps, f), Limit) && forall p :: p in Select(ps, f) ==> Matches(p, f)
    ensures (forall p :: p in ps ==> !Matches(p, f)) ==> Select(ps, f) == Take(ps, Limit)
    ensures IsSubsequence(Select(ps, f), ps)
  {
    var m := Matching(ps, f);
    if exists p :: p in ps && Matches(p, f) {
      var p :| p in ps && Matches(p, f);
      assert p in m;
      assert Take(m, Limit)[0] == m[0];
      assert Select(ps, f) == Take(m, Limit);
      assert forall q :: q in Take(m, Limit) ==> q in m;
      PrefixIsSubsequence(m, Limit);
      SubsequenceTransitive(Take(m, Limit), m, ps);
    } else {
      assert m == [];
      assert Select(ps, f) == Take(ps, Limit);
      PrefixIsSubsequence(ps, Limit);
      if ps != [] {
        assert Take(ps, Limit)[0] == ps[0];
      }
    }
  }

  lemma {:induction false} PrefixIsSubsequence<T>(s: seq<T>, n: nat)
    ensures IsSubsequence(Take(s, n), s)
  {
    if n > 0 && s != [] {
      PrefixIsSubsequence(s[1..], n - 1);
      assert Take(s, n)[1..] == Take(s[1..], n - 1);
    }
  }

  lemma {:induction false} SubsequenceTransitive<T>(a: seq<T>, b: seq<T>, c: seq<T>)
    requires IsSubsequence(a, b) && IsSubsequence(b, c)
    ensures IsSubsequence(a, c)
    decreases |c|
  {
    if a != [] && c != [] {
      if b[0] == c[0] && IsSubsequence(b[1..], c[1..]) {
        if a[0] == b[0] && IsSubsequence(a[1..], b[1..]) {
          SubsequenceTransitive(a[1..], b[1..], c[1..]);
        } else {
          SubsequenceTransitive(a, b[1..], c[1..]);
        }
      } else {
        SubsequenceTransitive(a, b, c[1..]);
      }
    }
  }
}
