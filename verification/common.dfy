/** Small generic building blocks shared by the recommender's stages. */
module Common {
  datatype Option<T> = None | Some(value: T)

  /** The outcome of a call into the product store, which may throw. */
  datatype Result<T> = Success(value: T) | Failure

  /** `a` is obtained from `b` by deleting elements, keeping the order of the rest. */
  ghost predicate IsSubsequence<T>(a: seq<T>, b: seq<T>)
    decreases |b|
  {
    if a == [] then true
    else if b == [] then false
    else (a[0] == b[0] && IsSubsequence(a[1..], b[1..])) || IsSubsequence(a, b[1..])
  }

  /** The first `n` elements of `s`, or all of `s` when it is shorter (a query's `limit(n)`). */
  function Take<T>(s: seq<T>, n: nat): (r: seq<T>)
    ensures |r| <= n && |r| <= |s|
    ensures |r| == n || r == s
    ensures r == s[..|r|]
  {
    if |s| <= n then s else s[..n]
  }
}
