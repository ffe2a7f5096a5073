/**
 * The two price patterns `(?:under|below)\s?₹?(\d+)` and `(?:above|over)\s?₹?(\d+)`
 * applied with `String.prototype.match` (no global flag): the leftmost match wins,
 * and its capture group, the greedy digit run, is read with `parseInt`.
 * The text is already lower-cased, so the patterns' `i` flag changes nothing here.
 */
module PriceParser {
  import opened Common
  import opened Strings

  const UnderKeywords: seq<string> := ["under", "below"]
  const AboveKeywords: seq<string> := ["above", "over"]

  /**
   * The tail `\s?₹?\d` tried at index `k`: the index of the first captured digit.
   * White space, the rupee sign and digits are disjoint classes, so taking each
   * optional item whenever it is present is the only choice that can succeed.
   */
  function TailAt(t: string, k: nat): (r: Option<nat>)
    ensures r.Some? ==> k <= r.value <= k + 2 && r.value < |t| && IsDigit(t[r.value])
  {
    var k1 := if k < |t| && IsSpace(t[k]) then k + 1 else k;
    var k2 := if k1 < |t| && t[k1] == Rupee then k1 + 1 else k1;
    if k2 < |t| && IsDigit(t[k2]) then Some(k2) else None
  }

  /** Reference reading of `\s?₹?\d` at `k`: some way of taking or skipping the optional items reaches a digit at `j`. */
  ghost predicate TailMatches(t: string, k: nat, j: nat) {
    && j < |t| && IsDigit(t[j])
    && (|| j == k
        || (j == k + 1 && (IsSpace(t[k]) || t[k] == Rupee))
        || (j == k + 2 && IsSpace(t[k]) && t[k + 1] == Rupee))
  }

  /** The scan finds a digit exactly where the backtracking reading does, and that digit is unique. */
  lemma TailAtIsRegexTail(t: string, k: nat)
    ensures forall j: nat :: TailAt(t, k) == Some(j) <==> TailMatches(t, k, j)
  {
  }

  /** Keyword `w` followed by the tail matches at index `i`. */
  predicate AlternativeAt(t: string, i: nat, w: string) {
    OccursAt(t, i, w) && TailAt(t, i + |w|).Some?
  }

  /**
   * Keyword `w` occurs at `i` and `\s?₹?` after it reaches the digit at `j`:
   * the capture group of a match at `i` through `w` starts at `j`.
   */
  ghost predicate CapturesFrom(t: string, i: nat, w: string, j: nat) {
    OccursAt(t, i, w) && TailMatches(t, i + |w|, j)
  }

  /**
   * The pattern `(?:w0|w1|…)\s?₹?\d` tried at index `i`, alternatives in order:
   * the index of the first captured digit, if some alternative leads to a match.
   * That digit follows the first keyword that leads to a match, and the optional
   * white space and rupee sign after it.
   */
  function MatchAt(t: string, i: nat, keywords: seq<string>): (r: Option<nat>)
    ensures r.Some? <==> exists x :: 0 <= x < |keywords| && AlternativeAt(t, i, keywords[x])
    ensures r.Some? ==> i <= r.value < |t| && IsDigit(t[r.value])
    ensures r.Some? ==>
      exists x :: 0 <= x < |keywords| && CapturesFrom(t, i, keywords[x], r.value)
        && forall y :: 0 <= y < x ==> !AlternativeAt(t, i, keywords[y])
  {
    if keywords == [] then None
    else if AlternativeAt(t, i, keywords[0]) then
      TailAtIsRegexTail(t, i + |keywords[0]|);
      assert CapturesFrom(t, i, keywords[0], TailAt(t, i + |keywords[0]|).value);
      TailAt(t, i + |keywords[0]|)
    else
      var r := MatchAt(t, i, keywords[1..]);
      assert forall x :: 1 <= x < |keywords| ==> keywords[x] == keywords[1..][x - 1];
      assert r.Some? ==>
        exists x ::
          && 1 <= x < |keywords| && CapturesFrom(t, i, keywords[x], r.value)
          && forall y :: 0 <= y < x ==> !AlternativeAt(t, i, keywords[y]);
      r
  }

  /** The start of the leftmost match at or after index `i`: the regex engine's scan. */
  function FirstMatchFrom(t: string, keywords: seq<string>, i: nat): (r: Option<nat>)
    requires i <= |t|
    ensures r.Some? ==> i <= r.value <= |t| && MatchAt(t, r.value, keywords).Some?
    ensures forall k :: i <= k <= |t| && (r.None? || k < r.value) ==> MatchAt(t, k, keywords).None?
    decreases |t| - i
  {
    if MatchAt(t, i, keywords).Some? then Some(i)
    else if i == |t| then None
    else FirstMatchFrom(t, keywords, i + 1)
  }

  /** The end of the maximal run of digits starting at `j` (the greedy `\d+`). */
  function DigitRunEnd(t: string, j: nat): (e: nat)
    requires j <= |t|
    ensures j <= e <= |t|
    ensures forall k :: j <= k < e ==> IsDigit(t[k])
    ensures e == |t| || !IsDigit(t[e])
    decreases |t| - j
  {
    if j < |t| && IsDigit(t[j]) then DigitRunEnd(t, j + 1) else j
  }

  /** `parseInt(text.match(pattern)[1])` when the pattern matches, `None` when it does not. */
  function Capture(t: string, keywords: seq<string>): Option<nat> {
    match FirstMatchFrom(t, keywords, 0)
    case None => None
    case Some(i) =>
      var j := MatchAt(t, i, keywords).value;
      Some(DecimalValue(t[j..DigitRunEnd(t, j)]))
  }

  /** There is no capture exactly when the pattern matches at no index of the text. */
  lemma CaptureAbsent(t: string, keywords: seq<string>)
    ensures Capture(t, keywords).None? <==> forall i :: 0 <= i <= |t| ==> MatchAt(t, i, keywords).None?
  {
    var first := FirstMatchFrom(t, keywords, 0);
    if first.Some? {
      assert MatchAt(t, first.value, keywords).Some?;
    }
  }

  /**
   * A capture comes from the first index `i` where a keyword is followed by
   * `\s?₹?` and a digit: it is the value of the whole digit run that starts right
   * after that keyword and the optional white space and rupee sign.
   */
  lemma CaptureIsFirstOccurrence(t: string, keywords: seq<string>)
    ensures Capture(t, keywords).Some? ==>
      exists i: nat, x, j: nat ::
        && i <= |t| && 0 <= x < |keywords| && CapturesFrom(t, i, keywords[x], j)
        && (forall y :: 0 <= y < x ==> !AlternativeAt(t, i, keywords[y]))
        && (forall k :: 0 <= k < i ==> MatchAt(t, k, keywords).None?)
        && j < |t| && Capture(t, keywords) == Some(DecimalValue(t[j..DigitRunEnd(t, j)]))
  {
    var first := FirstMatchFrom(t, keywords, 0);
    if first.Some? {
      var i := first.value;
      var j := MatchAt(t, i, keywords).value;
      assert Capture(t, keywords) == Some(DecimalValue(t[j..DigitRunEnd(t, j)]));
      var x :|
        && 0 <= x < |keywords| && CapturesFrom(t, i, keywords[x], j)
        && forall y :: 0 <= y < x ==> !AlternativeAt(t, i, keywords[y]);
    }
  }

  /** Reads the greedy digit run starting at `j`: its end and its value. */
  method ReadDigits(t: string, j: nat) returns (e: nat, v: nat)
    requires j <= |t|
    ensures e == DigitRunEnd(t, j)
    ensures v == DecimalValue(t[j..e])
  {
    e, v := j, 0;
    while e < |t| && IsDigit(t[e])
      invariant j <= e <= |t|
      invariant DigitRunEnd(t, e) == DigitRunEnd(t, j)
      invariant AllDigits(t[j..e]) && v == DecimalValue(t[j..e])
    {
      ghost var run := t[j..e + 1];
      assert run[..|run| - 1] == t[j..e] && run[|run| - 1] == t[e];
      v := 10 * v + DigitValue(t[e]);
      e := e + 1;
    }
  }

  /** The regex scan written as the loop a matcher runs; it computes `Capture`. */
  method ScanPrice(t: string, keywords: seq<string>) returns (r: Option<nat>)
    ensures r == Capture(t, keywords)
  {
    var i := 0;
    while i < |t| && MatchAt(t, i, keywords).None?
      invariant 0 <= i <= |t|
      invariant FirstMatchFrom(t, keywords, i) == FirstMatchFrom(t, keywords, 0)
    {
      i := i + 1;
    }
    var m := MatchAt(t, i, keywords);
    if m.None? {
      return None;
    }
    assert FirstMatchFrom(t, keywords, 0) == Some(i);
    var _, v := ReadDigits(t, m.value);
    r := Some(v);
  }
}
