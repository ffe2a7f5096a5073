/** Worked messages: what the handler extracts from concrete requests. */
module Scenarios {
  import opened Common
  import opened Strings
  import opened Notes
  import opened PriceParser
  import opened Query
  import opened Recommend

  /**
   * When the first match starts at `i` and the digit run it captures, from `j`,
   * ends at `e`, the capture is the value of the digits between `j` and `e`.
   */
  lemma CaptureAt(t: string, keywords: seq<string>, i: nat, j: nat, e: nat)
    requires i <= |t| && MatchAt(t, i, keywords) == Some(j)
    requires forall k :: 0 <= k < i ==> MatchAt(t, k, keywords).None?
    requires j <= e <= |t| && (forall k :: j <= k < e ==> IsDigit(t[k])) && (e == |t| || !IsDigit(t[e]))
    ensures Capture(t, keywords) == Some(DecimalValue(t[j..e]))
  {
    var first := FirstMatchFrom(t, keywords, 0);
    assert first.Some? && first.value >= i;
    assert first == Some(i);
    var end := DigitRunEnd(t, j);
    assert end >= e;
    assert end == e;
  }

  /** A word cannot occur at `k` when its `d`-th character is absent from the first `n` characters. */
  lemma AbsentCharacter(t: string, n: nat, w: string, d: nat, k: nat)
    requires d < |w| && k + d < n <= |t| && w[d] !in t[..n]
    ensures !OccursAt(t, k, w)
  {
    assert t[k + d] == t[..n][k + d];
    assert t[k + d] != w[d];
  }

  lemma NoAboveBefore(k: nat)
    requires k < 5
    ensures MatchAt("rose above 500 below 1500", k, AboveKeywords).None?
  {
    var t := "rose above 500 below 1500";
    assert t[..6] == "rose a";
    assert t[..5] == "rose ";
    assert "above"[0] == 'a' && 'a' !in "rose ";
    assert "over"[1] == 'v' && 'v' !in "rose a";
    AbsentCharacter(t, 5, "above", 0, k);
    AbsentCharacter(t, 6, "over", 1, k);
    assert AboveKeywords[0] == "above" && AboveKeywords[1] == "over";
  }

  lemma NoUnderBefore(k: nat)
    requires k < 15
    ensures MatchAt("rose above 500 below 1500", k, UnderKeywords).None?
  {
    var t := "rose above 500 below 1500";
    assert t[..17] == "rose above 500 be";
    assert "below"[2] == 'l' && 'l' !in "rose above 500 be";
    AbsentCharacter(t, 17, "under", 0, k);
    AbsentCharacter(t, 17, "below", 2, k);
    assert UnderKeywords[0] == "under" && UnderKeywords[1] == "below";
  }

  lemma FiveHundred()
    ensures DecimalValue("rose above 500 below 1500"[11..14]) == 500
  {
    assert "rose above 500 below 1500"[11..14] == "500";
    assert "500"[..2] == "50" && "50"[..1] == "5";
    assert DecimalValue("5") == 5 && DecimalValue("50") == 50;
  }

  lemma FifteenHundred()
    ensures DecimalValue("rose above 500 below 1500"[21..25]) == 1500
  {
    assert "rose above 500 below 1500"[21..25] == "1500";
    assert "1500"[..3] == "150" && "150"[..2] == "15" && "15"[..1] == "1";
    assert DecimalValue("1") == 1 && DecimalValue("15") == 15 && DecimalValue("150") == 150;
  }

  lemma AboveAtFive()
    ensures MatchAt("rose above 500 below 1500", 5, AboveKeywords) == Some(11)
  {
    var t := "rose above 500 below 1500";
    assert AboveKeywords[0] == "above";
    assert t[5..10] == "above";
    assert t[10] == ' ' && t[11] == '5';
    assert TailAt(t, 10) == Some(11);
    assert AlternativeAt(t, 5, "above");
  }

  lemma BelowAtFifteen()
    ensures MatchAt("rose above 500 below 1500", 15, UnderKeywords) == Some(21)
  {
    var t := "rose above 500 below 1500";
    assert UnderKeywords[0] == "under" && UnderKeywords[1] == "below";
    assert !OccursAt(t, 15, "under") by { assert t[15] == 'b'; }
    assert t[15..20] == "below";
    assert t[20] == ' ' && t[21] == '1';
    assert TailAt(t, 20) == Some(21);
    assert AlternativeAt(t, 15, "below");
  }

  /** The digit runs of the message: "500" from 11 to 14 and "1500" from 21 to the end. */
  lemma DigitRuns()
    ensures forall k :: 11 <= k < 14 ==> IsDigit("rose above 500 below 1500"[k])
    ensures !IsDigit("rose above 500 below 1500"[14])
    ensures forall k :: 21 <= k < 25 ==> IsDigit("rose above 500 below 1500"[k])
  {
    var t := "rose above 500 below 1500";
    assert t[11..14] == "500" && t[21..25] == "1500";
    assert t[14] == ' ';
  }

  /** "above 500" is the first "above"/"over" followed by a price: the lower bound is 500. */
  lemma AboveFiveHundred()
    ensures Capture("rose above 500 below 1500", AboveKeywords) == Some(500)
  {
    var t := "rose above 500 below 1500";
    forall k | 0 <= k < 5 ensures MatchAt(t, k, AboveKeywords).None? {
      NoAboveBefore(k);
    }
    AboveAtFive();
    DigitRuns();
    CaptureAt(t, AboveKeywords, 5, 11, 14);
    FiveHundred();
  }

  /** "below 1500" is the first "under"/"below" followed by a price: the upper bound is 1500. */
  lemma BelowFifteenHundred()
    ensures Capture("rose above 500 below 1500", UnderKeywords) == Some(1500)
  {
    var t := "rose above 500 below 1500";
    forall k | 0 <= k < 15 ensures MatchAt(t, k, UnderKeywords).None? {
      NoUnderBefore(k);
    }
    BelowAtFifteen();
    DigitRuns();
    CaptureAt(t, UnderKeywords, 15, 21, 25);
    FifteenHundred();
  }

  lemma AlreadyLower()
    ensures Lower("rose above 500 below 1500") == "rose above 500 below 1500"
  {
    var t := "rose above 500 below 1500";
    assert forall i :: 0 <= i < |t| ==> !IsUpper(t[i]);
  }

  /** "rose" is mentioned, as a plain substring of the message. */
  lemma RoseIsMentioned()
    ensures "rose" in MatchedNotes(Lower("rose above 500 below 1500"))
  {
    var t := "rose above 500 below 1500";
    AlreadyLower();
    assert OccursAt(t, 0, "rose");
    MatchedNotesSpec(t);
  }

  /**
   * "rose above 500 below 1500" asks for a capacity entry priced from 500 to 1500,
   * each bound placed by its keyword, not by its position in the text.
   */
  lemma RosePriceRange()
    ensures RequestFilter("rose above 500 below 1500").capacity == Some(PriceRange(Some(1500), Some(500)))
  {
    AlreadyLower();
    AboveFiveHundred();
    BelowFifteenHundred();
  }

  lemma ThunderPrefixHasNoMatch()
    ensures MatchAt("thunder 5", 0, UnderKeywords).None? && MatchAt("thunder 5", 1, UnderKeywords).None?
  {
    var t := "thunder 5";
    assert UnderKeywords[0] == "under" && UnderKeywords[1] == "below";
    assert !OccursAt(t, 0, "under") && !OccursAt(t, 0, "below") by { assert t[0] == 't'; }
    assert !OccursAt(t, 1, "under") && !OccursAt(t, 1, "below") by { assert t[1] == 'h'; }
  }

  lemma ThunderMatchesInside()
    ensures MatchAt("thunder 5", 2, UnderKeywords) == Some(8)
  {
    assert "thunder 5"[2..7] == "under";
  }

  lemma ThunderFirstMatch()
    ensures FirstMatchFrom("thunder 5", UnderKeywords, 0) == Some(2)
  {
    ThunderPrefixHasNoMatch();
    ThunderMatchesInside();
  }

  /** No word boundary is needed: "under" inside "thunder" still sets the upper bound. */
  lemma ThunderSetsUpperBound()
    ensures Capture("thunder 5", UnderKeywords) == Some(5)
  {
    var t := "thunder 5";
    ThunderFirstMatch();
    ThunderMatchesInside();
    assert DigitRunEnd(t, 8) == 9 by { assert IsDigit(t[8]); }
    assert t[8..9] == "5";
  }
}
