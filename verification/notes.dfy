/** Note extraction: which entries of the fixed note vocabulary the message mentions. */
module Notes {
  import opened Common
  import opened Strings

  /** The fixed vocabulary of fragrance notes, in the order the matcher scans it. */
  const Vocabulary: seq<string> :=
    ["woody", "fresh", "citrus", "mint", "aqua", "jasmine", "vanilla", "rose", "musk", "amber", "sandalwood"]

  /** The entries of `vocab` that `text` contains, in the order of `vocab` (`Array.filter`). */
  function Keep(vocab: seq<string>, text: string): (r: seq<string>)
    ensures forall n :: n in r <==> n in vocab && Contains(text, n)
    ensures IsSubsequence(r, vocab)
  {
    if vocab == [] then []
    else if Contains(text, vocab[0]) then [vocab[0]] + Keep(vocab[1..], text)
    else Keep(vocab[1..], text)
  }

  /** The notes mentioned by an already lower-cased message. */
  function MatchedNotes(text: string): seq<string> {
    Keep(Vocabulary, text)
  }

  /**
   * A note is matched exactly when it is in the vocabulary and occurs in the text;
   * the matches keep the vocabulary's order, and a text with no note gives no match.
   */
  lemma MatchedNotesSpec(text: string)
    ensures forall n :: n in MatchedNotes(text) <==> n in Vocabulary && Contains(text, n)
    ensures IsSubsequence(MatchedNotes(text), Vocabulary)
    ensures MatchedNotes(text) == [] <==> forall n :: n in Vocabulary ==> !Contains(text, n)
  {
    if MatchedNotes(text) != [] {
      assert MatchedNotes(text)[0] in MatchedNotes(text);
    }
  }

  /** Every vocabulary entry is a non-empty word with no upper-case letter. */
  lemma VocabularyLowerCase()
    ensures forall n :: n in Vocabulary ==> |n| > 0 && Lower(n) == n
  {
    forall n | n in Vocabulary ensures |n| > 0 && Lower(n) == n {
      assert forall i :: 0 <= i < |n| ==> !IsUpper(n[i]);
    }
  }

  /** No vocabulary entry repeats, so a note is matched at most once. */
  lemma VocabularyDistinct()
    ensures forall i, j :: 0 <= i < j < |Vocabulary| ==> Vocabulary[i] != Vocabulary[j]
  {
    var v := Vocabulary;
    forall i, j | 0 <= i < j < |v| ensures v[i] != v[j] {
      assert |v[i]| != |v[j]| || v[i][0] != v[j][0] || v[i][1] != v[j][1];
    }
  }

  /** Containment ignores word boundaries: "rosemary" mentions the note "rose". */
  lemma RosemaryMentionsRose()
    ensures "rose" in MatchedNotes("rosemary")
  {
    assert OccursAt("rosemary", 0, "rose");
    MatchedNotesSpec("rosemary");
  }
}
