/**
 * The paragraph split of app/components/ui/PoeticText.tsx: the text cut at every blank line
 * (`"\n\n"`), keeping the pieces that have something left after trimming.
 */
module PoeticText {
  import opened Seqs
  import opened Text

  /** The paragraph separator. */
  const Separator: string := "\n\n"

  /** The filter `p => p.trim()`: a piece is kept when trimming leaves something. */
  predicate HasContent(piece: string) {
    |Trim(piece)| > 0
  }

  /** `text.split('\n\n').filter((p) => p.trim())` */
  function Paragraphs(text: string): seq<string> {
    Filter(Split(text, Separator), HasContent)
  }

  /** Every paragraph has content: it is not white space only. */
  lemma ParagraphsHaveContent(text: string)
    ensures forall k :: 0 <= k < |Paragraphs(text)| ==>
      |Trim(Paragraphs(text)[k])| > 0 && !IsBlank(Paragraphs(text)[k])
  {
    FilterSpec(Split(text, Separator), HasContent);
    forall k | 0 <= k < |Paragraphs(text)|
      ensures !IsBlank(Paragraphs(text)[k])
    {
      TrimEmptyIffBlank(Paragraphs(text)[k]);
    }
  }

  /** No paragraph holds a blank line. */
  lemma ParagraphsSeparatorFree(text: string)
    ensures forall k :: 0 <= k < |Paragraphs(text)| ==> !Contains(Paragraphs(text)[k], Separator)
  {
    var pieces := Split(text, Separator);
    FilterSpec(pieces, HasContent);
    SplitPiecesFree(text, Separator);
    forall k | 0 <= k < |Paragraphs(text)|
      ensures !Contains(Paragraphs(text)[k], Separator)
    {
      var j :| 0 <= j < |pieces| && pieces[j] == Paragraphs(text)[k];
    }
  }

  /**
   * The paragraphs are the pieces between separators that have content, in order; every such
   * piece is one of them, as often as it occurs; and the pieces joined with the separator give
   * back the text.
   */
  lemma ParagraphsArePieces(text: string)
    ensures IsSubsequence(Paragraphs(text), Split(text, Separator))
    ensures forall k :: 0 <= k < |Split(text, Separator)| && HasContent(Split(text, Separator)[k]) ==>
      Split(text, Separator)[k] in Paragraphs(text)
    ensures forall v :: multiset(Paragraphs(text))[v] ==
                        (if HasContent(v) then multiset(Split(text, Separator))[v] else 0)
    ensures Join(Split(text, Separator), Separator) == text
  {
    FilterSpec(Split(text, Separator), HasContent);
    JoinSplit(text, Separator);
  }

  /** A text with content and without a blank line is one paragraph, the text itself. */
  lemma OneParagraph(text: string)
    requires !IsBlank(text) && !Contains(text, Separator)
    ensures Paragraphs(text) == [text]
  {
    SplitWithoutSeparator(text, Separator);
    TrimEmptyIffBlank(text);
    assert [text][1..] == [];
  }

  /** An empty or white-space-only text has no paragraph. */
  lemma BlankNoParagraphs(text: string)
    requires IsBlank(text)
    ensures Paragraphs(text) == []
  {
    var pieces := Split(text, Separator);
    SplitBlank(text, Separator);
    forall k | 0 <= k < |pieces|
      ensures !HasContent(pieces[k])
    {
      TrimEmptyIffBlank(pieces[k]);
    }
    FilterKeepsNone(pieces, HasContent);
  }
}
