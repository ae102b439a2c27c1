/** The text the scorer reads from a paper's content: the values of a
    mapping joined with single spaces when it is a mapping, and the `str`
    form of the content otherwise. */
module TextContent {
  import opened TextPatterns
  import opened PatternLaws

  /** The content of a paper as the scorer receives it: a mapping whose
      entries are kept in insertion order, each value already in its `str`
      form, or any other value, given by its `str` form (a string is its
      own). */
  datatype Content =
    | Text(text: string)
    | Fields(entries: seq<(string, string)>)

  /** Python's `sep.join(pieces)`. */
  function Join(sep: string, pieces: seq<string>): string
    decreases |pieces|
  {
    if |pieces| == 0 then ""
    else if |pieces| == 1 then pieces[0]
    else pieces[0] + sep + Join(sep, pieces[1..])
  }

  /** The values of a mapping, in insertion order. */
  function Values(entries: seq<(string, string)>): (values: seq<string>)
    ensures |values| == |entries|
    ensures forall k :: 0 <= k < |entries| ==> values[k] == entries[k].1
  {
    seq(|entries|, k requires 0 <= k < |entries| => entries[k].1)
  }

  /** The text the scorer analyses. */
  function NormalizedText(content: Content): string {
    match content
    case Text(text) => text
    case Fields(entries) => Join(" ", Values(entries))
  }

  /** Total length of the pieces. */
  function TotalLength(pieces: seq<string>): nat
    decreases |pieces|
  {
    if |pieces| == 0 then 0 else |pieces[0]| + TotalLength(pieces[1..])
  }

  // ---------------------------------------------------------------------------
  // Laws of joining
  // ---------------------------------------------------------------------------

  /** The joined text holds every piece and one separator between each two. */
  lemma {:induction false} JoinLength(sep: string, pieces: seq<string>)
    requires |pieces| > 0
    ensures |Join(sep, pieces)| == TotalLength(pieces) + (|pieces| - 1) * |sep|
    decreases |pieces|
  {
    if |pieces| > 1 {
      JoinLength(sep, pieces[1..]);
    }
  }

  /** Joining two non-empty lists puts one separator between their joins. */
  lemma {:induction false} JoinAppend(sep: string, xs: seq<string>, ys: seq<string>)
    requires |xs| > 0 && |ys| > 0
    ensures Join(sep, xs + ys) == Join(sep, xs) + sep + Join(sep, ys)
    decreases |xs|
  {
    if |xs| == 1 {
      assert (xs + ys)[1..] == ys;
    } else {
      assert (xs + ys)[1..] == xs[1..] + ys;
      JoinAppend(sep, xs[1..], ys);
    }
  }

  lemma JoinOne(sep: string, pieces: seq<string>)
    requires |pieces| == 1
    ensures Join(sep, pieces) == pieces[0]
  {
  }

  lemma JoinCons(sep: string, pieces: seq<string>)
    requires |pieces| > 1
    ensures Join(sep, pieces) == pieces[0] + sep + Join(sep, pieces[1..])
  {
  }

  lemma OccursInHead(p: Pattern, head: string, sep: string, tail: string)
    requires WellFormed(p) && |sep| > 0 && !IsDigit(sep[0]) && Occurs(p, head)
    ensures Occurs(p, head + sep + tail)
  {
    OccursBeforeSuffix(p, head, sep + tail);
    Assoc(head, sep, tail);
  }

  /** A match inside one piece is a match in the joined text, provided the
      separator does not begin with a digit. */
  lemma {:induction false} OccursInPiece(p: Pattern, sep: string, pieces: seq<string>, i: int)
    requires WellFormed(p) && |sep| > 0 && !IsDigit(sep[0])
    requires 0 <= i < |pieces| && Occurs(p, pieces[i])
    ensures Occurs(p, Join(sep, pieces))
    decreases |pieces|
  {
    if |pieces| > 1 {
      var rest := Join(sep, pieces[1..]);
      if i == 0 {
        OccursInHead(p, pieces[0], sep, rest);
      } else {
        OccursSame(p, pieces[i], pieces[1..][i - 1]);
        OccursInPiece(p, sep, pieces[1..], i - 1);
        OccursAfterPrefix(p, pieces[0] + sep, rest);
      }
      JoinCons(sep, pieces);
      OccursSame(p, pieces[0] + sep + rest, Join(sep, pieces));
    } else {
      JoinOne(sep, pieces);
      OccursSame(p, pieces[0], Join(sep, pieces));
    }
  }

  /** A phrase that is in no piece, and shares no character with the
      separator, is not in the joined text. */
  lemma {:induction false} PhraseInNoPiece(w: string, sep: string, pieces: seq<string>)
    requires |w| > 0 && |sep| > 0 && !Shares(sep, w)
    requires forall i :: 0 <= i < |pieces| ==> !Occurs(Phrase(w), pieces[i])
    ensures !Occurs(Phrase(w), Join(sep, pieces))
    decreases |pieces|
  {
    if |pieces| == 0 {
      PhraseNeedsEveryChar(w, "");
    } else if |pieces| > 1 {
      PhraseInNoPiece(w, sep, pieces[1..]);
      PhraseAcross(w, pieces[0], sep, Join(sep, pieces[1..]));
    }
  }
}
