/** A response that was cut off: what the client can tell, and what it cannot. */
module StreamCut {
  import opened Wrappers
  import opened Strings
  import opened Json
  import opened JsonLines
  import opened SqlWriter
  import opened JsonCut

  /** The events of whole lines, and then of a last piece without an end of line. */
  lemma EventsOfCut(ms: seq<Message>, piece: string)
    requires Sound(ms) && '\n' !in piece
    ensures StreamEvents(Text(ms) + piece) == ToldAll(ms) + LineEvents(piece, REMAINING_FAILURE)
  {
    SplitText(ms);
    EventsOfWhole(ms);
    SplitAppend(Text(ms), piece, '\n');
    assert DropLast(Lines(ms) + [""]) == Lines(ms) && Last(Lines(ms) + [""]) + piece == piece;
    SplitWithoutSeparator(piece, '\n');
    assert DropLast(Lines(ms) + [piece]) == Lines(ms);
  }

  lemma EventsOfWhole(ms: seq<Message>)
    requires Sound(ms)
    ensures EventsOf(Lines(ms)) == ToldAll(ms)
  {
    EventsOfLines(ms);
    EventsSnoc(Lines(ms), "");
  }

  /** What a piece of a message's text is read as. */
  lemma PieceTells(m: Message, piece: string)
    requires WellFormed(Body(m)) && piece <= LineOf(m) && piece != "" && piece != LineOf(m)
    ensures LineEvents(piece, REMAINING_FAILURE) == [ErrorEvent(Str("Failed to parse remaining JSON: " + piece))]
  {
    var line := LineOf(m);
    var x := line[|piece|..];
    assert line == piece + x;
    CutObjectIsUnreadable(Body(m), piece, x);
    ObjectLine(Body(m), REMAINING_FAILURE);
    assert piece[0] == line[0] == '{' && '{' in piece;
  }

  /**
   A stream that breaks off: between two messages nothing shows it; behind the text of a message and
   before its end of line, that message is told as if it were whole; anywhere inside a message the
   stream ends in an error event with the piece that arrived.
   */
  lemma CutStreamTells(ms: seq<Message>, m: Message, piece: string)
    requires Sound(ms) && WellFormed(Body(m)) && piece <= LineOf(m)
    ensures StreamEvents(Text(ms) + piece) ==
            ToldAll(ms) +
            if piece == "" then []
            else if piece == LineOf(m) then Told(m)
            else [ErrorEvent(Str("Failed to parse remaining JSON: " + piece))]
  {
    LineOfMessage(m, REMAINING_FAILURE);
    assert forall c | c in piece :: c in LineOf(m);
    EventsOfCut(ms, piece);
    if piece != "" && piece != LineOf(m) {
      PieceTells(m, piece);
    }
  }
}
