// The overlapping chunker of backend/app/application/services/knowledge.py.  Sections arrive
// sanitised: the regular expressions of ContentSanitizer are not part of this model.
module Chunking {
  datatype Span = Span(start: nat, end: nat)

  // An emitted chunk: its text and the section it was cut from.
  datatype Piece = Piece(content: string, section: nat)

  function Min(a: int, b: int): int { if a < b then a else b }

  function Max(a: int, b: int): int { if a < b then b else a }

  // The window size with the two sizes derived from it: how far a window must reach before it may
  // end at a blank, and how many characters two neighbours share.
  datatype Limits = Limits(maximum: nat, half: nat, overlap: nat) {
    predicate Sound() { overlap <= half < maximum }
  }

  function LimitsOf(maximum: nat): (limits: Limits)
    requires maximum >= 1
    ensures limits.Sound() && limits.maximum == maximum
    ensures 2 * limits.half <= maximum < 2 * limits.half + 2
    ensures if maximum < 4000 then 10 * limits.overlap <= maximum < 10 * limits.overlap + 10 else limits.overlap == 400
  {
    Limits(maximum, maximum / 2, Min(400, maximum / 10))
  }

  // The characters str.strip() removes.
  predicate IsSpace(c: char) {
    var code := c as int;
    || 0x09 <= code <= 0x0d || 0x1c <= code <= 0x20 || code == 0x85 || code == 0xa0 || code == 0x1680
    || 0x2000 <= code <= 0x200a || code == 0x2028 || code == 0x2029 || code == 0x202f || code == 0x205f
    || code == 0x3000
  }

  // str.rfind(" ", start, end): the last blank in the range, or -1.
  function LastBlank(text: string, start: nat, end: nat): (at: int)
    requires start <= end <= |text|
    ensures at == -1 || (start <= at < end && text[at] == ' ')
    ensures forall i | start <= i < end && i > at :: text[i] != ' '
    decreases end - start
  {
    if start == end then -1
    else if text[end - 1] == ' ' then end - 1
    else LastBlank(text, start, end - 1)
  }

  // A window short of the end of the text closes in one of two ways: at a blank beyond its half, the
  // last one before the maximum, so that no word is cut; or, with no blank beyond its half, at the
  // maximum.
  ghost predicate ClosesWell(text: string, span: Span, limits: Limits) {
    span.start <= span.end < |text| ==>
      || (text[span.end] == ' ' && span.end - span.start > limits.half
          && forall i | span.end < i < span.start + limits.maximum :: i < |text| && text[i] != ' ')
      || (span.end - span.start == limits.maximum
          && forall i | span.start + limits.half < i < span.end :: text[i] != ' ')
  }

  // Where the window opened at `start` ends: at the maximum, or at the last blank in its second
  // half so that a word is not cut, unless the text ends first.
  function WindowEnd(text: string, start: nat, limits: Limits): (end: nat)
    requires start < |text| && limits.Sound()
    ensures start < end <= |text| && end - start <= limits.maximum
    ensures end < |text| ==> end - start > limits.half
    ensures ClosesWell(text, Span(start, end), limits)
    ensures start + limits.maximum >= |text| ==> end == |text|
  {
    var limit := Min(start + limits.maximum, |text|);
    if limit == |text| then limit
    else
      var blank := LastBlank(text, start, limit);
      if blank > start + limits.half then blank else limit
  }

  // Where the window after the one opened at `start` opens.  The source takes
  // max(start + 1, end - overlap); the first operand never wins, so the overlap is always exact.
  function NextStart(text: string, start: nat, limits: Limits): (next: nat)
    requires start < |text| && limits.Sound() && WindowEnd(text, start, limits) < |text|
    ensures start < next <= WindowEnd(text, start, limits)
    ensures next == WindowEnd(text, start, limits) - limits.overlap
  {
    Max(start + 1, WindowEnd(text, start, limits) - limits.overlap)
  }

  // The windows of one section from `start` on.
  function Windows(text: string, start: nat, limits: Limits): seq<Span>
    requires limits.Sound()
    decreases |text| - start
  {
    if start >= |text| then []
    else
      var end := WindowEnd(text, start, limits);
      [Span(start, end)] + if end == |text| then [] else Windows(text, NextStart(text, start, limits), limits)
  }

  // No gap: the first window opens at the beginning, the last closes at the end of the section,
  // and every later one opens exactly one overlap before its predecessor closes.
  ghost predicate Gapless(spans: seq<Span>, start: nat, end: nat, overlap: nat) {
    && spans != [] && spans[0].start == start
    && if |spans| == 1 then spans[0].end == end
       else spans[0].end >= overlap && Gapless(spans[1..], spans[0].end - overlap, end, overlap)
  }

  lemma {:induction false} WindowsAreGapless(text: string, start: nat, limits: Limits)
    requires limits.Sound() && start < |text|
    ensures Gapless(Windows(text, start, limits), start, |text|, limits.overlap)
    decreases |text| - start
  {
    if WindowEnd(text, start, limits) < |text| {
      WindowsAreGapless(text, NextStart(text, start, limits), limits);
    }
  }

  lemma {:induction false} EveryWindowClosesWell(text: string, start: nat, limits: Limits, span: Span)
    requires limits.Sound() && span in Windows(text, start, limits)
    ensures span.start < span.end <= |text| && span.end - span.start <= limits.maximum && ClosesWell(text, span, limits)
    decreases |text| - start
  {
    var end := WindowEnd(text, start, limits);
    if span != Span(start, end) {
      WindowsSplit(text, start, limits);
      EveryWindowClosesWell(text, NextStart(text, start, limits), limits, span);
    }
  }

  // The windows concatenated, the first `overlap` characters of every later one dropped.
  function Reassemble(text: string, spans: seq<Span>, overlap: nat): string {
    if spans == [] then "" else Slice(text, spans[0]) + ReassembleRest(text, spans[1..], overlap)
  }

  function ReassembleRest(text: string, spans: seq<Span>, overlap: nat): string {
    if spans == [] then "" else Slice(text, Span(spans[0].start + overlap, spans[0].end))
                                + ReassembleRest(text, spans[1..], overlap)
  }

  function Slice(text: string, span: Span): string {
    if span.start <= span.end <= |text| then text[span.start..span.end] else ""
  }

  // Dropping the overlap and concatenating gives back the section.
  lemma WindowsReassemble(text: string, limits: Limits)
    requires limits.Sound()
    ensures Reassemble(text, Windows(text, 0, limits), limits.overlap) == text
  {
    if text != "" {
      var end, spans := WindowEnd(text, 0, limits), Windows(text, 0, limits);
      WindowsSplit(text, 0, limits);
      RestAfterFirst(text, limits);
      assert Slice(text, spans[0]) == text[..end];
      assert text[..end] + text[end..] == text;
    }
  }

  lemma WindowsSplit(text: string, start: nat, limits: Limits)
    requires limits.Sound() && start < |text|
    ensures var end, spans := WindowEnd(text, start, limits), Windows(text, start, limits);
            && spans != [] && spans[0] == Span(start, end)
            && spans[1..] == if end == |text| then [] else Windows(text, NextStart(text, start, limits), limits)
  {
  }

  lemma RestAfterFirst(text: string, limits: Limits)
    requires limits.Sound() && text != ""
    ensures ReassembleRest(text, Windows(text, 0, limits)[1..], limits.overlap) == text[WindowEnd(text, 0, limits)..]
  {
    var end, rest := WindowEnd(text, 0, limits), Windows(text, 0, limits)[1..];
    WindowsSplit(text, 0, limits);
    if end < |text| {
      var next := NextStart(text, 0, limits);
      RestReassembles(text, next, limits);
      assert rest == Windows(text, next, limits) && next + limits.overlap == end;
    } else {
      assert rest == [] && text[end..] == "";
    }
  }

  lemma {:induction false} RestReassembles(text: string, start: nat, limits: Limits)
    requires limits.Sound() && start + limits.overlap < |text|
    ensures ReassembleRest(text, Windows(text, start, limits), limits.overlap) == text[start + limits.overlap..]
    decreases |text| - start
  {
    var end, spans := WindowEnd(text, start, limits), Windows(text, start, limits);
    WindowsSplit(text, start, limits);
    SliceJoins(text, start + limits.overlap, end);
    if end < |text| {
      RestReassembles(text, NextStart(text, start, limits), limits);
    } else {
      assert ReassembleRest(text, spans[1..], limits.overlap) == text[end..];
    }
  }

  lemma SliceJoins(text: string, from: nat, end: nat)
    requires from <= end <= |text|
    ensures Slice(text, Span(from, end)) + text[end..] == text[from..]
  {
  }

  // ---- stripping ------------------------------------------------------------------------------

  function StripStart(text: string, span: Span): (start: nat)
    requires span.start <= span.end <= |text|
    ensures span.start <= start <= span.end
    ensures forall i | span.start <= i < start :: IsSpace(text[i])
    ensures start < span.end ==> !IsSpace(text[start])
    decreases span.end - span.start
  {
    if span.start < span.end && IsSpace(text[span.start])
    then StripStart(text, Span(span.start + 1, span.end)) else span.start
  }

  function StripEnd(text: string, span: Span): (end: nat)
    requires span.start <= span.end <= |text|
    ensures span.start <= end <= span.end
    ensures forall i | end <= i < span.end :: IsSpace(text[i])
    ensures span.start < end ==> !IsSpace(text[end - 1])
    decreases span.end - span.start
  {
    if span.start < span.end && IsSpace(text[span.end - 1])
    then StripEnd(text, Span(span.start, span.end - 1)) else span.end
  }

  // text[span].strip() as a span; an all-blank window leaves an empty one.
  function Strip(text: string, span: Span): (core: Span)
    requires span.start <= span.end <= |text|
    ensures span.start <= core.start <= core.end <= span.end
    ensures forall i | span.start <= i < span.end && !IsSpace(text[i]) :: core.start <= i < core.end
    ensures core.start < core.end ==> !IsSpace(text[core.start]) && !IsSpace(text[core.end - 1])
  {
    var start := StripStart(text, span);
    Span(start, StripEnd(text, Span(start, span.end)))
  }

  function Content(text: string, span: Span): string
    requires span.start <= span.end <= |text|
  {
    text[Strip(text, span).start..Strip(text, span).end]
  }

  // The chunks of one section from `start` on: its windows, stripped, the blank ones left out.
  function PiecesFrom(text: string, start: nat, section: nat, limits: Limits): seq<Piece>
    requires limits.Sound()
    decreases |text| - start
  {
    if start >= |text| then []
    else
      var end := WindowEnd(text, start, limits);
      Emitted(text, Span(start, end), section)
      + if end == |text| then [] else PiecesFrom(text, NextStart(text, start, limits), section, limits)
  }

  function Emitted(text: string, span: Span, section: nat): seq<Piece>
    requires span.start <= span.end <= |text|
  {
    if Content(text, span) == "" then [] else [Piece(Content(text, span), section)]
  }

  // One window more: what the loop adds to `before`.
  lemma PiecesSplit(before: seq<Piece>, text: string, start: nat, section: nat, limits: Limits)
    requires limits.Sound() && start < |text|
    ensures var end := WindowEnd(text, start, limits);
            before + PiecesFrom(text, start, section, limits)
            == (before + Emitted(text, Span(start, end), section))
               + if end == |text| then [] else PiecesFrom(text, NextStart(text, start, limits), section, limits)
  {
    var end := WindowEnd(text, start, limits);
    var rest := if end == |text| then [] else PiecesFrom(text, NextStart(text, start, limits), section, limits);
    JoinAssociates(before, Emitted(text, Span(start, end), section), rest);
  }

  lemma JoinAssociates(a: seq<Piece>, b: seq<Piece>, c: seq<Piece>)
    ensures (a + b) + c == a + (b + c)
  {
  }

  // The chunks of some windows, in order.
  function PiecesOver(text: string, spans: seq<Span>, section: nat): seq<Piece>
    requires forall span | span in spans :: span.start <= span.end <= |text|
  {
    if spans == [] then [] else Emitted(text, spans[0], section) + PiecesOver(text, spans[1..], section)
  }

  // Every window gives one chunk, in order, unless it is blank, and there are no others.
  lemma {:induction false} PiecesAreWindows(text: string, start: nat, section: nat, limits: Limits)
    requires limits.Sound()
    ensures forall span | span in Windows(text, start, limits) :: span.start <= span.end <= |text|
    ensures PiecesFrom(text, start, section, limits) == PiecesOver(text, Windows(text, start, limits), section)
    decreases |text| - start
  {
    if start < |text| {
      WindowsSplit(text, start, limits);
      if WindowEnd(text, start, limits) < |text| {
        PiecesAreWindows(text, NextStart(text, start, limits), section, limits);
      }
    }
  }

  // The chunks of the first `count` sections, in order.
  function PiecesOf(sections: seq<string>, count: nat, limits: Limits): seq<Piece>
    requires limits.Sound() && count <= |sections|
  {
    if count == 0 then []
    else PiecesOf(sections, count - 1, limits) + PiecesFrom(sections[count - 1], 0, count - 1, limits)
  }

  function Pieces(sections: seq<string>, limits: Limits): seq<Piece>
    requires limits.Sound()
  {
    PiecesOf(sections, |sections|, limits)
  }

  // The piece is the stretch of the section that starts at `from`.
  predicate CutAt(text: string, piece: Piece, from: nat) {
    from + |piece.content| <= |text| && piece.content == text[from..from + |piece.content|]
  }

  // No visible character is lost: each lies in some emitted chunk.
  lemma {:induction false} NothingVisibleIsLost(text: string, start: nat, section: nat, limits: Limits, i: nat)
    returns (piece: Piece, from: nat)
    requires limits.Sound() && start <= i < |text| && !IsSpace(text[i])
    ensures piece in PiecesFrom(text, start, section, limits)
    ensures CutAt(text, piece, from) && from <= i < from + |piece.content|
    decreases |text| - start
  {
    var span := Span(start, WindowEnd(text, start, limits));
    PiecesSplit([], text, start, section, limits);
    if i < span.end {
      piece, from := EmittedHolds(text, span, section, i);
    } else {
      piece, from := NothingVisibleIsLost(text, NextStart(text, start, limits), section, limits, i);
    }
  }

  lemma EmittedHolds(text: string, span: Span, section: nat, i: nat) returns (piece: Piece, from: nat)
    requires span.start <= i < span.end <= |text| && !IsSpace(text[i])
    ensures piece in Emitted(text, span, section)
    ensures CutAt(text, piece, from) && from <= i < from + |piece.content|
  {
    var core := Strip(text, span);
    piece, from := Piece(Content(text, span), section), core.start;
    assert core.start + |piece.content| == core.end;
  }

  // Every emitted chunk has 1..maximum characters, starts and ends on a visible one, and is a
  // stretch of its section.
  lemma {:induction false} ChunksAreBounded(text: string, start: nat, section: nat, limits: Limits, piece: Piece)
    returns (from: nat)
    requires limits.Sound() && piece in PiecesFrom(text, start, section, limits)
    ensures 1 <= |piece.content| <= limits.maximum && piece.section == section
    ensures !IsSpace(piece.content[0]) && !IsSpace(piece.content[|piece.content| - 1])
    ensures start <= from && CutAt(text, piece, from)
    decreases |text| - start
  {
    var span := Span(start, WindowEnd(text, start, limits));
    if piece in Emitted(text, span, section) {
      EmittedIsBounded(text, span, section, piece);
      from := Strip(text, span).start;
    } else {
      PiecesSplit([], text, start, section, limits);
      from := ChunksAreBounded(text, NextStart(text, start, limits), section, limits, piece);
    }
  }

  lemma EmittedIsBounded(text: string, span: Span, section: nat, piece: Piece)
    requires span.start <= span.end <= |text| && piece in Emitted(text, span, section)
    ensures 1 <= |piece.content| <= span.end - span.start && piece.section == section
    ensures !IsSpace(piece.content[0]) && !IsSpace(piece.content[|piece.content| - 1])
    ensures CutAt(text, piece, Strip(text, span).start)
  {
    var core := Strip(text, span);
    assert core.start + |piece.content| == core.end;
  }

  // ---- the loop -------------------------------------------------------------------------------

  method Chunks(sections: seq<string>, limits: Limits) returns (texts: seq<Piece>)
    requires limits.Sound()
    ensures texts == Pieces(sections, limits)
  {
    texts := [];
    for k := 0 to |sections|
      invariant texts == PiecesOf(sections, k, limits)
    {
      var more := SectionChunks(sections[k], k, limits);
      texts := texts + more;
    }
  }

  // The body of the outer loop: one section's chunks.
  method SectionChunks(sanitized: string, section: nat, limits: Limits) returns (texts: seq<Piece>)
    requires limits.Sound()
    ensures texts == PiecesFrom(sanitized, 0, section, limits)
  {
    texts := [];
    var start := 0;
    while start < |sanitized|
      invariant 0 <= start
      invariant PiecesFrom(sanitized, 0, section, limits) == texts + PiecesFrom(sanitized, start, section, limits)
    {
      var end := WindowEnd(sanitized, start, limits);
      PiecesSplit(texts, sanitized, start, section, limits);
      texts := texts + Emitted(sanitized, Span(start, end), section);
      if end >= |sanitized| {
        break;
      }
      start := NextStart(sanitized, start, limits);
    }
  }
}
