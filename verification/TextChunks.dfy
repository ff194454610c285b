/**
  splitText and buildMemoryChunks (memory/index.ts): a text is cut into paragraphs, long paragraphs
  into sentences or slices, and the pieces are packed greedily into chunks. Texts are sequences of
  UTF-16 code units, so lengths and slices are those of the source.
 */
module TextChunks {

  newtype CodeUnit = x: int | 0 <= x < 0x1_0000

  type Text = seq<CodeUnit>

  const LINE_FEED: CodeUnit := 10
  const CARRIAGE_RETURN: CodeUnit := 13

  /** The characters of trim() and of the regular expression class \s. */
  predicate IsSpace(c: CodeUnit) {
    (9 <= c <= 13) || c == 32 || c == 0xA0 || c == 0x1680 || (0x2000 <= c <= 0x200A)
    || c == 0x2028 || c == 0x2029 || c == 0x202F || c == 0x205F || c == 0x3000 || c == 0xFEFF
  }

  /** The sentence ends: full-width and ASCII full stop, exclamation mark and question mark. */
  predicate EndsSentence(c: CodeUnit) {
    c == 0x3002 || c == 0xFF01 || c == 0xFF1F || c == 46 || c == 33 || c == 63
  }

  // ---------------------------------------------------------------- normalization

  /** value.replace(/\r\n/g, '\n') */
  function UnifyLineEnds(s: Text): Text
    decreases |s|
  {
    if s == [] then []
    else if |s| >= 2 && s[0] == CARRIAGE_RETURN && s[1] == LINE_FEED then [LINE_FEED] + UnifyLineEnds(s[2..])
    else [s[0]] + UnifyLineEnds(s[1..])
  }

  function TrimStart(s: Text): Text {
    if s != [] && IsSpace(s[0]) then TrimStart(s[1..]) else s
  }

  function TrimEnd(s: Text): Text {
    if s != [] && IsSpace(s[|s| - 1]) then TrimEnd(s[..|s| - 1]) else s
  }

  function Trim(s: Text): Text {
    TrimEnd(TrimStart(s))
  }

  function Normalized(s: Text): Text {
    Trim(UnifyLineEnds(s))
  }

  // ---------------------------------------------------------------- cutting

  function SkipLineFeeds(s: Text, q: nat): (e: nat)
    requires q <= |s|
    ensures q <= e <= |s|
    ensures q < |s| && s[q] == LINE_FEED ==> q < e
    ensures forall i :: q <= i < e ==> s[i] == LINE_FEED
    ensures e < |s| ==> s[e] != LINE_FEED
    decreases |s| - q
  {
    if q < |s| && s[q] == LINE_FEED then SkipLineFeeds(s, q + 1) else q
  }

  function SkipSpaces(s: Text, q: nat): (e: nat)
    requires q <= |s|
    ensures q <= e <= |s|
    ensures forall i :: q <= i < e ==> IsSpace(s[i])
    decreases |s| - q
  {
    if q < |s| && IsSpace(s[q]) then SkipSpaces(s, q + 1) else q
  }

  /** s.split(/\n{2,}/), the current piece starting at p and the scan being at q. */
  function SplitBlank(s: Text, p: nat, q: nat): seq<Text>
    requires p <= q <= |s|
    decreases |s| - q
  {
    if q == |s| then [s[p..]]
    else if q + 1 < |s| && s[q] == LINE_FEED && s[q + 1] == LINE_FEED then
      var e := SkipLineFeeds(s, q);
      [s[p..q]] + SplitBlank(s, e, e)
    else SplitBlank(s, p, q + 1)
  }

  /** s.split(/(?<=[...])\s*\/) : a cut after every sentence end, with the spaces that follow it. */
  function SplitSentences(s: Text, p: nat, q: nat): seq<Text>
    requires p <= q <= |s|
    decreases |s| - q, |s| - p
  {
    if q == |s| then [s[p..]]
    else if p < q && EndsSentence(s[q - 1]) then
      var e := SkipSpaces(s, q);
      [s[p..q]] + SplitSentences(s, e, e)
    else SplitSentences(s, p, q + 1)
  }

  function DropEmpty(ss: seq<Text>): seq<Text> {
    if ss == [] then [] else (if ss[0] == [] then [] else [ss[0]]) + DropEmpty(ss[1..])
  }

  /** Consecutive slices of length max; the last one may be shorter. */
  function Slices(s: Text, max: nat): seq<Text>
    requires max > 0
    decreases |s|
  {
    if s == [] then [] else if |s| <= max then [s] else [s[..max]] + Slices(s[max..], max)
  }

  function PiecesOf(paragraph: Text, max: nat): seq<Text>
    requires max > 0
  {
    if |paragraph| <= max then [paragraph]
    else
      var sentences := DropEmpty(SplitSentences(paragraph, 0, 0));
      if |sentences| <= 1 then Slices(paragraph, max) else sentences
  }

  function FlatPieces(paragraphs: seq<Text>, max: nat): seq<Text>
    requires max > 0
  {
    if paragraphs == [] then [] else PiecesOf(paragraphs[0], max) + FlatPieces(paragraphs[1..], max)
  }

  /** The pieces that are packed, in order. */
  function Pieces(normalized: Text, max: nat): seq<Text>
    requires max > 0
  {
    FlatPieces(SplitBlank(normalized, 0, 0), max)
  }

  // ---------------------------------------------------------------- packing

  const BLANK_LINE: Text := [LINE_FEED, LINE_FEED]

  /** The packing loop: the chunks still to come, given the piece being filled. */
  function Pack(pieces: seq<Text>, max: nat, buffer: Text): seq<Text>
    requires max > 0
    decreases |pieces|
  {
    if pieces == [] then (if buffer == [] then [] else [buffer])
    else
      var piece, rest := pieces[0], pieces[1..];
      var candidate := if buffer != [] then buffer + BLANK_LINE + piece else piece;
      if |candidate| <= max then Pack(rest, max, candidate)
      else
        (if buffer != [] then [buffer] else [])
        + (if |piece| <= max then Pack(rest, max, piece) else Slices(piece, max) + Pack(rest, max, []))
  }

  /** The chunks of a text. */
  function Chunks(value: Text, max: nat): seq<Text>
    requires max > 0
  {
    if Normalized(value) == [] then [] else Pack(Pieces(Normalized(value), max), max, [])
  }

  /** Pieces joined by a blank line. */
  function Join(ps: seq<Text>): Text
    decreases |ps|
  {
    if ps == [] then [] else if |ps| == 1 then ps[0]
    else Join(ps[..|ps| - 1]) + BLANK_LINE + ps[|ps| - 1]
  }

  /** A chunk of whole pieces, or one piece that is too long and is cut into chunks of its own. */
  datatype Group = Joined(pieces: seq<Text>) | Cut(piece: Text)

  function Members(g: Group): seq<Text> {
    match g
    case Joined(ps) => ps
    case Cut(p) => [p]
  }

  function AllMembers(gs: seq<Group>): seq<Text>
    decreases |gs|
  {
    if gs == [] then [] else AllMembers(gs[..|gs| - 1]) + Members(gs[|gs| - 1])
  }

  function Render(g: Group, max: nat): seq<Text>
    requires max > 0
  {
    match g
    case Joined(ps) => [Join(ps)]
    case Cut(p) => Slices(p, max)
  }

  function RenderAll(gs: seq<Group>, max: nat): seq<Text>
    requires max > 0
    decreases |gs|
  {
    if gs == [] then [] else RenderAll(gs[..|gs| - 1], max) + Render(gs[|gs| - 1], max)
  }

  /** The chunk fits, or the piece does not. */
  predicate Fits(g: Group, max: nat) {
    match g
    case Joined(ps) => ps != [] && |Join(ps)| <= max && forall i :: 0 <= i < |ps| ==> ps[i] != []
    case Cut(p) => |p| > max
  }

  /** A closed chunk could not have taken the first piece of the next group. */
  predicate Closed(g: Group, next: Group, max: nat) {
    g.Joined? && Members(next) != [] ==> |Join(g.pieces + [Members(next)[0]])| > max
  }

  /** A greedy packing: the groups hold exactly the pieces, in order, and no chunk is closed early. */
  predicate IsPacking(pieces: seq<Text>, gs: seq<Group>, max: nat) {
    && AllMembers(gs) == pieces
    && (forall i :: 0 <= i < |gs| ==> Fits(gs[i], max))
    && (forall i :: 0 <= i < |gs| - 1 ==> Closed(gs[i], gs[i + 1], max))
  }

  lemma {:induction false} JoinGrows(ps: seq<Text>, p: Text)
    requires ps != []
    ensures Join(ps + [p]) == Join(ps) + BLANK_LINE + p
  {
    assert (ps + [p])[..|ps|] == ps;
  }

  lemma {:induction false} JoinNotEmpty(ps: seq<Text>)
    requires ps != [] && forall i :: 0 <= i < |ps| ==> ps[i] != []
    ensures Join(ps) != []
  {}

  lemma {:induction false} AppendGroup(gs: seq<Group>, g: Group, max: nat)
    requires max > 0
    ensures AllMembers(gs + [g]) == AllMembers(gs) + Members(g)
    ensures RenderAll(gs + [g], max) == RenderAll(gs, max) + Render(g, max)
  {
    assert (gs + [g])[..|gs|] == gs;
  }

  /** Cutting a text into slices, as the source's loops do. */
  method CutSlices(s: Text, max: nat) returns (slices: seq<Text>)
    requires max > 0
    ensures slices == Slices(s, max)
  {
    slices := [];
    var index := 0;
    while index < |s|
      invariant slices + Slices(if index <= |s| then s[index..] else [], max) == Slices(s, max)
      decreases |s| - index
    {
      var end := if index + max <= |s| then index + max else |s|;
      ghost var rest := s[index..];
      assert rest[..end - index] == s[index..end];
      assert end < |s| ==> rest[max..] == s[end..];
      assert end == |s| ==> s[end..] == [] && s[index..end] == rest;
      slices := slices + [s[index..end]];
      index := index + max;
    }
  }

  method CutParagraph(paragraph: Text, max: nat) returns (cut: seq<Text>)
    requires max > 0
    ensures cut == PiecesOf(paragraph, max)
  {
    if |paragraph| <= max {
      cut := [paragraph];
    } else {
      cut := DropEmpty(SplitSentences(paragraph, 0, 0));
      if |cut| <= 1 {
        cut := CutSlices(paragraph, max);
      }
    }
  }

  /** The flatMap over the paragraphs. */
  method CutParagraphs(normalized: Text, max: nat) returns (pieces: seq<Text>)
    requires max > 0
    ensures pieces == Pieces(normalized, max)
  {
    pieces := [];
    var paragraphs := SplitBlank(normalized, 0, 0);
    for i := 0 to |paragraphs|
      invariant pieces + FlatPieces(paragraphs[i..], max) == Pieces(normalized, max)
    {
      var cut := CutParagraph(paragraphs[i], max);
      ghost var rest := FlatPieces(paragraphs[i + 1..], max);
      assert paragraphs[i..][1..] == paragraphs[i + 1..];
      assert FlatPieces(paragraphs[i..], max) == cut + rest;
      assert pieces + (cut + rest) == (pieces + cut) + rest;
      pieces := pieces + cut;
    }
  }

  /** splitText. */
  method SplitText(value: Text, max: nat) returns (output: seq<Text>)
    requires max > 0
    ensures output == Chunks(value, max)
  {
    output := [];
    var normalized := Normalized(value);
    if normalized == [] {
      return;
    }
    var pieces := CutParagraphs(normalized, max);
    var buffer: Text := [];
    for i := 0 to |pieces|
      invariant output + Pack(pieces[i..], max, buffer) == Pack(pieces, max, [])
    {
      var piece := pieces[i];
      PackNext(output, pieces[i..], max, buffer);
      assert pieces[i..][0] == piece && pieces[i..][1..] == pieces[i + 1..];
      var candidate := if buffer != [] then buffer + BLANK_LINE + piece else piece;
      if |candidate| <= max {
        buffer := candidate;
      } else {
        if buffer != [] {
          output := output + [buffer];
        }
        if |piece| <= max {
          buffer := piece;
        } else {
          var slices := CutSlices(piece, max);
          output := output + slices;
          buffer := [];
        }
      }
    }
    if buffer != [] {
      output := output + [buffer];
    }
  }

  /** The state of the packing loop: groups that are closed, and the pieces in the buffer. */
  ghost predicate Packed(taken: seq<Text>, gs: seq<Group>, open: seq<Text>, max: nat) {
    && AllMembers(gs) + open == taken
    && Chained(gs, max)
    && (open != [] ==> Fits(Joined(open), max))
    && (open != [] && gs != [] ==> Closed(gs[|gs| - 1], Joined(open), max))
    && (open == [] && gs != [] ==> gs[|gs| - 1].Cut?)
  }

  predicate Chained(gs: seq<Group>, max: nat) {
    && (forall i :: 0 <= i < |gs| ==> Fits(gs[i], max))
    && (forall i :: 0 <= i < |gs| - 1 ==> Closed(gs[i], gs[i + 1], max))
  }

  /** All taken pieces are in closed groups, and the last one has no room for next. */
  ghost predicate Shut(taken: seq<Text>, gs: seq<Group>, next: Text, max: nat) {
    && AllMembers(gs) == taken
    && Chained(gs, max)
    && (gs != [] ==> Closed(gs[|gs| - 1], Joined([next]), max))
  }

  lemma PackNext(output: seq<Text>, pieces: seq<Text>, max: nat, buffer: Text)
    requires max > 0 && pieces != []
    ensures var piece, rest := pieces[0], pieces[1..];
            var candidate := if buffer != [] then buffer + BLANK_LINE + piece else piece;
            var closed := if buffer != [] then output + [buffer] else output;
            output + Pack(pieces, max, buffer) ==
            if |candidate| <= max then output + Pack(rest, max, candidate)
            else if |piece| <= max then closed + Pack(rest, max, piece)
            else closed + Slices(piece, max) + Pack(rest, max, [])
  {
    var piece, rest := pieces[0], pieces[1..];
    var head := if buffer != [] then [buffer] else [];
    var closed := if buffer != [] then output + [buffer] else output;
    assert closed == output + head;
    var tail := if |piece| <= max then Pack(rest, max, piece) else Slices(piece, max) + Pack(rest, max, []);
    assert output + (head + tail) == closed + tail;
    assert closed + (Slices(piece, max) + Pack(rest, max, [])) == closed + Slices(piece, max) + Pack(rest, max, []);
  }

  lemma JoinNext(open: seq<Text>, piece: Text)
    ensures Join(open + [piece]) == if open != [] then Join(open) + BLANK_LINE + piece else piece
  {
    if open != [] {
      JoinGrows(open, piece);
    }
  }

  lemma PackedTake(taken: seq<Text>, gs: seq<Group>, open: seq<Text>, piece: Text, max: nat)
    requires Packed(taken, gs, open, max) && piece != [] && |Join(open + [piece])| <= max
    ensures Packed(taken + [piece], gs, open + [piece], max)
    ensures Join(open + [piece]) != []
  {
    var more := open + [piece];
    assert AllMembers(gs) + more == (AllMembers(gs) + open) + [piece];
    JoinNotEmpty(more);
    if open != [] {
      assert Members(Joined(more))[0] == Members(Joined(open))[0];
    }
  }

  lemma ChainedGrows(gs: seq<Group>, g: Group, max: nat)
    requires Chained(gs, max) && Fits(g, max) && (gs != [] ==> Closed(gs[|gs| - 1], g, max))
    ensures Chained(gs + [g], max)
  {}

  lemma PackedClose(taken: seq<Text>, gs: seq<Group>, open: seq<Text>, piece: Text, max: nat)
    requires max > 0 && Packed(taken, gs, open, max) && open != [] && |Join(open + [piece])| > max
    ensures Shut(taken, gs + [Joined(open)], piece, max)
    ensures RenderAll(gs + [Joined(open)], max) == RenderAll(gs, max) + [Join(open)]
  {
    AppendGroup(gs, Joined(open), max);
    ChainedGrows(gs, Joined(open), max);
  }

  lemma PackedNone(taken: seq<Text>, gs: seq<Group>, piece: Text, max: nat)
    requires Packed(taken, gs, [], max)
    ensures Shut(taken, gs, piece, max)
  {
    assert AllMembers(gs) + [] == AllMembers(gs);
  }

  lemma PackedOpen(taken: seq<Text>, gs: seq<Group>, piece: Text, max: nat)
    requires Shut(taken, gs, piece, max) && piece != [] && |piece| <= max
    ensures Packed(taken + [piece], gs, [piece], max) && Join([piece]) == piece
  {
    assert [piece][..0] == [];
  }

  lemma PackedCut(taken: seq<Text>, gs: seq<Group>, piece: Text, max: nat)
    requires max > 0 && Shut(taken, gs, piece, max) && |piece| > max
    ensures Packed(taken + [piece], gs + [Cut(piece)], [], max)
    ensures RenderAll(gs + [Cut(piece)], max) == RenderAll(gs, max) + Slices(piece, max)
  {
    AppendGroup(gs, Cut(piece), max);
    ChainedGrows(gs, Cut(piece), max);
    assert AllMembers(gs + [Cut(piece)]) + [] == taken + [piece];
  }

  lemma PackedEnd(taken: seq<Text>, gs: seq<Group>, open: seq<Text>, max: nat)
    requires max > 0 && Packed(taken, gs, open, max)
    ensures open == [] ==> IsPacking(taken, gs, max)
    ensures open != [] ==> IsPacking(taken, gs + [Joined(open)], max)
                           && RenderAll(gs + [Joined(open)], max) == RenderAll(gs, max) + [Join(open)]
  {
    AppendGroup(gs, Joined(open), max);
    if open == [] {
      assert AllMembers(gs) + [] == AllMembers(gs);
    } else {
      ChainedGrows(gs, Joined(open), max);
    }
  }

  // ---------------------------------------------------------------- no piece is empty

  lemma {:induction false} TrimStartEnds(s: Text)
    ensures TrimStart(s) != [] ==> !IsSpace(TrimStart(s)[0])
    decreases |s|
  {
    if s != [] && IsSpace(s[0]) {
      TrimStartEnds(s[1..]);
    }
  }

  lemma {:induction false} TrimEndEnds(s: Text)
    ensures TrimEnd(s) <= s
    ensures TrimEnd(s) != [] ==> !IsSpace(TrimEnd(s)[|TrimEnd(s)| - 1])
    decreases |s|
  {
    if s != [] && IsSpace(s[|s| - 1]) {
      TrimEndEnds(s[..|s| - 1]);
    }
  }

  lemma {:induction false} SplitBlankNotEmpty(s: Text, p: nat, q: nat)
    requires p <= q <= |s| && p < |s| && s[|s| - 1] != LINE_FEED
    requires p < q || s[p] != LINE_FEED
    ensures forall i :: 0 <= i < |SplitBlank(s, p, q)| ==> SplitBlank(s, p, q)[i] != []
    decreases |s| - q
  {
    if q == |s| {
    } else if q + 1 < |s| && s[q] == LINE_FEED && s[q + 1] == LINE_FEED {
      var e := SkipLineFeeds(s, q);
      SplitBlankNotEmpty(s, e, e);
    } else {
      SplitBlankNotEmpty(s, p, q + 1);
    }
  }

  lemma {:induction false} DropEmptyNotEmpty(ss: seq<Text>)
    ensures forall i :: 0 <= i < |DropEmpty(ss)| ==> DropEmpty(ss)[i] != []
  {
    if ss != [] {
      DropEmptyNotEmpty(ss[1..]);
    }
  }

  lemma {:induction false} SlicesFit(s: Text, max: nat)
    requires max > 0
    ensures forall i :: 0 <= i < |Slices(s, max)| ==> 0 < |Slices(s, max)[i]| <= max
    decreases |s|
  {
    if |s| > max {
      SlicesFit(s[max..], max);
    }
  }

  lemma {:induction false} FlatPiecesNotEmpty(paragraphs: seq<Text>, max: nat)
    requires max > 0 && forall i :: 0 <= i < |paragraphs| ==> paragraphs[i] != []
    ensures forall i :: 0 <= i < |FlatPieces(paragraphs, max)| ==> FlatPieces(paragraphs, max)[i] != []
    decreases |paragraphs|
  {
    if paragraphs != [] {
      FlatPiecesNotEmpty(paragraphs[1..], max);
      DropEmptyNotEmpty(SplitSentences(paragraphs[0], 0, 0));
      SlicesFit(paragraphs[0], max);
    }
  }

  lemma {:induction false} PiecesNotEmpty(value: Text, max: nat)
    requires max > 0 && Normalized(value) != []
    ensures var pieces := Pieces(Normalized(value), max);
            forall i :: 0 <= i < |pieces| ==> pieces[i] != []
  {
    var n := Normalized(value);
    var t := TrimStart(UnifyLineEnds(value));
    TrimStartEnds(UnifyLineEnds(value));
    TrimEndEnds(t);
    assert n[0] == t[0];
    SplitBlankNotEmpty(n, 0, 0);
    FlatPiecesNotEmpty(SplitBlank(n, 0, 0), max);
  }

  // ---------------------------------------------------------------- what the chunks are

  /** One turn of the packing loop, as what it does to the groups. */
  lemma {:induction false} PackOne(taken: seq<Text>, gs: seq<Group>, open: seq<Text>, pieces: seq<Text>, max: nat)
    returns (gs': seq<Group>, open': seq<Text>)
    requires max > 0 && Packed(taken, gs, open, max) && pieces != [] && pieces[0] != []
    ensures Packed(taken + [pieces[0]], gs', open', max)
    ensures RenderAll(gs', max) + Pack(pieces[1..], max, Join(open')) ==
            RenderAll(gs, max) + Pack(pieces, max, Join(open))
  {
    var piece := pieces[0];
    JoinNext(open, piece);
    JoinOfOpen(open, max);
    PackNext(RenderAll(gs, max), pieces, max, Join(open));
    if |Join(open + [piece])| <= max {
      PackedTake(taken, gs, open, piece, max);
      gs', open' := gs, open + [piece];
    } else {
      gs' := gs;
      if open == [] {
        PackedNone(taken, gs, piece, max);
      } else {
        PackedClose(taken, gs, open, piece, max);
        gs' := gs + [Joined(open)];
      }
      if |piece| <= max {
        PackedOpen(taken, gs', piece, max);
        open' := [piece];
      } else {
        PackedCut(taken, gs', piece, max);
        gs', open' := gs' + [Cut(piece)], [];
      }
    }
  }

  lemma JoinOfOpen(open: seq<Text>, max: nat)
    requires open != [] ==> Fits(Joined(open), max)
    ensures Join(open) == [] <==> open == []
  {
    if open != [] {
      JoinNotEmpty(open);
    }
  }

  /** The packing loop, as the groups it closes. */
  lemma {:induction false} PackGroups(taken: seq<Text>, gs: seq<Group>, open: seq<Text>, pieces: seq<Text>, max: nat)
    returns (all: seq<Group>)
    requires max > 0 && Packed(taken, gs, open, max)
    requires forall i :: 0 <= i < |pieces| ==> pieces[i] != []
    ensures IsPacking(taken + pieces, all, max)
    ensures RenderAll(all, max) == RenderAll(gs, max) + Pack(pieces, max, Join(open))
    decreases |pieces|
  {
    if pieces == [] {
      assert taken + pieces == taken;
      all := PackRest(taken, gs, open, max);
    } else {
      assert taken + pieces == (taken + [pieces[0]]) + pieces[1..];
      var gs', open' := PackOne(taken, gs, open, pieces, max);
      all := PackGroups(taken + [pieces[0]], gs', open', pieces[1..], max);
    }
  }

  lemma PackRest(taken: seq<Text>, gs: seq<Group>, open: seq<Text>, max: nat) returns (all: seq<Group>)
    requires max > 0 && Packed(taken, gs, open, max)
    ensures IsPacking(taken, all, max)
    ensures RenderAll(all, max) == RenderAll(gs, max) + Pack([], max, Join(open))
  {
    PackedEnd(taken, gs, open, max);
    JoinOfOpen(open, max);
    all := if open == [] then gs else gs + [Joined(open)];
  }

  /** A grouping of the pieces of a text that shows as its chunks. */
  ghost predicate Groups(value: Text, gs: seq<Group>, max: nat)
    requires max > 0
  {
    && RenderAll(gs, max) == Chunks(value, max)
    && IsPacking(if Normalized(value) == [] then [] else Pieces(Normalized(value), max), gs, max)
  }

  /** The chunks of a text are a greedy packing of its pieces: the pieces in order, each in exactly one
      chunk or cut on its own, and a closed chunk could not have taken the next piece. */
  lemma {:induction false} ChunksAreAPacking(value: Text, max: nat) returns (gs: seq<Group>)
    requires max > 0
    ensures Groups(value, gs, max)
  {
    gs := [];
    if Normalized(value) != [] {
      var pieces := Pieces(Normalized(value), max);
      PiecesNotEmpty(value, max);
      gs := PackGroups([], [], [], pieces, max);
      assert [] + pieces == pieces;
    }
  }

  /** Every chunk is non-empty and no longer than max. */
  lemma {:induction false} ChunksFit(value: Text, max: nat)
    requires max > 0
    ensures forall i :: 0 <= i < |Chunks(value, max)| ==> 0 < |Chunks(value, max)[i]| <= max
  {
    var gs := ChunksAreAPacking(value, max);
    RenderedFit(gs, max);
  }

  lemma {:induction false} RenderedFit(gs: seq<Group>, max: nat)
    requires max > 0 && forall i :: 0 <= i < |gs| ==> Fits(gs[i], max)
    ensures forall i :: 0 <= i < |RenderAll(gs, max)| ==> 0 < |RenderAll(gs, max)[i]| <= max
    decreases |gs|
  {
    if gs != [] {
      RenderedFit(gs[..|gs| - 1], max);
      match gs[|gs| - 1]
      case Joined(ps) => JoinNotEmpty(ps);
      case Cut(p) => SlicesFit(p, max);
    }
  }

  function Concat(ss: seq<Text>): Text
    decreases |ss|
  {
    if ss == [] then [] else Concat(ss[..|ss| - 1]) + ss[|ss| - 1]
  }

  /** The text without its white space. */
  function Strip(s: Text): Text
    decreases |s|
  {
    if s == [] then []
    else Strip(s[..|s| - 1]) + (if IsSpace(s[|s| - 1]) then [] else [s[|s| - 1]])
  }

  lemma {:induction false} StripAdds(a: Text, b: Text)
    ensures Strip(a + b) == Strip(a) + Strip(b)
    decreases |b|
  {
    if b == [] {
      assert a + b == a;
    } else {
      assert (a + b)[..|a + b| - 1] == a + b[..|b| - 1];
      StripAdds(a, b[..|b| - 1]);
    }
  }

  lemma {:induction false} StripSpaces(s: Text)
    requires forall i :: 0 <= i < |s| ==> IsSpace(s[i])
    ensures Strip(s) == []
    decreases |s|
  {
    if s != [] {
      StripSpaces(s[..|s| - 1]);
    }
  }

  lemma {:induction false} ConcatAdds(xs: seq<Text>, ys: seq<Text>)
    ensures Concat(xs + ys) == Concat(xs) + Concat(ys)
    decreases |ys|
  {
    if ys == [] {
      assert xs + ys == xs;
    } else {
      assert (xs + ys)[..|xs + ys| - 1] == xs + ys[..|ys| - 1];
      ConcatAdds(xs, ys[..|ys| - 1]);
    }
  }

  /** What the text s leaves after stripping, as the pieces ss leave it. */
  predicate SameInk(s: Text, ss: seq<Text>) {
    Strip(Concat(ss)) == Strip(s)
  }

  lemma ConcatOne(s: Text)
    ensures Concat([s]) == s
  {
    assert [s][..0] == [];
    assert [] + s == s;
  }

  lemma {:induction false} InkAdds(s: Text, ss: seq<Text>, t: Text, ts: seq<Text>)
    requires SameInk(s, ss) && SameInk(t, ts)
    ensures SameInk(s + t, ss + ts)
  {
    ConcatAdds(ss, ts);
    StripAdds(Concat(ss), Concat(ts));
    StripAdds(s, t);
  }

  lemma InkOne(s: Text)
    ensures SameInk(s, [s])
  {
    ConcatOne(s);
  }

  lemma {:induction false} UnifyKeepsInk(s: Text)
    ensures Strip(UnifyLineEnds(s)) == Strip(s)
    decreases |s|
  {
    if s == [] {
    } else if |s| >= 2 && s[0] == CARRIAGE_RETURN && s[1] == LINE_FEED {
      UnifyKeepsInk(s[2..]);
      assert s == s[..2] + s[2..];
      StripAdds(s[..2], s[2..]);
      StripSpaces(s[..2]);
      StripSpaces([LINE_FEED]);
      StripAdds([LINE_FEED], UnifyLineEnds(s[2..]));
    } else {
      UnifyKeepsInk(s[1..]);
      assert s == [s[0]] + s[1..];
      StripAdds([s[0]], s[1..]);
      StripAdds([s[0]], UnifyLineEnds(s[1..]));
    }
  }

  lemma {:induction false} TrimStartKeepsInk(s: Text)
    ensures Strip(TrimStart(s)) == Strip(s)
    decreases |s|
  {
    if s != [] && IsSpace(s[0]) {
      TrimStartKeepsInk(s[1..]);
      assert s == [s[0]] + s[1..];
      StripAdds([s[0]], s[1..]);
      StripSpaces([s[0]]);
    }
  }

  lemma {:induction false} TrimEndKeepsInk(s: Text)
    ensures Strip(TrimEnd(s)) == Strip(s)
    decreases |s|
  {
    if s != [] && IsSpace(s[|s| - 1]) {
      TrimEndKeepsInk(s[..|s| - 1]);
    }
  }

  /** A cut [p..q], then only spaces up to e, then the pieces of the rest. */
  lemma {:induction false} InkCut(s: Text, p: nat, q: nat, e: nat, rest: seq<Text>)
    requires p <= q <= e <= |s| && (forall i :: q <= i < e ==> IsSpace(s[i])) && SameInk(s[e..], rest)
    ensures SameInk(s[p..], [s[p..q]] + rest)
  {
    var head, gap, tail := s[p..q], s[q..e], s[e..];
    assert s[p..] == head + (gap + tail);
    StripAdds(gap, tail);
    StripSpaces(gap);
    assert Strip(gap + tail) == Strip(tail);
    InkOne(head);
    assert SameInk(gap + tail, rest);
    InkAdds(head, [head], gap + tail, rest);
  }

  lemma {:induction false} SplitBlankKeepsInk(s: Text, p: nat, q: nat)
    requires p <= q <= |s|
    ensures SameInk(s[p..], SplitBlank(s, p, q))
    decreases |s| - q
  {
    if q == |s| {
      InkOne(s[p..]);
    } else if q + 1 < |s| && s[q] == LINE_FEED && s[q + 1] == LINE_FEED {
      var e := SkipLineFeeds(s, q);
      SplitBlankKeepsInk(s, e, e);
      InkCut(s, p, q, e, SplitBlank(s, e, e));
    } else {
      SplitBlankKeepsInk(s, p, q + 1);
    }
  }

  lemma {:induction false} SplitSentencesKeepsInk(s: Text, p: nat, q: nat)
    requires p <= q <= |s|
    ensures SameInk(s[p..], SplitSentences(s, p, q))
    decreases |s| - q, |s| - p
  {
    if q == |s| {
      InkOne(s[p..]);
    } else if p < q && EndsSentence(s[q - 1]) {
      var e := SkipSpaces(s, q);
      SplitSentencesKeepsInk(s, e, e);
      InkCut(s, p, q, e, SplitSentences(s, e, e));
    } else {
      SplitSentencesKeepsInk(s, p, q + 1);
    }
  }

  lemma {:induction false} DropEmptyKeepsInk(ss: seq<Text>)
    ensures Concat(DropEmpty(ss)) == Concat(ss)
    decreases |ss|
  {
    if ss != [] {
      DropEmptyKeepsInk(ss[1..]);
      assert ss == [ss[0]] + ss[1..];
      ConcatAdds([ss[0]], ss[1..]);
      ConcatOne(ss[0]);
      if ss[0] == [] {
        assert [] + Concat(ss[1..]) == Concat(ss[1..]);
        assert [] + DropEmpty(ss[1..]) == DropEmpty(ss[1..]);
      } else {
        ConcatAdds([ss[0]], DropEmpty(ss[1..]));
      }
    }
  }

  lemma {:induction false} SlicesConcat(s: Text, max: nat)
    requires max > 0
    ensures Concat(Slices(s, max)) == s
    decreases |s|
  {
    if s == [] {
    } else if |s| <= max {
      ConcatOne(s);
    } else {
      SlicesConcat(s[max..], max);
      ConcatAdds([s[..max]], Slices(s[max..], max));
      ConcatOne(s[..max]);
    }
  }

  lemma {:induction false} PiecesOfKeepInk(paragraph: Text, max: nat)
    requires max > 0
    ensures SameInk(paragraph, PiecesOf(paragraph, max))
  {
    InkOne(paragraph);
    SlicesConcat(paragraph, max);
    SplitSentencesKeepsInk(paragraph, 0, 0);
    assert paragraph[0..] == paragraph;
    DropEmptyKeepsInk(SplitSentences(paragraph, 0, 0));
  }

  lemma {:induction false} FlatPiecesKeepInk(paragraphs: seq<Text>, max: nat)
    requires max > 0
    ensures Strip(Concat(FlatPieces(paragraphs, max))) == Strip(Concat(paragraphs))
    decreases |paragraphs|
  {
    if paragraphs != [] {
      FlatPiecesKeepInk(paragraphs[1..], max);
      PiecesOfKeepInk(paragraphs[0], max);
      InkAdds(paragraphs[0], PiecesOf(paragraphs[0], max), Concat(paragraphs[1..]), FlatPieces(paragraphs[1..], max));
      assert paragraphs == [paragraphs[0]] + paragraphs[1..];
      ConcatAdds([paragraphs[0]], paragraphs[1..]);
      ConcatOne(paragraphs[0]);
    }
  }

  lemma {:induction false} JoinKeepsInk(ps: seq<Text>)
    ensures Strip(Join(ps)) == Strip(Concat(ps))
    decreases |ps|
  {
    if |ps| == 1 {
      assert ps == [ps[0]];
      ConcatOne(ps[0]);
    } else if |ps| > 1 {
      var n := |ps| - 1;
      JoinKeepsInk(ps[..n]);
      StripAdds(Join(ps[..n]) + BLANK_LINE, ps[n]);
      StripAdds(Join(ps[..n]), BLANK_LINE);
      StripSpaces(BLANK_LINE);
      StripAdds(Concat(ps[..n]), ps[n]);
      assert Strip(Join(ps[..n])) + [] == Strip(Join(ps[..n]));
    }
  }

  lemma {:induction false} RenderKeepsInk(gs: seq<Group>, max: nat)
    requires max > 0
    ensures Strip(Concat(RenderAll(gs, max))) == Strip(Concat(AllMembers(gs)))
    decreases |gs|
  {
    if gs != [] {
      var n := |gs| - 1;
      RenderKeepsInk(gs[..n], max);
      var g := gs[n];
      ConcatAdds(RenderAll(gs[..n], max), Render(g, max));
      ConcatAdds(AllMembers(gs[..n]), Members(g));
      StripAdds(Concat(RenderAll(gs[..n], max)), Concat(Render(g, max)));
      StripAdds(Concat(AllMembers(gs[..n])), Concat(Members(g)));
      match g
      case Joined(ps) =>
        JoinKeepsInk(ps);
        ConcatOne(Join(ps));
      case Cut(p) =>
        SlicesConcat(p, max);
        ConcatOne(p);
    }
  }

  /** Nothing is lost, duplicated or reordered: up to white space, the chunks of a text concatenate to
      the text. */
  lemma {:induction false} ChunksAreTheText(value: Text, max: nat)
    requires max > 0
    ensures Strip(Concat(Chunks(value, max))) == Strip(value)
  {
    var gs := ChunksAreAPacking(value, max);
    var u := UnifyLineEnds(value);
    UnifyKeepsInk(value);
    TrimStartKeepsInk(u);
    TrimEndKeepsInk(TrimStart(u));
    var n := Normalized(value);
    assert Strip(n) == Strip(value);
    if n != [] {
      RenderKeepsInk(gs, max);
      FlatPiecesKeepInk(SplitBlank(n, 0, 0), max);
      SplitBlankKeepsInk(n, 0, 0);
      assert n[0..] == n;
    }
  }
}
