/** Streamed blocks as they come out: texts and tool inputs in the order in which they were cut, and stop reasons. */
module ClaudeBlocks {
  import opened ClaudeStream
  import opened Sequences
  import opened Wrappers

  /** Pieces put together again, the last one at the end. */
  function Together(pieces: seq<string>): string {
    if pieces == [] then "" else Together(pieces[..|pieces| - 1]) + pieces[|pieces| - 1]
  }

  lemma {:induction false} TogetherFirst(pieces: seq<string>)
    requires pieces != []
    ensures Together(pieces) == pieces[0] + Together(pieces[1..])
  {
    if |pieces| == 1 {
      assert pieces[..0] == [] && pieces[1..] == [] && "" + pieces[0] == pieces[0] + "";
    } else {
      var init, last := pieces[..|pieces| - 1], pieces[|pieces| - 1];
      TogetherFirst(init);
      assert init[1..] == pieces[1..][..|pieces| - 2];
      ConcatIsAssociative(pieces[0], Together(init[1..]), last);
    }
  }

  function TextDeltas(pieces: seq<string>): seq<Delta> {
    seq(|pieces|, i requires 0 <= i < |pieces| => TextDelta(pieces[i]))
  }

  function JsonDeltas(pieces: seq<string>): seq<Delta> {
    seq(|pieces|, i requires 0 <= i < |pieces| => JsonDelta(pieces[i]))
  }

  lemma {:induction false} TextDeltasTell(pieces: seq<string>)
    ensures Texts(TextDeltas(pieces)) == Together(pieces) && Partials(TextDeltas(pieces)) == ""
  {
    if pieces != [] {
      TextDeltasTell(pieces[1..]);
      TogetherFirst(pieces);
      assert TextDeltas(pieces)[1..] == TextDeltas(pieces[1..]);
    }
  }

  lemma {:induction false} JsonDeltasTell(pieces: seq<string>)
    ensures Partials(JsonDeltas(pieces)) == Together(pieces) && Texts(JsonDeltas(pieces)) == ""
  {
    if pieces != [] {
      JsonDeltasTell(pieces[1..]);
      TogetherFirst(pieces);
      assert JsonDeltas(pieces)[1..] == JsonDeltas(pieces[1..]);
    }
  }

  /** In the middle of a message, between two blocks. */
  predicate BetweenBlocks(s: State) {
    s.record && s.message.Some? && s.block == NO_BLOCK && s.buffer == ""
  }

  /** The state with one more block in the message. */
  function WithBlock(s: State, block: Block): State
    requires s.message.Some?
  {
    s.(message := Some(s.message.value.(content := s.message.value.content + [block])))
  }

  /** A text block arrives with its first text and then all pieces in order, and otherwise as it was opened. */
  lemma TextArrives(parse: Parser, s: State, start: Block, before: string, pieces: seq<string>)
    requires BetweenBlocks(s) && start.kind == Some(Text) && start.text == Some(before)
    ensures Run(parse, s, [BlockStart(start)] + TextDeltas(pieces) + [BlockStop])
         == Step(WithBlock(s, start.(text := Some(before + Together(pieces)))), false)
  {
    TextDeltasTell(pieces);
    BlockAppended(parse, s, Cut(start, TextDeltas(pieces)));
  }

  /**
    A tool block arrives with what the pieces of its input, put together in order, parse to, or with their text if it
    does not parse; with no input sent, it arrives as it was opened.
   */
  lemma ToolInputArrives(parse: Parser, s: State, start: Block, pieces: seq<string>)
    requires BetweenBlocks(s) && start.kind == Some(ToolUse)
    ensures var text := Together(pieces);
            var input := if text == "" then start.input
                         else if parse(text).Some? then Some(Parsed(parse(text).value))
                         else Some(Unparsed(text));
            Run(parse, s, [BlockStart(start)] + JsonDeltas(pieces) + [BlockStop])
            == Step(WithBlock(s, start.(input := input)), false)
  {
    JsonDeltasTell(pieces);
    assert start.text.Some? ==> start.text.value + "" == start.text.value;
    BlockAppended(parse, s, Cut(start, JsonDeltas(pieces)));
  }

  /** A stop reason that is given last is the one that is left. */
  lemma {:induction false} LastReasonStays(before: Option<string>, reasons: seq<Option<string>>)
    ensures (forall i | 0 <= i < |reasons| :: reasons[i].None?) ==> LastReason(before, reasons) == before
    ensures forall i | 0 <= i < |reasons| && reasons[i].Some? && (forall j | i < j < |reasons| :: reasons[j].None?) ::
              LastReason(before, reasons) == reasons[i]
    decreases |reasons|
  {
    if reasons != [] {
      var first := if reasons[0].Some? then reasons[0] else before;
      LastReasonStays(first, reasons[1..]);
      forall i | 0 <= i < |reasons| && reasons[i].Some? && (forall j | i < j < |reasons| :: reasons[j].None?)
        ensures LastReason(before, reasons) == reasons[i]
      {
        if i > 0 {
          assert reasons[1..][i - 1] == reasons[i];
        }
      }
    }
  }

  /** What the callback is handed of a message of one text block, from the first chunk to the last. */
  lemma MessageArrives(parse: Parser, s: State, start: Block, pieces: seq<string>, reason: Option<string>)
    requires Idle(s) && start.kind == Some(Text) && start.text == Some("")
    ensures var block := [BlockStart(start)] + TextDeltas(pieces) + [BlockStop];
            var step := Run(parse, s, [MessageStart(Some("assistant"), [])] + block + [MessageDelta(reason)]
                                      + [MessageStop]);
            && !step.raised && Idle(step.state) && |step.state.handed| == |s.handed| + 1
            && step.state.handed[|s.handed|] ==
                 Response(if reason.Some? then reason else s.response.stopReason,
                          Some(Message("assistant", [start.(text := Some(Together(pieces)))])))
  {
    var c := Cut(start, TextDeltas(pieces));
    TextDeltasTell(pieces);
    assert Reasons([reason]) == [MessageDelta(reason)];
    assert ContentChunks([c]) == BlockChunks(c) + [] == BlockChunks(c);
    assert Wholes(parse, [c]) == [Whole(parse, c)];
    assert [] + [Whole(parse, c)] == [Whole(parse, c)];
    assert "" + Together(pieces) == Together(pieces);
    LastReasonStays(s.response.stopReason, [reason]);
    ChunksRebuild(parse, s, [], [c], [reason]);
  }
}
