/** Reassembling an assistant message from the chunks of a Claude response stream. */
module ClaudeStream {
  import opened Sequences
  import opened Wrappers

  /** A parsed JSON value; nothing is assumed of what parsing yields. */
  datatype Json = Json(id: int)

  datatype Input = Parsed(json: Json) | Unparsed(text: string)

  datatype Kind = Text | ToolUse | OtherKind

  /** A content block dictionary. */
  datatype Block = Block(kind: Option<Kind>, text: Option<string>, input: Option<Input>, id: string, name: string)

  const NO_BLOCK := Block(None, None, None, "", "")

  datatype Message = Message(role: string, content: seq<Block>)

  datatype Response = Response(stopReason: Option<string>, output: Option<Message>)

  datatype Chunk =
    | Untyped
    | OtherType
    | MessageStart(role: Option<string>, content: seq<Block>)
    | BlockStart(block: Block)
    | TextDelta(text: string)
    | JsonDelta(partial: string)
    | OtherDelta(carried: string)
    | BlockStop
    | MessageDelta(reason: Option<string>)
    | MessageStop

  /** The value of an assembler; `handed` are the responses given to the callback so far. */
  datatype State = State(record: bool, message: Option<Message>, block: Block, buffer: string, response: Response,
                         handed: seq<Response>)

  datatype Step = Step(state: State, raised: bool)

  type Parser = string -> Option<Json>

  function InputOf(parse: Parser, text: string): Input {
    var json := parse(text);
    if json.Some? then Parsed(json.value) else Unparsed(text)
  }

  function WithInput(parse: Parser, block: Block, buffer: string): Block {
    if buffer == "" then block else block.(input := Some(InputOf(parse, buffer)))
  }

  predicate IsKnown(block: Block) { block.kind == Some(Text) || block.kind == Some(ToolUse) }

  function Process(parse: Parser, s: State, chunk: Chunk): Step {
    match chunk
    case Untyped => Step(s, false)
    case OtherType => Step(s, false)
    case MessageStart(role, content) =>
      Step(if role == Some("assistant") then s.(record := true, message := Some(Message("assistant", content))) else s,
           false)
    case BlockStart(block) =>
      Step(if s.record && IsKnown(block) then s.(block := block) else s, false)
    case TextDelta(text) =>
      if !s.record then Step(s, false)
      else if s.block.text.None? then Step(s, true)
      else Step(s.(block := s.block.(text := Some(s.block.text.value + text))), false)
    case JsonDelta(partial) => Step(if s.record then s.(buffer := s.buffer + partial) else s, false)
    case OtherDelta(_) => Step(s, false)
    case BlockStop =>
      var block := WithInput(parse, s.block, s.buffer);
      if s.message.None? then Step(s.(block := block), true)
      else
        var m := s.message.value;
        Step(s.(message := Some(m.(content := m.content + [block])), block := NO_BLOCK, buffer := ""), false)
    case MessageDelta(reason) =>
      Step(if reason.Some? then s.(response := s.response.(stopReason := reason)) else s, false)
    case MessageStop =>
      var response := if s.record then s.response.(output := s.message) else s.response;
      Step(State(false, if s.record then None else s.message, s.block, s.buffer, response, s.handed + [response]),
           false)
  }

  class Assembler {
    const parse: Parser
    var recordMessage: bool
    var message: Option<Message>
    var contentBlock: Block
    var toolJsonInputBuf: string
    var response: Response
    var handed: seq<Response>

    function View(): State
      reads this
    {
      State(recordMessage, message, contentBlock, toolJsonInputBuf, response, handed)
    }

    constructor (parse: Parser)
      ensures View() == FRESH && this.parse == parse
    {
      this.parse := parse;
      recordMessage, message, contentBlock, toolJsonInputBuf := false, None, NO_BLOCK, "";
      response, handed := Response(None, None), [];
    }

    method ProcessChunk(chunk: Chunk) returns (raised: bool)
      modifies this
      ensures Step(View(), raised) == Process(parse, old(View()), chunk)
    {
      raised := false;
      match chunk {
        case Untyped =>
        case OtherType =>
        case MessageStart(role, content) =>
          if role == Some("assistant") {
            recordMessage := true;
            message := Some(Message("assistant", content));
          }
        case BlockStart(block) =>
          if recordMessage {
            if block.kind == Some(Text) {
              contentBlock := block;
            } else if block.kind == Some(ToolUse) {
              contentBlock := block;
            }
          }
        case TextDelta(text) =>
          if recordMessage {
            if contentBlock.text.None? {
              return true;
            }
            contentBlock := contentBlock.(text := Some(contentBlock.text.value + text));
          }
        case JsonDelta(partial) =>
          if recordMessage {
            toolJsonInputBuf := toolJsonInputBuf + partial;
          }
        case OtherDelta(_) =>
        case BlockStop =>
          if toolJsonInputBuf != "" {
            var json := parse(toolJsonInputBuf);
            contentBlock := contentBlock.(
              input := Some(if json.Some? then Parsed(json.value) else Unparsed(toolJsonInputBuf)));
          }
          if message.None? {
            return true;
          }
          message := Some(message.value.(content := message.value.content + [contentBlock]));
          contentBlock := NO_BLOCK;
          toolJsonInputBuf := "";
        case MessageDelta(reason) =>
          if reason.Some? {
            response := response.(stopReason := reason);
          }
        case MessageStop =>
          if recordMessage {
            response := response.(output := message);
            recordMessage := false;
            message := None;
          }
          handed := handed + [response];
      }
    }
  }

  const FRESH := State(false, None, NO_BLOCK, "", Response(None, None), [])

  // ---------- Runs ----------

  /** Chunks one after another, until one raises. */
  function Run(parse: Parser, s: State, chunks: seq<Chunk>): Step
    decreases |chunks|
  {
    if chunks == [] then Step(s, false)
    else
      var step := Process(parse, s, chunks[0]);
      if step.raised then step else Run(parse, step.state, chunks[1..])
  }

  lemma {:induction false} RunSplits(parse: Parser, s: State, a: seq<Chunk>, b: seq<Chunk>)
    ensures Run(parse, s, a + b) ==
              if Run(parse, s, a).raised then Run(parse, s, a) else Run(parse, Run(parse, s, a).state, b)
    decreases |a|
  {
    if a == [] {
      assert a + b == b;
    } else {
      assert (a + b)[1..] == a[1..] + b;
      RunSplits(parse, Process(parse, s, a[0]).state, a[1..], b);
    }
  }

  /**
    Chunks that are passed over whatever the state.  The start of a block that is neither text nor tool is one; its stop
    is not.
   */
  predicate IsNoise(chunk: Chunk) {
    || chunk.Untyped? || chunk.OtherType? || chunk.OtherDelta?
    || (chunk.BlockStart? && !IsKnown(chunk.block))
  }

  function WithoutNoise(chunks: seq<Chunk>): seq<Chunk> {
    if chunks == [] then []
    else (if IsNoise(chunks[0]) then [] else [chunks[0]]) + WithoutNoise(chunks[1..])
  }

  lemma {:induction false} NoiseIsPassedOver(parse: Parser, s: State, chunks: seq<Chunk>)
    ensures Run(parse, s, chunks) == Run(parse, s, WithoutNoise(chunks))
    decreases |chunks|
  {
    if chunks != [] {
      var rest := WithoutNoise(chunks[1..]);
      NoiseIsPassedOver(parse, Process(parse, s, chunks[0]).state, chunks[1..]);
      assert ([chunks[0]] + rest)[1..] == rest;
      assert [] + rest == rest;
    }
  }

  /** Chunks that differ in what is passed over only. */
  predicate SameButNoise(a: seq<Chunk>, b: seq<Chunk>) { WithoutNoise(a) == WithoutNoise(b) }

  // ---------- Messages cut into chunks ----------

  predicate IsDelta(chunk: Chunk) { chunk.TextDelta? || chunk.JsonDelta? || chunk.OtherDelta? }

  type Delta = chunk: Chunk | IsDelta(chunk) witness OtherDelta("")

  /** How one block is sent: its opening dictionary, and the deltas that follow. */
  datatype Cut = Cut(start: Block, deltas: seq<Delta>)

  /** What a cut opens: a text or tool block, or nothing. */
  function Opened(c: Cut): Block { if IsKnown(c.start) then c.start else NO_BLOCK }

  /** Text is only sent for blocks that have some. */
  predicate ProperCut(c: Cut) {
    Opened(c).text.Some? || forall i | 0 <= i < |c.deltas| :: !c.deltas[i].TextDelta?
  }

  function Texts(deltas: seq<Delta>): string {
    if deltas == [] then ""
    else (if deltas[0].TextDelta? then deltas[0].text else "") + Texts(deltas[1..])
  }

  function Partials(deltas: seq<Delta>): string {
    if deltas == [] then ""
    else (if deltas[0].JsonDelta? then deltas[0].partial else "") + Partials(deltas[1..])
  }

  /** What deltas of other types carry, such as citations. */
  function Others(deltas: seq<Delta>): seq<string> {
    if deltas == [] then []
    else (if deltas[0].OtherDelta? then [deltas[0].carried] else []) + Others(deltas[1..])
  }

  function WithText(block: Block, text: string): Block {
    if block.text.Some? then block.(text := Some(block.text.value + text)) else block
  }

  function Assembled(parse: Parser, block: Block, deltas: seq<Delta>): Block {
    WithInput(parse, WithText(block, Texts(deltas)), Partials(deltas))
  }

  function BlockChunks(c: Cut): seq<Chunk> { [BlockStart(c.start)] + c.deltas + [BlockStop] }

  function ContentChunks(cuts: seq<Cut>): seq<Chunk> {
    if cuts == [] then [] else BlockChunks(cuts[0]) + ContentChunks(cuts[1..])
  }

  /** What a cut adds to a message: the block it is a cutting of, or one that knows nothing of how it was opened. */
  function Whole(parse: Parser, c: Cut): Block { Assembled(parse, Opened(c), c.deltas) }

  function Wholes(parse: Parser, cuts: seq<Cut>): seq<Block> {
    if cuts == [] then [] else [Whole(parse, cuts[0])] + Wholes(parse, cuts[1..])
  }

  function Reasons(reasons: seq<Option<string>>): seq<Chunk> {
    seq(|reasons|, i requires 0 <= i < |reasons| => MessageDelta(reasons[i]))
  }

  /** A whole message: its start, its blocks, any number of message deltas, its stop. */
  function MessageChunks(role: Option<string>, content: seq<Block>, cuts: seq<Cut>, reasons: seq<Option<string>>)
    : seq<Chunk>
  {
    [MessageStart(role, content)] + ContentChunks(cuts) + Reasons(reasons) + [MessageStop]
  }

  /** The last stop reason given, or the one there was. */
  function LastReason(before: Option<string>, reasons: seq<Option<string>>): Option<string>
    decreases |reasons|
  {
    if reasons == [] then before
    else LastReason(if reasons[0].Some? then reasons[0] else before, reasons[1..])
  }

  predicate Idle(s: State) { !s.record && s.message.None? && s.block == NO_BLOCK && s.buffer == "" }

  lemma {:induction false} DeltasGather(parse: Parser, s: State, deltas: seq<Delta>)
    requires s.record && (s.block.text.Some? || forall i | 0 <= i < |deltas| :: !deltas[i].TextDelta?)
    ensures Run(parse, s, deltas)
         == Step(s.(block := WithText(s.block, Texts(deltas)), buffer := s.buffer + Partials(deltas)), false)
    decreases |deltas|
  {
    if deltas == [] {
      assert s.buffer + "" == s.buffer;
      assert s.block.text.Some? ==> s.block.text.value + "" == s.block.text.value;
    } else {
      var next, rest := Process(parse, s, deltas[0]).state, deltas[1..];
      assert !Process(parse, s, deltas[0]).raised && Run(parse, s, deltas) == Run(parse, next, rest);
      DeltasGather(parse, next, rest);
      OneMoreDelta(s, deltas);
    }
  }

  /** Gathering the first delta and then the others is gathering them all. */
  lemma {:induction false} OneMoreDelta(s: State, deltas: seq<Delta>)
    requires deltas != [] && (s.block.text.Some? || !deltas[0].TextDelta?)
    ensures var first, rest := deltas[0], deltas[1..];
            var block := if first.TextDelta? then WithText(s.block, first.text) else s.block;
            var buffer := if first.JsonDelta? then s.buffer + first.partial else s.buffer;
            && WithText(block, Texts(rest)) == WithText(s.block, Texts(deltas))
            && buffer + Partials(rest) == s.buffer + Partials(deltas)
  {
    var first, rest := deltas[0], deltas[1..];
    if first.TextDelta? {
      ConcatIsAssociative(s.block.text.value, first.text, Texts(rest));
    } else {
      assert "" + Texts(rest) == Texts(rest);
    }
    if first.JsonDelta? {
      ConcatIsAssociative(s.buffer, first.partial, Partials(rest));
    } else {
      assert "" + Partials(rest) == Partials(rest);
    }
  }

  lemma RunOfOne(parse: Parser, s: State, chunk: Chunk)
    ensures Run(parse, s, [chunk]) == Process(parse, s, chunk)
  {
    assert [chunk][1..] == [];
  }

  lemma RunsOn(parse: Parser, s: State, a: seq<Chunk>, b: seq<Chunk>, between: State)
    requires Run(parse, s, a) == Step(between, false)
    ensures Run(parse, s, a + b) == Run(parse, between, b)
  {
    RunSplits(parse, s, a, b);
  }

  /** While a message is being recorded, the chunks of one block append that block and leave nothing behind. */
  lemma BlockAppended(parse: Parser, s: State, c: Cut)
    requires s.record && s.message.Some? && s.block == NO_BLOCK && s.buffer == "" && ProperCut(c)
    ensures var m := s.message.value;
            Run(parse, s, BlockChunks(c)) ==
              Step(s.(message := Some(m.(content := m.content + [Whole(parse, c)]))), false)
  {
    var begun := Process(parse, s, BlockStart(c.start)).state;
    assert begun == s.(block := Opened(c));
    DeltasGather(parse, begun, c.deltas);
    assert "" + Partials(c.deltas) == Partials(c.deltas);
    var gathered := Run(parse, begun, c.deltas).state;
    RunOfOne(parse, s, BlockStart(c.start));
    RunsOn(parse, s, [BlockStart(c.start)], c.deltas, begun);
    RunsOn(parse, s, [BlockStart(c.start)] + c.deltas, [BlockStop], gathered);
    RunOfOne(parse, gathered, BlockStop);
  }

  lemma {:induction false} TextWithoutPlaceRaises(parse: Parser, s: State, deltas: seq<Delta>)
    requires s.record && s.block.text.None? && exists i :: 0 <= i < |deltas| && deltas[i].TextDelta?
    ensures Run(parse, s, deltas).raised
    decreases |deltas|
  {
    if !deltas[0].TextDelta? {
      var i :| 0 <= i < |deltas| && deltas[i].TextDelta?;
      assert deltas[1..][i - 1].TextDelta?;
      TextWithoutPlaceRaises(parse, Process(parse, s, deltas[0]).state, deltas[1..]);
    }
  }

  /** While a message is being recorded, the chunks of a block raise exactly if they hold text for a block without. */
  lemma BlockRaisesExactly(parse: Parser, s: State, c: Cut)
    requires s.record && s.message.Some? && s.block == NO_BLOCK && s.buffer == ""
    ensures Run(parse, s, BlockChunks(c)).raised <==> !ProperCut(c)
  {
    if ProperCut(c) {
      BlockAppended(parse, s, c);
    } else {
      var begun := Process(parse, s, BlockStart(c.start)).state;
      TextWithoutPlaceRaises(parse, begun, c.deltas);
      RunOfOne(parse, s, BlockStart(c.start));
      RunsOn(parse, s, [BlockStart(c.start)], c.deltas, begun);
      RunSplits(parse, s, [BlockStart(c.start)] + c.deltas, [BlockStop]);
    }
  }

  lemma {:induction false} ContentAppended(parse: Parser, s: State, cuts: seq<Cut>)
    requires s.record && s.message.Some? && s.block == NO_BLOCK && s.buffer == ""
    requires forall i | 0 <= i < |cuts| :: ProperCut(cuts[i])
    ensures var m := s.message.value;
            Run(parse, s, ContentChunks(cuts)) ==
              Step(s.(message := Some(m.(content := m.content + Wholes(parse, cuts)))), false)
    decreases |cuts|
  {
    var m := s.message.value;
    if cuts == [] {
      assert m.content + [] == m.content;
    } else {
      BlockAppended(parse, s, cuts[0]);
      RunSplits(parse, s, BlockChunks(cuts[0]), ContentChunks(cuts[1..]));
      ContentAppended(parse, Run(parse, s, BlockChunks(cuts[0])).state, cuts[1..]);
      ConcatIsAssociative(m.content, [Whole(parse, cuts[0])], Wholes(parse, cuts[1..]));
    }
  }

  lemma {:induction false} ReasonsTaken(parse: Parser, s: State, reasons: seq<Option<string>>)
    ensures Run(parse, s, Reasons(reasons))
         == Step(s.(response := s.response.(stopReason := LastReason(s.response.stopReason, reasons))), false)
    decreases |reasons|
  {
    if reasons != [] {
      assert Reasons(reasons)[1..] == Reasons(reasons[1..]);
      ReasonsTaken(parse, Process(parse, s, MessageDelta(reasons[0])).state, reasons[1..]);
    }
  }

  /** What a whole assistant message does to an idle assembler. */
  function AfterMessage(parse: Parser, s: State, content: seq<Block>, cuts: seq<Cut>, reasons: seq<Option<string>>)
    : State
  {
    var response := Response(LastReason(s.response.stopReason, reasons),
                             Some(Message("assistant", content + Wholes(parse, cuts))));
    s.(response := response, handed := s.handed + [response])
  }

  lemma ChunksRebuild(parse: Parser, s: State, content: seq<Block>, cuts: seq<Cut>, reasons: seq<Option<string>>)
    requires Idle(s) && forall i | 0 <= i < |cuts| :: ProperCut(cuts[i])
    ensures Run(parse, s, MessageChunks(Some("assistant"), content, cuts, reasons))
         == Step(AfterMessage(parse, s, content, cuts, reasons), false)
  {
    var start, body := MessageStart(Some("assistant"), content), ContentChunks(cuts);
    var s1 := Process(parse, s, start).state;
    RunOfOne(parse, s, start);
    ContentAppended(parse, s1, cuts);
    var s2 := Run(parse, s1, body).state;
    RunsOn(parse, s, [start], body, s1);
    ReasonsTaken(parse, s2, reasons);
    var s3 := Run(parse, s2, Reasons(reasons)).state;
    RunsOn(parse, s, [start] + body, Reasons(reasons), s2);
    RunsOn(parse, s, [start] + body + Reasons(reasons), [MessageStop], s3);
    RunOfOne(parse, s3, MessageStop);
  }

  /**
    However the blocks of an assistant message are cut into deltas, and whatever noise comes between the chunks, an idle
    assembler rebuilds the message, hands it on once, and is idle again.
   */
  lemma MessageRebuilt(parse: Parser, s: State, chunks: seq<Chunk>, content: seq<Block>, cuts: seq<Cut>,
                       reasons: seq<Option<string>>)
    requires Idle(s) && forall i | 0 <= i < |cuts| :: ProperCut(cuts[i])
    requires SameButNoise(chunks, MessageChunks(Some("assistant"), content, cuts, reasons))
    ensures Run(parse, s, chunks) == Step(AfterMessage(parse, s, content, cuts, reasons), false)
    ensures Idle(AfterMessage(parse, s, content, cuts, reasons))
  {
    NoiseIsPassedOver(parse, s, chunks);
    NoiseIsPassedOver(parse, s, MessageChunks(Some("assistant"), content, cuts, reasons));
    ChunksRebuild(parse, s, content, cuts, reasons);
  }

  // ---------- What is lost ----------

  /** A block as it was sent, with what deltas of other types said of it. */
  datatype Sent = Sent(block: Block, others: seq<string>)

  function SentAs(parse: Parser, cuts: seq<Cut>): seq<Sent> {
    seq(|cuts|, i requires 0 <= i < |cuts| =>
          Sent(Assembled(parse, cuts[i].start, cuts[i].deltas), Others(cuts[i].deltas)))
  }

  function Received(blocks: seq<Block>): seq<Sent> {
    seq(|blocks|, i requires 0 <= i < |blocks| => Sent(blocks[i], []))
  }

  /** No other deltas, and a text or tool block or one opened with nothing that lasts. */
  predicate NothingToLose(c: Cut) {
    && Others(c.deltas) == []
    && (IsKnown(c.start) || c.start.(input := if Partials(c.deltas) == "" then c.start.input else None) == NO_BLOCK)
  }

  lemma {:induction false} WholeAt(parse: Parser, cuts: seq<Cut>, i: nat)
    requires i < |cuts|
    ensures |Wholes(parse, cuts)| == |cuts| && Wholes(parse, cuts)[i] == Whole(parse, cuts[i])
  {
    if |cuts| > 1 {
      WholeAt(parse, cuts[1..], if i == 0 then 0 else i - 1);
    }
  }

  lemma {:induction false} NoTextDeltas(deltas: seq<Delta>)
    requires forall i | 0 <= i < |deltas| :: !deltas[i].TextDelta?
    ensures Texts(deltas) == ""
  {
    if deltas != [] {
      NoTextDeltas(deltas[1..]);
    }
  }

  lemma BlockAsSentExactly(parse: Parser, c: Cut)
    requires ProperCut(c)
    ensures Sent(Whole(parse, c), []) == Sent(Assembled(parse, c.start, c.deltas), Others(c.deltas)) <==>
              NothingToLose(c)
  {
    if !IsKnown(c.start) {
      NoTextDeltas(c.deltas);
      assert c.start.text.Some? ==> c.start.text.value + "" == c.start.text.value;
    }
  }

  /** The content of a message is rebuilt as it was sent if and only if none of its blocks has anything to lose. */
  lemma {:induction false} RebuiltAsSentExactly(parse: Parser, cuts: seq<Cut>)
    requires forall i | 0 <= i < |cuts| :: ProperCut(cuts[i])
    ensures Received(Wholes(parse, cuts)) == SentAs(parse, cuts) <==>
              forall i | 0 <= i < |cuts| :: NothingToLose(cuts[i])
  {
    var received, sent := Received(Wholes(parse, cuts)), SentAs(parse, cuts);
    forall i | 0 <= i < |cuts|
      ensures |received| == |cuts| && (received[i] == sent[i] <==> NothingToLose(cuts[i]))
    {
      WholeAt(parse, cuts, i);
      BlockAsSentExactly(parse, cuts[i]);
    }
    if forall i | 0 <= i < |cuts| :: NothingToLose(cuts[i]) {
      assert forall i | 0 <= i < |cuts| :: received[i] == sent[i];
    } else {
      var i :| 0 <= i < |cuts| && !NothingToLose(cuts[i]);
      assert received[i] != sent[i];
    }
  }

  /** A block opened with another type has something to lose, and so has one with other deltas. */
  lemma {:induction false} TypedBlocksAreLost(parse: Parser, cuts: seq<Cut>)
    requires forall i | 0 <= i < |cuts| :: ProperCut(cuts[i])
    requires forall i | 0 <= i < |cuts| :: cuts[i].start.kind.Some?
    ensures Received(Wholes(parse, cuts)) == SentAs(parse, cuts) <==>
              forall i | 0 <= i < |cuts| :: IsKnown(cuts[i].start) && Others(cuts[i].deltas) == []
    ensures forall i | 0 <= i < |cuts| && !IsKnown(cuts[i].start) && Partials(cuts[i].deltas) == "" ::
              Whole(parse, cuts[i]) == NO_BLOCK
  {
    RebuiltAsSentExactly(parse, cuts);
    assert forall i | 0 <= i < |cuts| ::
             NothingToLose(cuts[i]) <==> IsKnown(cuts[i].start) && Others(cuts[i].deltas) == [];
  }

  /** A message as it is sent. */
  datatype Sending = Sending(chunks: seq<Chunk>, content: seq<Block>, cuts: seq<Cut>, reasons: seq<Option<string>>)

  predicate Sends(m: Sending) {
    && (forall i | 0 <= i < |m.cuts| :: ProperCut(m.cuts[i]))
    && SameButNoise(m.chunks, MessageChunks(Some("assistant"), m.content, m.cuts, m.reasons))
  }

  /** Chunks that say nothing at all. */
  predicate IsEmptyChunk(chunk: Chunk) { chunk.Untyped? || chunk.OtherType? }

  function WithoutEmpty(chunks: seq<Chunk>): seq<Chunk> {
    if chunks == [] then []
    else (if IsEmptyChunk(chunks[0]) then [] else [chunks[0]]) + WithoutEmpty(chunks[1..])
  }

  lemma {:induction false} EmptyChunksAreNoise(chunks: seq<Chunk>)
    ensures WithoutNoise(WithoutEmpty(chunks)) == WithoutNoise(chunks)
    decreases |chunks|
  {
    if chunks != [] {
      var rest := WithoutEmpty(chunks[1..]);
      EmptyChunksAreNoise(chunks[1..]);
      assert ([chunks[0]] + rest)[1..] == rest;
      assert [] + rest == rest;
    }
  }

  /** The chunks are those of the message, but for empty ones: no other delta or block is passed over unseen. */
  predicate SendsExactly(m: Sending) {
    && (forall i | 0 <= i < |m.cuts| :: ProperCut(m.cuts[i]))
    && WithoutEmpty(m.chunks) == WithoutEmpty(MessageChunks(Some("assistant"), m.content, m.cuts, m.reasons))
  }

  /** From stream to callback: a message arrives as it was sent if and only if no block has anything to lose. */
  lemma ArrivesAsSentExactly(parse: Parser, s: State, m: Sending)
    requires Idle(s) && SendsExactly(m)
    ensures var step := Run(parse, s, m.chunks);
            && !step.raised && |step.state.handed| == |s.handed| + 1
            && var output := step.state.handed[|s.handed|].output;
               && output.Some? && m.content <= output.value.content
               && (Received(output.value.content[|m.content|..]) == SentAs(parse, m.cuts) <==>
                     forall i | 0 <= i < |m.cuts| :: NothingToLose(m.cuts[i]))
  {
    EmptyChunksAreNoise(m.chunks);
    EmptyChunksAreNoise(MessageChunks(Some("assistant"), m.content, m.cuts, m.reasons));
    MessageRebuilt(parse, s, m.chunks, m.content, m.cuts, m.reasons);
    RebuiltAsSentExactly(parse, m.cuts);
    var blocks := Wholes(parse, m.cuts);
    assert (m.content + blocks)[|m.content|..] == blocks;
  }

  /**
    A message that follows another is rebuilt as if it came first.  Only its stop reason can come from the message
    before it, and does exactly when it brings none of its own and the message before left one.
   */
  lemma NoContamination(parse: Parser, first: Sending, second: Sending)
    requires Sends(first) && Sends(second)
    ensures var alone, after := Run(parse, FRESH, second.chunks), Run(parse, FRESH, first.chunks + second.chunks);
            && !alone.raised && !after.raised && Idle(after.state)
            && |alone.state.handed| == 1 && |after.state.handed| == 2
            && after.state.handed[1].output == alone.state.handed[0].output
            && (after.state.handed[1] == alone.state.handed[0] <==>
                  LastReason(None, second.reasons).Some? || LastReason(None, first.reasons).None?)
  {
    MessageRebuilt(parse, FRESH, second.chunks, second.content, second.cuts, second.reasons);
    MessageRebuilt(parse, FRESH, first.chunks, first.content, first.cuts, first.reasons);
    var s := AfterMessage(parse, FRESH, first.content, first.cuts, first.reasons);
    MessageRebuilt(parse, s, second.chunks, second.content, second.cuts, second.reasons);
    RunSplits(parse, FRESH, first.chunks, second.chunks);
    LastReasonFallsBack(LastReason(None, first.reasons), second.reasons);
  }

  lemma {:induction false} LastReasonFallsBack(before: Option<string>, reasons: seq<Option<string>>)
    ensures LastReason(before, reasons) ==
              if LastReason(None, reasons).Some? then LastReason(None, reasons) else before
    decreases |reasons|
  {
    if reasons != [] {
      LastReasonFallsBack(if reasons[0].Some? then reasons[0] else before, reasons[1..]);
      LastReasonFallsBack(if reasons[0].Some? then reasons[0] else None, reasons[1..]);
    }
  }

  // ---------- Messages of other roles ----------

  /** With nothing recorded, block chunks change nothing up to the first block stop, which raises. */
  lemma OtherRoleRaisesIffItHasBlocks(parse: Parser, s: State, role: Option<string>, content: seq<Block>,
                                      cuts: seq<Cut>, reasons: seq<Option<string>>)
    requires Idle(s) && role != Some("assistant")
    ensures Run(parse, s, MessageChunks(role, content, cuts, reasons)).raised <==> cuts != []
  {
    var start := [MessageStart(role, content)];
    assert start[1..] == [] && Run(parse, s, start) == Step(s, false);
    RunSplits(parse, s, start, ContentChunks(cuts));
    RunSplits(parse, s, start + ContentChunks(cuts), Reasons(reasons));
    RunSplits(parse, s, start + ContentChunks(cuts) + Reasons(reasons), [MessageStop]);
    if cuts == [] {
      ReasonsTaken(parse, s, reasons);
      var s3 := Run(parse, s, Reasons(reasons)).state;
      assert [MessageStop][1..] == [];
      assert Run(parse, s3, [MessageStop]) == Process(parse, s3, MessageStop);
    } else {
      FirstBlockRaises(parse, s, cuts[0]);
      RunSplits(parse, s, BlockChunks(cuts[0]), ContentChunks(cuts[1..]));
    }
  }

  lemma FirstBlockRaises(parse: Parser, s: State, c: Cut)
    requires Idle(s)
    ensures Run(parse, s, BlockChunks(c)).raised
  {
    var opening := [BlockStart(c.start)] + c.deltas;
    UnrecordedDeltasIgnored(parse, s, opening);
    RunSplits(parse, s, opening, [BlockStop]);
    assert Run(parse, s, [BlockStop]) == Process(parse, s, BlockStop);
  }

  lemma {:induction false} UnrecordedDeltasIgnored(parse: Parser, s: State, chunks: seq<Chunk>)
    requires Idle(s)
    requires forall i | 0 <= i < |chunks| :: chunks[i].BlockStart? || IsDelta(chunks[i])
    ensures Run(parse, s, chunks) == Step(s, false)
    decreases |chunks|
  {
    if chunks != [] {
      UnrecordedDeltasIgnored(parse, s, chunks[1..]);
    }
  }
}
