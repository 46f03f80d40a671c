/**
 The three token walks: the estimate, its cumulative prefixes, and the cached part.

 `JSON.stringify` is a parameter, with the empty text where it throws.
 */
module Tokens {
  import opened Wrappers
  import opened Request
  import S = Stream

  type JsonText = S.Json -> string

  function FromText(text: string): nat {
    (|text| + 3) / 4
  }

  function FileTokens(files: seq<File>): nat {
    if files == [] then 0 else FileTokens(files[..|files| - 1]) + FromText(files[|files| - 1].data)
  }

  function NativeTokens(json: JsonText, native: Native): nat {
    4 + FromText(native.blockType) + FromText(json(S.JObject(native.data)))
  }

  function NativesTokens(json: JsonText, natives: seq<Native>): nat {
    if natives == [] then 0
    else NativesTokens(json, natives[..|natives| - 1]) + NativeTokens(json, natives[|natives| - 1])
  }

  function BlockTokens(json: JsonText, block: Block): nat {
    match block
    case TextBlock(text, _) => 4 + FromText(text)
    case ImageBlock(_) => 4 + 1600
    case ThinkingBlock(text, _) => 4 + FromText(text)
    case ToolUse(_, name, input, _) => 4 + FromText(name) + FromText(json(input))
    case ToolResult(toolUseId, content, images, files, natives, _, _) =>
      4 + FromText(toolUseId) + FromText(content) + |images| * 1600 + FileTokens(files) + NativesTokens(json, natives)
    case NativeBlock(native) => NativeTokens(json, native)
  }

  function ToolTokens(json: JsonText, tool: Tool): nat {
    match tool
    case Portable(name, description, schema, _) =>
      4 + FromText(name) + FromText(if description.Some? then description.value else "")
      + FromText(json(S.JObject(schema)))
    case Provided(name, kind, wire, _) => 4 + FromText(name) + FromText(kind) + FromText(json(S.JObject(wire)))
  }

  function BlocksTokens(json: JsonText, blocks: seq<Block>): nat {
    if blocks == [] then 0 else BlocksTokens(json, blocks[..|blocks| - 1]) + BlockTokens(json, blocks[|blocks| - 1])
  }

  function ToolsTokens(json: JsonText, tools: seq<Tool>): nat {
    if tools == [] then 0 else ToolsTokens(json, tools[..|tools| - 1]) + ToolTokens(json, tools[|tools| - 1])
  }

  function MessageTokens(json: JsonText, message: Message): nat {
    4 + BlocksTokens(json, message.content)
  }

  function MessagesTokens(json: JsonText, messages: seq<Message>): nat {
    if messages == [] then 0
    else MessagesTokens(json, messages[..|messages| - 1]) + MessageTokens(json, messages[|messages| - 1])
  }

  /** What every part of the request costs, added up. */
  function Estimate(json: JsonText, request: ChatRequest): nat {
    ToolsTokens(json, request.tools) + BlocksTokens(json, request.system) + MessagesTokens(json, request.messages)
  }

  // ---------------------------------------------------------------- the first two walks

  method AddBlocks(json: JsonText, start: nat, blocks: seq<Block>) returns (total: nat)
    ensures total == start + BlocksTokens(json, blocks)
  {
    total := start;
    for n := 0 to |blocks|
      invariant total == start + BlocksTokens(json, blocks[..n])
    {
      assert blocks[..n + 1][..n] == blocks[..n];
      total := total + BlockTokens(json, blocks[n]);
    }
    assert blocks[..|blocks|] == blocks;
  }

  method AddTools(json: JsonText, start: nat, tools: seq<Tool>) returns (total: nat)
    ensures total == start + ToolsTokens(json, tools)
  {
    total := start;
    for n := 0 to |tools|
      invariant total == start + ToolsTokens(json, tools[..n])
    {
      assert tools[..n + 1][..n] == tools[..n];
      total := total + ToolTokens(json, tools[n]);
    }
    assert tools[..|tools|] == tools;
  }

  method AddMessages(json: JsonText, start: nat, messages: seq<Message>) returns (total: nat)
    ensures total == start + MessagesTokens(json, messages)
  {
    total := start;
    for n := 0 to |messages|
      invariant total == start + MessagesTokens(json, messages[..n])
    {
      assert messages[..n + 1][..n] == messages[..n];
      var own := AddBlocks(json, 4, messages[n].content);
      total := total + own;
    }
    assert messages[..|messages|] == messages;
  }

  /** System, then messages, then tools. */
  method EstimateInputTokens(json: JsonText, request: ChatRequest) returns (total: nat)
    ensures total == Estimate(json, request)
  {
    total := AddBlocks(json, 0, request.system);
    total := AddMessages(json, total, request.messages);
    total := AddTools(json, total, request.tools);
  }

  /** Tools, then system, then messages; nested, and the last is the estimate. */
  method EstimateInputPrefixes(json: JsonText, request: ChatRequest)
    returns (tools: nat, toolsAndSystem: nat, total: nat)
    ensures tools == Estimate(json, request.(system := [], messages := []))
    ensures toolsAndSystem == Estimate(json, request.(messages := []))
    ensures total == Estimate(json, request)
    ensures tools <= toolsAndSystem <= total
  {
    tools := AddTools(json, 0, request.tools);
    toolsAndSystem := AddBlocks(json, tools, request.system);
    total := AddMessages(json, toolsAndSystem, request.messages);
  }

  // ---------------------------------------------------------------- what the estimate counts

  /** A quarter of the length, rounded up. */
  lemma {:induction false} FromTextRoundsUp(text: string)
    ensures |text| <= 4 * FromText(text) < |text| + 4
  {
  }

  /** Something with framing of its own: the texts it sends, and how many images. */
  datatype Part = Part(texts: seq<string>, images: nat)

  function TextsCost(texts: seq<string>): nat {
    if texts == [] then 0 else TextsCost(texts[..|texts| - 1]) + FromText(texts[|texts| - 1])
  }

  /** Framing, a quarter of every text, and a flat amount for every image. */
  function PartCost(part: Part): nat {
    4 + TextsCost(part.texts) + 1600 * part.images
  }

  function PartsCost(parts: seq<Part>): nat {
    if parts == [] then 0 else PartsCost(parts[..|parts| - 1]) + PartCost(parts[|parts| - 1])
  }

  function FileTexts(files: seq<File>): seq<string> {
    seq(|files|, i requires 0 <= i < |files| => files[i].data)
  }

  function NativePart(json: JsonText, native: Native): Part {
    Part([native.blockType, json(S.JObject(native.data))], 0)
  }

  /** What a block sends; the native parts of a tool result are framed like blocks of their own. */
  function BlockParts(json: JsonText, block: Block): seq<Part> {
    match block
    case TextBlock(text, _) => [Part([text], 0)]
    case ImageBlock(_) => [Part([], 1)]
    case ThinkingBlock(text, _) => [Part([text], 0)]
    case ToolUse(_, name, input, _) => [Part([name, json(input)], 0)]
    case ToolResult(toolUseId, content, images, files, natives, _, _) =>
      [Part([toolUseId, content] + FileTexts(files), |images|)]
      + seq(|natives|, i requires 0 <= i < |natives| => NativePart(json, natives[i]))
    case NativeBlock(native) => [NativePart(json, native)]
  }

  function ToolPart(json: JsonText, tool: Tool): Part {
    match tool
    case Portable(name, None, schema, _) => Part([name, json(S.JObject(schema))], 0)
    case Portable(name, Some(description), schema, _) => Part([name, description, json(S.JObject(schema))], 0)
    case Provided(name, kind, wire, _) => Part([name, kind, json(S.JObject(wire))], 0)
  }

  function BlocksParts(json: JsonText, blocks: seq<Block>): seq<Part> {
    if blocks == [] then [] else BlocksParts(json, blocks[..|blocks| - 1]) + BlockParts(json, blocks[|blocks| - 1])
  }

  /** Each message is framed, and then its blocks are. */
  function MessagesParts(json: JsonText, messages: seq<Message>): seq<Part> {
    if messages == [] then []
    else
      MessagesParts(json, messages[..|messages| - 1])
      + ([Part([], 0)] + BlocksParts(json, messages[|messages| - 1].content))
  }

  function ToolsParts(json: JsonText, tools: seq<Tool>): seq<Part> {
    seq(|tools|, i requires 0 <= i < |tools| => ToolPart(json, tools[i]))
  }

  lemma {:induction false} TextsLast(texts: seq<string>, text: string)
    ensures TextsCost(texts + [text]) == TextsCost(texts) + FromText(text)
  {
    assert (texts + [text])[..|texts|] == texts;
  }

  lemma {:induction false} TextsTwo(a: string, b: string)
    ensures TextsCost([a]) == FromText(a) && TextsCost([a, b]) == FromText(a) + FromText(b)
  {
    TextsLast([], a);
    TextsLast([a], b);
    assert [] + [a] == [a] && [a] + [b] == [a, b];
  }

  lemma {:induction false} TextsThree(a: string, b: string, c: string)
    ensures TextsCost([a, b, c]) == FromText(a) + FromText(b) + FromText(c)
  {
    TextsTwo(a, b);
    TextsLast([a, b], c);
    assert [a, b] + [c] == [a, b, c];
  }

  lemma {:induction false} FilesCost(texts: seq<string>, files: seq<File>)
    ensures TextsCost(texts + FileTexts(files)) == TextsCost(texts) + FileTokens(files)
  {
    if files == [] {
      assert texts + FileTexts(files) == texts;
    } else {
      var front, last := files[..|files| - 1], files[|files| - 1];
      FilesCost(texts, front);
      TextsLast(texts + FileTexts(front), last.data);
      assert texts + FileTexts(files) == (texts + FileTexts(front)) + [last.data];
    }
  }

  lemma {:induction false} PartsLast(parts: seq<Part>, part: Part)
    ensures PartsCost(parts + [part]) == PartsCost(parts) + PartCost(part)
  {
    assert (parts + [part])[..|parts|] == parts;
  }

  lemma {:induction false} PartsOne(part: Part)
    ensures PartsCost([part]) == PartCost(part)
  {
    PartsLast([], part);
    assert [] + [part] == [part];
  }

  lemma {:induction false} PartsAppend(a: seq<Part>, b: seq<Part>)
    ensures PartsCost(a + b) == PartsCost(a) + PartsCost(b)
  {
    if b == [] {
      assert a + b == a;
    } else {
      var front, last := b[..|b| - 1], b[|b| - 1];
      PartsAppend(a, front);
      PartsLast(a + front, last);
      assert a + b == (a + front) + [last];
    }
  }

  lemma {:induction false} NativeCost(json: JsonText, native: Native)
    ensures NativeTokens(json, native) == PartsCost([NativePart(json, native)])
  {
    PartsOne(NativePart(json, native));
    TextsTwo(native.blockType, json(S.JObject(native.data)));
  }

  lemma {:induction false} NativesCost(json: JsonText, natives: seq<Native>)
    ensures NativesTokens(json, natives)
            == PartsCost(seq(|natives|, i requires 0 <= i < |natives| => NativePart(json, natives[i])))
  {
    var parts := seq(|natives|, i requires 0 <= i < |natives| => NativePart(json, natives[i]));
    if natives != [] {
      var front, last := natives[..|natives| - 1], natives[|natives| - 1];
      NativesCost(json, front);
      NativeCost(json, last);
      PartsOne(NativePart(json, last));
      var before := seq(|front|, i requires 0 <= i < |front| => NativePart(json, front[i]));
      PartsLast(before, NativePart(json, last));
      assert parts == before + [NativePart(json, last)];
    }
  }

  lemma {:induction false} ToolResultCost(json: JsonText, block: Block)
    requires block.ToolResult?
    ensures BlockTokens(json, block) == PartsCost(BlockParts(json, block))
  {
    var head := Part([block.toolUseId, block.content] + FileTexts(block.files), |block.images|);
    var natives := block.natives;
    PartsOne(head);
    TextsTwo(block.toolUseId, block.content);
    FilesCost([block.toolUseId, block.content], block.files);
    NativesCost(json, natives);
    PartsAppend([head], seq(|natives|, i requires 0 <= i < |natives| => NativePart(json, natives[i])));
  }

  lemma {:induction false} BlockCost(json: JsonText, block: Block)
    ensures BlockTokens(json, block) == PartsCost(BlockParts(json, block))
  {
    match block
    case TextBlock(text, _) => PartsOne(Part([text], 0)); TextsTwo(text, "");
    case ImageBlock(_) => PartsOne(Part([], 1));
    case ThinkingBlock(text, _) => PartsOne(Part([text], 0)); TextsTwo(text, "");
    case ToolUse(_, name, input, _) => PartsOne(Part([name, json(input)], 0)); TextsTwo(name, json(input));
    case ToolResult(_, _, _, _, _, _, _) => ToolResultCost(json, block);
    case NativeBlock(native) => NativeCost(json, native);
  }

  lemma {:induction false} ToolCost(json: JsonText, tool: Tool)
    ensures ToolTokens(json, tool) == PartsCost([ToolPart(json, tool)])
  {
    PartsOne(ToolPart(json, tool));
    match tool
    case Portable(name, None, schema, _) => TextsTwo(name, json(S.JObject(schema)));
    case Portable(name, Some(description), schema, _) => TextsThree(name, description, json(S.JObject(schema)));
    case Provided(name, kind, wire, _) => TextsThree(name, kind, json(S.JObject(wire)));
  }

  lemma {:induction false} ToolsPartsCost(json: JsonText, tools: seq<Tool>)
    ensures ToolsTokens(json, tools) == PartsCost(ToolsParts(json, tools))
  {
    if tools != [] {
      var front, last := tools[..|tools| - 1], tools[|tools| - 1];
      ToolsPartsCost(json, front);
      ToolCost(json, last);
      PartsAppend(ToolsParts(json, front), [ToolPart(json, last)]);
      assert ToolsParts(json, tools) == ToolsParts(json, front) + [ToolPart(json, last)];
    }
  }

  lemma {:induction false} BlocksPartsCost(json: JsonText, blocks: seq<Block>)
    ensures BlocksTokens(json, blocks) == PartsCost(BlocksParts(json, blocks))
  {
    if blocks != [] {
      var front, last := blocks[..|blocks| - 1], blocks[|blocks| - 1];
      BlocksPartsCost(json, front);
      BlockCost(json, last);
      PartsAppend(BlocksParts(json, front), BlockParts(json, last));
    }
  }

  lemma {:induction false} MessagesPartsCost(json: JsonText, messages: seq<Message>)
    ensures MessagesTokens(json, messages) == PartsCost(MessagesParts(json, messages))
  {
    if messages != [] {
      var front, last := messages[..|messages| - 1], messages[|messages| - 1];
      var own := [Part([], 0)] + BlocksParts(json, last.content);
      MessagesPartsCost(json, front);
      BlocksPartsCost(json, last.content);
      PartsOne(Part([], 0));
      PartsAppend([Part([], 0)], BlocksParts(json, last.content));
      PartsAppend(MessagesParts(json, front), own);
    }
  }

  /** Everything the request carries is counted: its framing, a quarter of every text, and its images. */
  lemma {:induction false} EstimateCountsEverything(json: JsonText, request: ChatRequest)
    ensures Estimate(json, request)
            == PartsCost(ToolsParts(json, request.tools)) + PartsCost(BlocksParts(json, request.system))
               + PartsCost(MessagesParts(json, request.messages))
  {
    ToolsPartsCost(json, request.tools);
    BlocksPartsCost(json, request.system);
    MessagesPartsCost(json, request.messages);
  }

  // ---------------------------------------------------------------- the prompt laid out

  /** A stretch of the prompt: what it costs, and whether a breakpoint ends it. */
  datatype Item = Item(cost: nat, marked: bool)

  /** A breakpoint on an image or a native part inside a tool result. */
  predicate Nested(block: Block) {
    block.ToolResult? && ((exists i :: 0 <= i < |block.images| && block.images[i].cacheControl.Some?)
                          || (exists i :: 0 <= i < |block.natives| && block.natives[i].cacheControl.Some?))
  }

  /** A block is marked by a breakpoint of its own or by one nested in it. */
  predicate Marked(block: Block) {
    CacheControlOf(block).Some? || Nested(block)
  }

  function ToolItem(json: JsonText, tool: Tool): Item {
    Item(ToolTokens(json, tool), tool.cacheControl.Some?)
  }

  /** In the system prompt only a block's own breakpoint counts. */
  function SystemItem(json: JsonText, block: Block): Item {
    Item(BlockTokens(json, block), CacheControlOf(block).Some?)
  }

  function BlockItem(json: JsonText, block: Block): Item {
    Item(BlockTokens(json, block), Marked(block))
  }

  function ToolItems(json: JsonText, tools: seq<Tool>): seq<Item> {
    if tools == [] then [] else ToolItems(json, tools[..|tools| - 1]) + [ToolItem(json, tools[|tools| - 1])]
  }

  function SystemItems(json: JsonText, blocks: seq<Block>): seq<Item> {
    if blocks == [] then [] else SystemItems(json, blocks[..|blocks| - 1]) + [SystemItem(json, blocks[|blocks| - 1])]
  }

  function BlockItems(json: JsonText, blocks: seq<Block>): seq<Item> {
    if blocks == [] then [] else BlockItems(json, blocks[..|blocks| - 1]) + [BlockItem(json, blocks[|blocks| - 1])]
  }

  /** A message is its framing, which carries no breakpoint, then its blocks. */
  function MessageItems(json: JsonText, messages: seq<Message>): seq<Item> {
    if messages == [] then []
    else
      MessageItems(json, messages[..|messages| - 1])
      + [Item(4, false)] + BlockItems(json, messages[|messages| - 1].content)
  }

  /** The prompt in the order it is assembled. */
  function Prompt(json: JsonText, request: ChatRequest): seq<Item> {
    ToolItems(json, request.tools) + SystemItems(json, request.system) + MessageItems(json, request.messages)
  }

  function Cost(items: seq<Item>): nat {
    if items == [] then 0 else Cost(items[..|items| - 1]) + items[|items| - 1].cost
  }

  /** The cost up to and including the last marked stretch. */
  function Covered(items: seq<Item>): nat {
    if items == [] then 0
    else if items[|items| - 1].marked then Cost(items)
    else Covered(items[..|items| - 1])
  }

  lemma {:induction false} CostAppend(a: seq<Item>, b: seq<Item>)
    ensures Cost(a + b) == Cost(a) + Cost(b)
  {
    if b == [] {
      assert a + b == a;
    } else {
      CostAppend(a, b[..|b| - 1]);
      assert (a + b)[..|a + b| - 1] == a + b[..|b| - 1];
    }
  }

  lemma {:induction false} ToolsCost(json: JsonText, tools: seq<Tool>)
    ensures Cost(ToolItems(json, tools)) == ToolsTokens(json, tools)
  {
    if tools != [] {
      ToolsCost(json, tools[..|tools| - 1]);
      Grows(ToolItems(json, tools[..|tools| - 1]), ToolItem(json, tools[|tools| - 1]));
    }
  }

  lemma {:induction false} SystemCost(json: JsonText, blocks: seq<Block>)
    ensures Cost(SystemItems(json, blocks)) == BlocksTokens(json, blocks)
  {
    if blocks != [] {
      SystemCost(json, blocks[..|blocks| - 1]);
      Grows(SystemItems(json, blocks[..|blocks| - 1]), SystemItem(json, blocks[|blocks| - 1]));
    }
  }

  lemma {:induction false} BlocksCost(json: JsonText, blocks: seq<Block>)
    ensures Cost(BlockItems(json, blocks)) == BlocksTokens(json, blocks)
  {
    if blocks != [] {
      BlocksCost(json, blocks[..|blocks| - 1]);
      Grows(BlockItems(json, blocks[..|blocks| - 1]), BlockItem(json, blocks[|blocks| - 1]));
    }
  }

  lemma {:induction false} MessagesCost(json: JsonText, messages: seq<Message>)
    ensures Cost(MessageItems(json, messages)) == MessagesTokens(json, messages)
  {
    if messages != [] {
      var front, last := messages[..|messages| - 1], messages[|messages| - 1];
      MessagesCost(json, front);
      BlocksCost(json, last.content);
      CostAppend(MessageItems(json, front) + [Item(4, false)], BlockItems(json, last.content));
      CostAppend(MessageItems(json, front), [Item(4, false)]);
      assert [Item(4, false)][..0] == [];
    }
  }

  /** The prompt laid out costs what the estimate says. */
  lemma {:induction false} PromptCost(json: JsonText, request: ChatRequest)
    ensures Cost(Prompt(json, request)) == Estimate(json, request)
  {
    ToolsCost(json, request.tools);
    SystemCost(json, request.system);
    MessagesCost(json, request.messages);
    var tools, system, messages :=
      ToolItems(json, request.tools), SystemItems(json, request.system), MessageItems(json, request.messages);
    CostAppend(tools + system, messages);
    CostAppend(tools, system);
  }

  // ---------------------------------------------------------------- the cached walk

  lemma {:induction false} Grows(items: seq<Item>, item: Item)
    ensures Cost(items + [item]) == Cost(items) + item.cost
    ensures Covered(items + [item]) == if item.marked then Cost(items + [item]) else Covered(items)
  {
    assert (items + [item])[..|items|] == items;
  }

  lemma {:induction false} GrowsBehind(before: seq<Item>, items: seq<Item>, item: Item)
    ensures Cost(before + (items + [item])) == Cost(before + items) + item.cost
    ensures Covered(before + (items + [item]))
            == if item.marked then Cost(before + (items + [item])) else Covered(before + items)
  {
    Grows(before + items, item);
    assert before + (items + [item]) == (before + items) + [item];
  }

  method WalkBlocks(json: JsonText, blocks: seq<Block>, ghost before: seq<Item>, running0: nat, cached0: nat)
    returns (running: nat, cached: nat)
    requires running0 == Cost(before) && cached0 == Covered(before)
    ensures running == Cost(before + BlockItems(json, blocks)) && cached == Covered(before + BlockItems(json, blocks))
  {
    running, cached := running0, cached0;
    assert before + BlockItems(json, blocks[..0]) == before;
    for n := 0 to |blocks|
      invariant running == Cost(before + BlockItems(json, blocks[..n]))
      invariant cached == Covered(before + BlockItems(json, blocks[..n]))
    {
      var block := blocks[n];
      running := running + BlockTokens(json, block);
      if CacheControlOf(block).Some? {
        cached := running;
      }
      if Nested(block) {
        cached := running;
      }
      assert blocks[..n + 1][..n] == blocks[..n];
      GrowsBehind(before, BlockItems(json, blocks[..n]), BlockItem(json, block));
    }
    assert blocks[..|blocks|] == blocks;
  }

  method WalkTools(json: JsonText, tools: seq<Tool>) returns (running: nat, cached: nat)
    ensures running == Cost(ToolItems(json, tools)) && cached == Covered(ToolItems(json, tools))
  {
    running, cached := 0, 0;
    for n := 0 to |tools|
      invariant running == Cost(ToolItems(json, tools[..n])) && cached == Covered(ToolItems(json, tools[..n]))
    {
      running := running + ToolTokens(json, tools[n]);
      if tools[n].cacheControl.Some? {
        cached := running;
      }
      assert tools[..n + 1][..n] == tools[..n];
      Grows(ToolItems(json, tools[..n]), ToolItem(json, tools[n]));
    }
    assert tools[..|tools|] == tools;
  }

  method WalkSystem(json: JsonText, system: seq<Block>, ghost before: seq<Item>, running0: nat, cached0: nat)
    returns (running: nat, cached: nat)
    requires running0 == Cost(before) && cached0 == Covered(before)
    ensures running == Cost(before + SystemItems(json, system)) && cached == Covered(before + SystemItems(json, system))
  {
    running, cached := running0, cached0;
    assert before + SystemItems(json, system[..0]) == before;
    for n := 0 to |system|
      invariant running == Cost(before + SystemItems(json, system[..n]))
      invariant cached == Covered(before + SystemItems(json, system[..n]))
    {
      running := running + BlockTokens(json, system[n]);
      if CacheControlOf(system[n]).Some? {
        cached := running;
      }
      assert system[..n + 1][..n] == system[..n];
      GrowsBehind(before, SystemItems(json, system[..n]), SystemItem(json, system[n]));
    }
    assert system[..|system|] == system;
  }

  lemma {:induction false} MessageItemsGrow(json: JsonText, before: seq<Item>, messages: seq<Message>, n: nat)
    requires n < |messages|
    ensures before + MessageItems(json, messages[..n + 1])
            == before + MessageItems(json, messages[..n]) + [Item(4, false)] + BlockItems(json, messages[n].content)
  {
    assert messages[..n + 1][..n] == messages[..n];
  }

  method EstimateCachedInputTokens(json: JsonText, request: ChatRequest) returns (cached: nat)
    ensures cached == Covered(Prompt(json, request))
  {
    var running;
    running, cached := WalkTools(json, request.tools);
    running, cached := WalkSystem(json, request.system, ToolItems(json, request.tools), running, cached);
    ghost var before := ToolItems(json, request.tools) + SystemItems(json, request.system);
    var messages := request.messages;
    assert before + MessageItems(json, messages[..0]) == before;
    for n := 0 to |messages|
      invariant running == Cost(before + MessageItems(json, messages[..n]))
      invariant cached == Covered(before + MessageItems(json, messages[..n]))
    {
      ghost var soFar := before + MessageItems(json, messages[..n]);
      running := running + 4;
      Grows(soFar, Item(4, false));
      running, cached := WalkBlocks(json, messages[n].content, soFar + [Item(4, false)], running, cached);
      MessageItemsGrow(json, before, messages, n);
    }
    assert messages[..|messages|] == messages;
  }

  // ---------------------------------------------------------------- what the cached estimate is

  /** The number of stretches up to and including the last marked one. */
  predicate LastMark(items: seq<Item>, k: nat) {
    && k <= |items| && (k == 0 || items[k - 1].marked)
    && forall i :: k <= i < |items| ==> !items[i].marked
  }

  lemma {:induction false} CoveredMeans(items: seq<Item>) returns (k: nat)
    ensures LastMark(items, k) && Covered(items) == Cost(items[..k]) && Cost(items[..k]) <= Cost(items)
  {
    if items == [] {
      k := 0;
      assert items[..0] == items;
    } else if items[|items| - 1].marked {
      k := |items|;
      assert items[..k] == items;
    } else {
      var front := items[..|items| - 1];
      k := CoveredMeans(front);
      assert items[..k] == front[..k];
    }
  }

  predicate Costly(items: seq<Item>) {
    forall i :: 0 <= i < |items| ==> items[i].cost > 0
  }

  lemma {:induction false} BlocksCostly(json: JsonText, blocks: seq<Block>)
    ensures Costly(BlockItems(json, blocks)) && Costly(SystemItems(json, blocks))
  {
    if blocks != [] {
      BlocksCostly(json, blocks[..|blocks| - 1]);
    }
  }

  lemma {:induction false} ToolsCostly(json: JsonText, tools: seq<Tool>)
    ensures Costly(ToolItems(json, tools))
  {
    if tools != [] {
      ToolsCostly(json, tools[..|tools| - 1]);
    }
  }

  lemma {:induction false} MessagesCostly(json: JsonText, messages: seq<Message>)
    ensures Costly(MessageItems(json, messages))
  {
    if messages != [] {
      MessagesCostly(json, messages[..|messages| - 1]);
      BlocksCostly(json, messages[|messages| - 1].content);
    }
  }

  lemma {:induction false} PromptCostly(json: JsonText, request: ChatRequest)
    ensures Costly(Prompt(json, request))
  {
    ToolsCostly(json, request.tools);
    BlocksCostly(json, request.system);
    MessagesCostly(json, request.messages);
  }

  /**
   The cached estimate is the running total through the last marked stretch of the prompt: at most
   the whole estimate, and zero exactly when nothing is marked.
   */
  lemma {:induction false} CachedIsThroughLastMark(json: JsonText, request: ChatRequest) returns (k: nat)
    ensures LastMark(Prompt(json, request), k)
    ensures Covered(Prompt(json, request)) == Cost(Prompt(json, request)[..k]) <= Estimate(json, request)
    ensures Covered(Prompt(json, request)) == 0 <==> Unmarked(Prompt(json, request))
  {
    var items := Prompt(json, request);
    k := CoveredMeans(items);
    PromptCost(json, request);
    PromptCostly(json, request);
    if k > 0 {
      assert items[..k][..k - 1] == items[..k - 1] && items[..k][k - 1] == items[k - 1];
      assert Cost(items[..k]) >= items[k - 1].cost;
    } else {
      assert items[..k] == [];
    }
  }

  predicate Unmarked(items: seq<Item>) {
    forall i :: 0 <= i < |items| ==> !items[i].marked
  }

  lemma {:induction false} UnmarkedAppend(a: seq<Item>, b: seq<Item>)
    ensures Unmarked(a + b) <==> Unmarked(a) && Unmarked(b)
  {
    assert forall i :: 0 <= i < |a| ==> (a + b)[i] == a[i];
    assert forall i :: 0 <= i < |b| ==> (a + b)[|a| + i] == b[i];
  }

  lemma {:induction false} UnmarkedLast(items: seq<Item>, item: Item)
    ensures Unmarked(items + [item]) <==> Unmarked(items) && !item.marked
  {
    UnmarkedAppend(items, [item]);
    assert [item][0] == item;
  }

  /** None of a list has a property. */
  predicate NoneOf<T>(p: T -> bool, xs: seq<T>) {
    forall i :: 0 <= i < |xs| ==> !p(xs[i])
  }

  lemma {:induction false} NoneOfLast<T>(p: T -> bool, xs: seq<T>)
    requires xs != []
    ensures NoneOf(p, xs) <==> NoneOf(p, xs[..|xs| - 1]) && !p(xs[|xs| - 1])
  {
    var front := xs[..|xs| - 1];
    assert forall i :: 0 <= i < |front| ==> xs[i] == front[i];
  }

  predicate ToolMarked(tool: Tool) {
    tool.cacheControl.Some?
  }

  predicate OwnMarked(block: Block) {
    match block
    case TextBlock(_, cache) => cache.Some?
    case ImageBlock(image) => image.cacheControl.Some?
    case ThinkingBlock(_, _) => false
    case ToolUse(_, _, _, cache) => cache.Some?
    case ToolResult(_, _, _, _, _, _, cache) => cache.Some?
    case NativeBlock(native) => native.cacheControl.Some?
  }

  predicate ImageMarked(image: Image) { image.cacheControl.Some? }

  predicate NativeMarked(native: Native) { native.cacheControl.Some? }

  /** A breakpoint on something inside the block. */
  predicate InnerMarked(block: Block) {
    block.ToolResult? && !(NoneOf(ImageMarked, block.images) && NoneOf(NativeMarked, block.natives))
  }

  predicate AnyMarked(block: Block) {
    OwnMarked(block) || InnerMarked(block)
  }

  lemma {:induction false} MarksSpelledOut(block: Block)
    ensures OwnMarked(block) <==> CacheControlOf(block).Some?
    ensures AnyMarked(block) <==> Marked(block)
  {
  }

  predicate MessageMarked(message: Message) {
    !NoneOf(AnyMarked, message.content)
  }

  lemma {:induction false} ToolMarks(json: JsonText, tools: seq<Tool>)
    ensures Unmarked(ToolItems(json, tools)) <==> NoneOf(ToolMarked, tools)
  {
    if tools != [] {
      ToolMarks(json, tools[..|tools| - 1]);
      NoneOfLast(ToolMarked, tools);
      UnmarkedLast(ToolItems(json, tools[..|tools| - 1]), ToolItem(json, tools[|tools| - 1]));
    }
  }

  lemma {:induction false} SystemMarks(json: JsonText, blocks: seq<Block>)
    ensures Unmarked(SystemItems(json, blocks)) <==> NoneOf(OwnMarked, blocks)
  {
    if blocks != [] {
      SystemMarks(json, blocks[..|blocks| - 1]);
      NoneOfLast(OwnMarked, blocks);
      MarksSpelledOut(blocks[|blocks| - 1]);
      UnmarkedLast(SystemItems(json, blocks[..|blocks| - 1]), SystemItem(json, blocks[|blocks| - 1]));
    }
  }

  lemma {:induction false} BlockMarks(json: JsonText, blocks: seq<Block>)
    ensures Unmarked(BlockItems(json, blocks)) <==> NoneOf(AnyMarked, blocks)
  {
    if blocks != [] {
      BlockMarks(json, blocks[..|blocks| - 1]);
      NoneOfLast(AnyMarked, blocks);
      MarksSpelledOut(blocks[|blocks| - 1]);
      UnmarkedLast(BlockItems(json, blocks[..|blocks| - 1]), BlockItem(json, blocks[|blocks| - 1]));
    }
  }

  lemma {:induction false} MessageMarks(json: JsonText, messages: seq<Message>)
    ensures Unmarked(MessageItems(json, messages)) <==> NoneOf(MessageMarked, messages)
  {
    if messages != [] {
      var front, last := messages[..|messages| - 1], messages[|messages| - 1];
      MessageMarks(json, front);
      BlockMarks(json, last.content);
      NoneOfLast(MessageMarked, messages);
      UnmarkedAppend(MessageItems(json, front) + [Item(4, false)], BlockItems(json, last.content));
      UnmarkedLast(MessageItems(json, front), Item(4, false));
    }
  }

  /** No breakpoint that the walk counts. */
  predicate NothingCounted(request: ChatRequest) {
    NoneOf(ToolMarked, request.tools) && NoneOf(OwnMarked, request.system) && NoneOf(MessageMarked, request.messages)
  }

  /** No breakpoint anywhere, nested ones included. */
  predicate NothingMarked(request: ChatRequest) {
    NoneOf(ToolMarked, request.tools) && NoneOf(AnyMarked, request.system) && NoneOf(MessageMarked, request.messages)
  }

  /** The cached estimate is zero if and only if the request carries no breakpoint that counts. */
  lemma {:induction false} CachedIsZeroExactly(json: JsonText, request: ChatRequest)
    ensures Covered(Prompt(json, request)) == 0 <==> NothingCounted(request)
  {
    var k := CachedIsThroughLastMark(json, request);
    var tools, system, messages :=
      ToolItems(json, request.tools), SystemItems(json, request.system), MessageItems(json, request.messages);
    UnmarkedAppend(tools + system, messages);
    UnmarkedAppend(tools, system);
    ToolMarks(json, request.tools);
    SystemMarks(json, request.system);
    MessageMarks(json, request.messages);
    assert Unmarked(Prompt(json, request)) <==> NothingCounted(request);
  }

  /**
   So it is zero exactly when nothing is marked, nested breakpoints included, unless the only
   breakpoints of the request are nested in its system prompt.
   */
  lemma {:induction false} ZeroMeansUnmarkedUnless(json: JsonText, request: ChatRequest)
    ensures (Covered(Prompt(json, request)) == 0 <==> NothingMarked(request))
            <==> !(NothingCounted(request) && !NoneOf(InnerMarked, request.system))
  {
    CachedIsZeroExactly(json, request);
    MarkedOwnOrNested(request.system);
  }

  lemma {:induction false} MarkedOwnOrNested(blocks: seq<Block>)
    ensures NoneOf(AnyMarked, blocks) <==> NoneOf(OwnMarked, blocks) && NoneOf(InnerMarked, blocks)
  {
  }

  /**
   A breakpoint nested in a tool result counts in a message and not in the system prompt, although
   the same block may stand in either.
   */
  lemma {:induction false} NestedMarkInSystemIsMissed(json: JsonText, image: Image)
    requires image.cacheControl.Some?
    ensures var block := ToolResult("t", "", [image], [], [], false, None);
            && AnyMarked(block)
            && Covered(Prompt(json, ChatRequest([], [block], []))) == 0
            && Covered(Prompt(json, ChatRequest([], [], [Message(User, [block])]))) > 0
  {
    var block := ToolResult("t", "", [image], [], [], false, None);
    assert ImageMarked(block.images[0]);
    MarksSpelledOut(block);
    assert [block][..0] == [];
    assert ToolItems(json, []) == [] && MessageItems(json, []) == [] && SystemItems(json, []) == [];
    assert SystemItems(json, [block]) == [] + [SystemItem(json, block)];
    assert BlockItems(json, []) == [] && BlockItems(json, [block]) == [] + [BlockItem(json, block)];
    var inSystem := Prompt(json, ChatRequest([], [block], []));
    assert inSystem == [] + [SystemItem(json, block)];
    Grows([], SystemItem(json, block));
    var message := Message(User, [block]);
    assert [message][..0] == [];
    assert MessageItems(json, [message]) == [] + [Item(4, false)] + BlockItems(json, [block]);
    var inMessage := Prompt(json, ChatRequest([], [], [message]));
    assert inMessage == [Item(4, false)] + [BlockItem(json, block)];
    Grows([Item(4, false)], BlockItem(json, block));
  }
}
