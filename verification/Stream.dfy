/**
 The stream fold: a canonical event stream collapsed into one response.

 `JSON.parse` is a parameter. Everything else of `collect` is here: accumulators by block
 index, deltas that do not fit their block ignored, blocks listed by ascending index.
 */
module Stream {
  import opened Collections
  import opened Wrappers
  import opened Text

  datatype Json =
    | JNull
    | JBool(b: bool)
    | JNumber(significand: int, exponent: int)
    | JString(s: string)
    | JArray(items: seq<Json>)
    | JObject(fields: Fields)

  type Fields = map<string, Json>

  /** `JSON.parse`, with `None` where it throws. */
  type Parser = string -> Option<Json>

  datatype StopReason = EndTurn | MaxTokens | ToolUseStop | StopSequence | ContentFilter | PauseTurn

  datatype Usage = Usage(inputTokens: int, outputTokens: int, cacheReadTokens: int, cacheWriteTokens: int)

  datatype Opening =
    | TextStart
    | ThinkingStart(signed: bool)
    | ToolUseStart(id: string, name: string)
    | NativeStart(provider: string, blockType: string, data: Fields)

  datatype Fold = NoFold | Merge | Citation

  datatype Delta =
    | TextDelta(text: string)
    | ThinkingDelta(text: string)
    | SignatureDelta(signature: string)
    | ToolJsonDelta(partial: string)
    | NativeJsonDelta(partial: string)
    | NativeDelta(deltaType: string, fold: Fold, data: Fields)

  datatype Event =
    | Start(id: string, model: string)
    | BlockStart(index: int, block: Opening)
    | BlockDelta(index: int, delta: Delta)
    | BlockEnd(index: int)
    | End(stopReason: StopReason, usage: Usage, vendor: Option<Json>)
    | Error(code: string, message: string)

  /** A citation is what `data.citation` was, which may be nothing. */
  datatype Block =
    | TextBlock(text: string, citations: seq<Option<Json>>)
    | ThinkingBlock(text: string, signature: Option<string>)
    | ToolUseBlock(id: string, name: string, input: Json)
    | NativeBlock(provider: string, blockType: string, data: Fields)

  datatype Head = Head(id: string, model: string, stopReason: StopReason, usage: Usage, vendor: Option<Json>)

  datatype Response = Response(head: Head, content: seq<Block>)

  // ---------------------------------------------------------------- accumulators

  datatype Accum =
    | TextAcc(text: string, citations: seq<Option<Json>>)
    | ThinkingAcc(text: string, signature: Option<string>)
    | ToolUseAcc(id: string, name: string, json: string)
    | NativeAcc(provider: string, blockType: string, data: Fields, json: string, deltas: seq<Delta>)

  function Open(block: Opening): Accum {
    match block
    case TextStart => TextAcc("", [])
    case ThinkingStart(_) => ThinkingAcc("", None)
    case ToolUseStart(id, name) => ToolUseAcc(id, name, "")
    case NativeStart(provider, blockType, data) => NativeAcc(provider, blockType, data, "", [])
  }

  function CitationOf(data: Fields): Option<Json> {
    if "citation" in data then Some(data["citation"]) else None
  }

  function Add(acc: Accum, delta: Delta): Accum {
    match (acc, delta)
    case (TextAcc(text, citations), TextDelta(more)) => TextAcc(text + more, citations)
    case (ThinkingAcc(text, signature), ThinkingDelta(more)) => ThinkingAcc(text + more, signature)
    case (ThinkingAcc(text, signature), SignatureDelta(more)) => ThinkingAcc(text, Some(Extend(signature, more)))
    case (ToolUseAcc(id, name, json), ToolJsonDelta(partial)) => ToolUseAcc(id, name, json + partial)
    case (NativeAcc(provider, blockType, data, json, deltas), NativeJsonDelta(partial)) =>
      NativeAcc(provider, blockType, data, json + partial, deltas)
    case (NativeAcc(provider, blockType, data, json, deltas), NativeDelta(_, _, _)) =>
      NativeAcc(provider, blockType, data, json, deltas + [delta])
    case (TextAcc(text, citations), NativeDelta(_, fold, data)) =>
      if fold.Citation? then TextAcc(text, citations + [CitationOf(data)]) else acc
    case _ => acc
  }

  /** A signature grows from nothing; the first fragment, even an empty one, makes it present. */
  function Extend(signature: Option<string>, more: string): string {
    if signature.Some? then signature.value + more else more
  }

  /** A truncated or empty argument string is an empty object, never an error. */
  function ParseJson(parse: Parser, raw: string): Json {
    if IsBlank(raw) then JObject(map[])
    else if parse(raw).Some? then parse(raw).value
    else JObject(map[])
  }

  function MergeAll(data: Fields, deltas: seq<Delta>): Fields {
    if deltas == [] then data
    else
      var last := deltas[|deltas| - 1];
      var earlier := MergeAll(data, deltas[..|deltas| - 1]);
      if last.NativeDelta? && last.fold.Merge? then earlier + last.data else earlier
  }

  function Finish(parse: Parser, acc: Accum): Block {
    match acc
    case TextAcc(text, citations) => TextBlock(text, citations)
    case ThinkingAcc(text, signature) => ThinkingBlock(text, signature)
    case ToolUseAcc(id, name, json) => ToolUseBlock(id, name, ParseJson(parse, json))
    case NativeAcc(provider, blockType, data, json, deltas) =>
      NativeBlock(provider, blockType,
                  MergeAll(if json == "" then data else data["input" := ParseJson(parse, json)], deltas))
  }

  // ---------------------------------------------------------------- the fold as a function

  const BLANK: Head := Head("", "", EndTurn, Usage(0, 0, 0, 0), None)

  function StepHead(head: Head, ev: Event): Head {
    match ev
    case Start(id, model) => head.(id := id, model := model)
    case End(stopReason, usage, vendor) => head.(stopReason := stopReason, usage := usage, vendor := vendor)
    case _ => head
  }

  function StepBlocks(blocks: map<int, Accum>, ev: Event): map<int, Accum> {
    match ev
    case BlockStart(i, block) => blocks[i := Open(block)]
    case BlockDelta(i, delta) => if i in blocks then blocks[i := Add(blocks[i], delta)] else blocks
    case _ => blocks
  }

  function HeadOf(events: seq<Event>): Head {
    if events == [] then BLANK else StepHead(HeadOf(events[..|events| - 1]), events[|events| - 1])
  }

  function BlocksOf(events: seq<Event>): map<int, Accum> {
    if events == [] then map[] else StepBlocks(BlocksOf(events[..|events| - 1]), events[|events| - 1])
  }

  predicate Ascending(keys: seq<int>) {
    forall i, j :: 0 <= i < j < |keys| ==> keys[i] < keys[j]
  }

  /** The keys of a map from the smallest to the largest. */
  ghost predicate Lists(keys: seq<int>, m: map<int, Accum>) {
    Ascending(keys) && forall k :: k in keys <==> k in m
  }

  function FinishAll(parse: Parser, m: map<int, Accum>, keys: seq<int>): seq<Block>
    requires forall k :: k in keys ==> k in m
  {
    if keys == [] then []
    else
      var last := keys[|keys| - 1];
      assert last in keys;
      FinishAll(parse, m, keys[..|keys| - 1]) + [Finish(parse, m[last])]
  }

  lemma {:induction false} LastIsGreatest(keys: seq<int>)
    requires Ascending(keys) && keys != []
    ensures var front, last := keys[..|keys| - 1], keys[|keys| - 1];
            && Ascending(front) && last in keys && (forall k :: k in keys ==> k <= last)
            && forall k :: k in front <==> k in keys && k != last
  {
    var front, last := keys[..|keys| - 1], keys[|keys| - 1];
    assert keys == front + [last];
    forall k | k in front
      ensures k != last
    {
      var i :| 0 <= i < |front| && keys[i] == k;
    }
  }

  lemma {:induction false} OneListing(a: seq<int>, b: seq<int>)
    requires Ascending(a) && Ascending(b) && forall k :: k in a <==> k in b
    ensures a == b
    decreases |a|
  {
    if a == [] && b != [] {
      var x := First(b);
    } else if a != [] && b == [] {
      var x := First(a);
    } else if a != [] {
      LastIsGreatest(a);
      LastIsGreatest(b);
      OneListing(a[..|a| - 1], b[..|b| - 1]);
    }
  }

  /** What `collect` answers: the head, and the finished blocks by ascending index. */
  ghost predicate Collected(parse: Parser, events: seq<Event>, r: Response) {
    r.head == HeadOf(events)
    && exists keys :: Lists(keys, BlocksOf(events)) && r.content == FinishAll(parse, BlocksOf(events), keys)
  }

  // ---------------------------------------------------------------- the fold as a loop

  /** The smallest of a set of indices. */
  method Smallest(keys: set<int>) returns (least: int)
    requires keys != {}
    ensures least in keys && forall k :: k in keys ==> least <= k
  {
    least := Any(keys);
    var rest := keys - {least};
    while rest != {}
      invariant rest <= keys && least in keys
      invariant forall k :: k in keys && k !in rest ==> least <= k
      decreases rest
    {
      var k := Any(rest);
      rest := rest - {k};
      if k < least {
        least := k;
      }
    }
  }

  /** The indices in ascending order, smallest first each time. */
  method SortedKeys(m: map<int, Accum>) returns (keys: seq<int>)
    ensures Lists(keys, m)
  {
    keys := [];
    var rest := m.Keys;
    while rest != {}
      invariant Ascending(keys) && rest <= m.Keys
      invariant forall k :: k in m <==> k in keys || k in rest
      invariant forall a, b :: a in keys && b in rest ==> a < b
      decreases rest
    {
      var least := Smallest(rest);
      rest := rest - {least};
      Appended(keys, least);
      keys := keys + [least];
    }
  }

  lemma {:induction false} Appended(keys: seq<int>, k: int)
    requires Ascending(keys) && forall a :: a in keys ==> a < k
    ensures Ascending(keys + [k])
    ensures forall a :: a in keys + [k] <==> a in keys || a == k
  {
    var more := keys + [k];
    forall i, j | 0 <= i < j < |more|
      ensures more[i] < more[j]
    {
      var a := keys[i];
      assert a in keys;
    }
  }

  method Collect(parse: Parser, events: seq<Event>) returns (r: Response)
    ensures Collected(parse, events, r)
  {
    var head := BLANK;
    var blocks: map<int, Accum> := map[];
    for n := 0 to |events|
      invariant head == HeadOf(events[..n]) && blocks == BlocksOf(events[..n])
    {
      assert events[..n + 1][..n] == events[..n];
      match events[n] {
        case Start(id, model) => head := head.(id := id, model := model);
        case BlockStart(i, block) => blocks := blocks[i := Open(block)];
        case BlockDelta(i, delta) =>
          if i in blocks {
            blocks := blocks[i := Add(blocks[i], delta)];
          }
        case End(stopReason, usage, vendor) =>
          head := head.(stopReason := stopReason, usage := usage, vendor := vendor);
        case _ =>
      }
    }
    assert events[..|events|] == events;
    var keys := SortedKeys(blocks);
    var content: seq<Block> := [];
    for n := 0 to |keys|
      invariant forall k :: k in keys[..n] ==> k in blocks
      invariant content == FinishAll(parse, blocks, keys[..n])
    {
      assert keys[..n + 1][..n] == keys[..n] && keys[n] in keys;
      content := content + [Finish(parse, blocks[keys[n]])];
    }
    assert keys[..|keys|] == keys;
    r := Response(head, content);
  }

  // ---------------------------------------------------------------- blocks do not see each other

  /** The events that concern one block, in order; its end event carries nothing. */
  function Own(events: seq<Event>, i: int): seq<Event> {
    if events == [] then []
    else
      var ev := events[|events| - 1];
      var earlier := Own(events[..|events| - 1], i);
      if (ev.BlockStart? || ev.BlockDelta?) && ev.index == i then earlier + [ev] else earlier
  }

  /** The events that concern no block. */
  function Headers(events: seq<Event>): seq<Event> {
    if events == [] then []
    else
      var ev := events[|events| - 1];
      var earlier := Headers(events[..|events| - 1]);
      if ev.Start? || ev.End? then earlier + [ev] else earlier
  }

  /** What an accumulator map holds at one index. */
  function At(blocks: map<int, Accum>, i: int): Option<Accum> {
    if i in blocks then Some(blocks[i]) else None
  }

  /** One event as one block sees it. */
  function StepOne(acc: Option<Accum>, ev: Event, i: int): Option<Accum> {
    if ev.BlockStart? && ev.index == i then Some(Open(ev.block))
    else if ev.BlockDelta? && ev.index == i && acc.Some? then Some(Add(acc.value, ev.delta))
    else acc
  }

  lemma {:induction false} StepIsLocal(blocks: map<int, Accum>, ev: Event, i: int)
    ensures At(StepBlocks(blocks, ev), i) == StepOne(At(blocks, i), ev, i)
  {
  }

  lemma {:induction false} BlockFromOwn(events: seq<Event>, i: int)
    ensures At(BlocksOf(events), i) == At(BlocksOf(Own(events, i)), i)
  {
    if events != [] {
      var before, ev := events[..|events| - 1], events[|events| - 1];
      BlockFromOwn(before, i);
      StepIsLocal(BlocksOf(before), ev, i);
      if (ev.BlockStart? || ev.BlockDelta?) && ev.index == i {
        var own := Own(before, i);
        StepIsLocal(BlocksOf(own), ev, i);
        assert (own + [ev])[..|own|] == own;
      }
    }
  }

  lemma {:induction false} HeadFromHeaders(events: seq<Event>)
    ensures HeadOf(events) == HeadOf(Headers(events))
  {
    if events != [] {
      var before, ev := events[..|events| - 1], events[|events| - 1];
      HeadFromHeaders(before);
      var headers := Headers(before);
      assert (headers + [ev])[..|headers|] == headers;
    }
  }

  /** Two collected responses agree when the heads and every block agree. */
  lemma {:induction false} SameBlocksSameResponse(parse: Parser, a: seq<Event>, b: seq<Event>, ra: Response,
                                                  rb: Response)
    requires Collected(parse, a, ra) && Collected(parse, b, rb)
    requires HeadOf(a) == HeadOf(b) && forall i :: At(BlocksOf(a), i) == At(BlocksOf(b), i)
    ensures ra == rb
  {
    var ma, mb := BlocksOf(a), BlocksOf(b);
    forall i
      ensures i in ma <==> i in mb
      ensures i in ma ==> ma[i] == mb[i]
    {
      assert At(ma, i) == At(mb, i);
    }
    assert ma == mb;
    var ka :| Lists(ka, ma) && ra.content == FinishAll(parse, ma, ka);
    var kb :| Lists(kb, mb) && rb.content == FinishAll(parse, mb, kb);
    OneListing(ka, kb);
  }

  /**
   Interleaving does not matter: any two streams in which every block sees the same events in
   the same order, and the response-level events are the same, collect to the same response.
   */
  lemma {:induction false} InterleavingIrrelevant(parse: Parser, a: seq<Event>, b: seq<Event>, ra: Response,
                                                  rb: Response)
    requires Collected(parse, a, ra) && Collected(parse, b, rb)
    requires Headers(a) == Headers(b) && forall i :: Own(a, i) == Own(b, i)
    ensures ra == rb
  {
    HeadFromHeaders(a);
    HeadFromHeaders(b);
    forall i
      ensures At(BlocksOf(a), i) == At(BlocksOf(b), i)
    {
      BlockFromOwn(a, i);
      BlockFromOwn(b, i);
      assert Own(a, i) == Own(b, i);
    }
    SameBlocksSameResponse(parse, a, b, ra, rb);
  }

  // ---------------------------------------------------------------- chunking does not matter

  /** How a block was opened last, and the deltas it has had since. */
  function Life(events: seq<Event>, i: int): Option<(Opening, seq<Delta>)> {
    if events == [] then None else LifeStep(Life(events[..|events| - 1], i), events[|events| - 1], i)
  }

  function LifeStep(life: Option<(Opening, seq<Delta>)>, ev: Event, i: int): Option<(Opening, seq<Delta>)> {
    if ev.BlockStart? && ev.index == i then Some((ev.block, []))
    else if ev.BlockDelta? && ev.index == i && life.Some? then Some((life.value.0, life.value.1 + [ev.delta]))
    else life
  }

  /** Everything a run of deltas amounts to: each kind of text joined up, the rest in order. */
  datatype Channels = Channels(text: string, thinking: string, signature: Option<string>, toolJson: string,
                               nativeJson: string, citations: seq<Option<Json>>, natives: seq<Delta>)

  const SILENCE: Channels := Channels("", "", None, "", "", [], [])

  function Hear(ch: Channels, delta: Delta): Channels {
    match delta
    case TextDelta(text) => ch.(text := ch.text + text)
    case ThinkingDelta(text) => ch.(thinking := ch.thinking + text)
    case SignatureDelta(sig) => ch.(signature := Some(Extend(ch.signature, sig)))
    case ToolJsonDelta(partial) => ch.(toolJson := ch.toolJson + partial)
    case NativeJsonDelta(partial) => ch.(nativeJson := ch.nativeJson + partial)
    case NativeDelta(_, fold, data) =>
      ch.(natives := ch.natives + [delta],
          citations := if fold.Citation? then ch.citations + [CitationOf(data)] else ch.citations)
  }

  function HearAll(ch: Channels, deltas: seq<Delta>): Channels {
    if deltas == [] then ch else Hear(HearAll(ch, deltas[..|deltas| - 1]), deltas[|deltas| - 1])
  }

  /** The accumulator a block of one opening reaches, from the channels alone. */
  function Reached(block: Opening, ch: Channels): Accum {
    match block
    case TextStart => TextAcc(ch.text, ch.citations)
    case ThinkingStart(_) => ThinkingAcc(ch.thinking, ch.signature)
    case ToolUseStart(id, name) => ToolUseAcc(id, name, ch.toolJson)
    case NativeStart(provider, blockType, data) => NativeAcc(provider, blockType, data, ch.nativeJson, ch.natives)
  }

  lemma {:induction false} BlockFromChannels(events: seq<Event>, i: int)
    ensures At(BlocksOf(events), i) ==
            if Life(events, i).None? then None
            else Some(Reached(Life(events, i).value.0, HearAll(SILENCE, Life(events, i).value.1)))
  {
    if events != [] {
      var before, ev := events[..|events| - 1], events[|events| - 1];
      BlockFromChannels(before, i);
      StepIsLocal(BlocksOf(before), ev, i);
      if ev.BlockDelta? && ev.index == i && Life(before, i).Some? {
        var (block, deltas) := Life(before, i).value;
        assert (deltas + [ev.delta])[..|deltas|] == deltas;
        HearReaches(block, HearAll(SILENCE, deltas), ev.delta);
      }
    }
  }

  lemma {:induction false} HearReaches(block: Opening, ch: Channels, delta: Delta)
    ensures Add(Reached(block, ch), delta) == Reached(block, Hear(ch, delta))
  {
  }

  /** Two lives of a block that amount to the same. */
  ghost predicate SameLife(a: Option<(Opening, seq<Delta>)>, b: Option<(Opening, seq<Delta>)>) {
    a.Some? == b.Some? &&
    (a.Some? ==> a.value.0 == b.value.0 && HearAll(SILENCE, a.value.1) == HearAll(SILENCE, b.value.1))
  }

  /**
   Neither interleaving nor chunking matters: streams whose response-level events are the same,
   and in which every block is opened alike and hears the same joined-up text, collect alike.
   */
  lemma {:induction false} ChunkingIrrelevant(parse: Parser, a: seq<Event>, b: seq<Event>, ra: Response, rb: Response)
    requires Collected(parse, a, ra) && Collected(parse, b, rb)
    requires Headers(a) == Headers(b) && forall i :: SameLife(Life(a, i), Life(b, i))
    ensures ra == rb
  {
    HeadFromHeaders(a);
    HeadFromHeaders(b);
    forall i
      ensures At(BlocksOf(a), i) == At(BlocksOf(b), i)
    {
      BlockFromChannels(a, i);
      BlockFromChannels(b, i);
      assert SameLife(Life(a, i), Life(b, i));
    }
    SameBlocksSameResponse(parse, a, b, ra, rb);
  }

  /** Two neighbouring fragments of one text, put back together. */
  function Join(a: Delta, b: Delta): Option<Delta> {
    match (a, b)
    case (TextDelta(x), TextDelta(y)) => Some(TextDelta(x + y))
    case (ThinkingDelta(x), ThinkingDelta(y)) => Some(ThinkingDelta(x + y))
    case (SignatureDelta(x), SignatureDelta(y)) => Some(SignatureDelta(x + y))
    case (ToolJsonDelta(x), ToolJsonDelta(y)) => Some(ToolJsonDelta(x + y))
    case (NativeJsonDelta(x), NativeJsonDelta(y)) => Some(NativeJsonDelta(x + y))
    case _ => None
  }

  /** The delta a run of fragments was split from. */
  function JoinAll(pieces: seq<Delta>): Option<Delta> {
    if pieces == [] then None
    else if |pieces| == 1 then Some(pieces[0])
    else
      var front := JoinAll(pieces[..|pieces| - 1]);
      if front.None? then None else Join(front.value, pieces[|pieces| - 1])
  }

  lemma {:induction false} JoinedHear(ch: Channels, a: Delta, b: Delta)
    requires Join(a, b).Some?
    ensures Hear(Hear(ch, a), b) == Hear(ch, Join(a, b).value)
  {
    match (a, b)
    case (TextDelta(x), TextDelta(y)) => assert (ch.text + x) + y == ch.text + (x + y);
    case (ThinkingDelta(x), ThinkingDelta(y)) => assert (ch.thinking + x) + y == ch.thinking + (x + y);
    case (SignatureDelta(x), SignatureDelta(y)) =>
      assert ch.signature.Some? ==> (ch.signature.value + x) + y == ch.signature.value + (x + y);
    case (ToolJsonDelta(x), ToolJsonDelta(y)) => assert (ch.toolJson + x) + y == ch.toolJson + (x + y);
    case (NativeJsonDelta(x), NativeJsonDelta(y)) => assert (ch.nativeJson + x) + y == ch.nativeJson + (x + y);
  }

  lemma {:induction false} PiecesHear(ch: Channels, pieces: seq<Delta>)
    requires JoinAll(pieces).Some?
    ensures HearAll(ch, pieces) == Hear(ch, JoinAll(pieces).value)
  {
    if |pieces| == 1 {
      assert pieces[..0] == [];
    } else {
      var front, last := pieces[..|pieces| - 1], pieces[|pieces| - 1];
      PiecesHear(ch, front);
      JoinedHear(ch, JoinAll(front).value, last);
    }
  }

  lemma {:induction false} HearAppend(ch: Channels, a: seq<Delta>, b: seq<Delta>)
    ensures HearAll(ch, a + b) == HearAll(HearAll(ch, a), b)
  {
    if b == [] {
      assert a + b == a;
    } else {
      HearAppend(ch, a, b[..|b| - 1]);
      assert (a + b)[..|a + b| - 1] == a + b[..|b| - 1];
    }
  }

  /** Splitting any one delta into fragments anywhere in a block's life changes nothing. */
  lemma {:induction false} ResplittingHears(before: seq<Delta>, pieces: seq<Delta>, after: seq<Delta>)
    requires JoinAll(pieces).Some?
    ensures HearAll(SILENCE, before + pieces + after) == HearAll(SILENCE, before + [JoinAll(pieces).value] + after)
  {
    var whole := [JoinAll(pieces).value];
    HearAppend(SILENCE, before + pieces, after);
    HearAppend(SILENCE, before, pieces);
    HearAppend(SILENCE, before + whole, after);
    HearAppend(SILENCE, before, whole);
    PiecesHear(HearAll(SILENCE, before), pieces);
    PiecesHear(HearAll(SILENCE, before), whole);
  }

  // ---------------------------------------------------------------- re-splitting an event stream

  lemma {:induction false} LifeLast(events: seq<Event>, ev: Event, i: int)
    ensures Life(events + [ev], i) == LifeStep(Life(events, i), ev, i)
  {
    assert (events + [ev])[..|events|] == events;
  }

  lemma {:induction false} SameLifeStep(a: Option<(Opening, seq<Delta>)>, b: Option<(Opening, seq<Delta>)>, ev: Event,
                                        i: int)
    requires SameLife(a, b)
    ensures SameLife(LifeStep(a, ev, i), LifeStep(b, ev, i))
  {
    if ev.BlockDelta? && ev.index == i && a.Some? {
      HearLast(SILENCE, a.value.1, ev.delta);
      HearLast(SILENCE, b.value.1, ev.delta);
    }
  }

  lemma {:induction false} HearLast(ch: Channels, deltas: seq<Delta>, delta: Delta)
    ensures HearAll(ch, deltas + [delta]) == Hear(HearAll(ch, deltas), delta)
  {
    assert (deltas + [delta])[..|deltas|] == deltas;
  }

  lemma {:induction false} SameLifeAfter(a: seq<Event>, b: seq<Event>, post: seq<Event>, i: int)
    requires SameLife(Life(a, i), Life(b, i))
    ensures SameLife(Life(a + post, i), Life(b + post, i))
  {
    if post == [] {
      assert a + post == a && b + post == b;
    } else {
      var front, last := post[..|post| - 1], post[|post| - 1];
      SameLifeAfter(a, b, front, i);
      assert a + post == (a + front) + [last] && b + post == (b + front) + [last];
      LifeLast(a + front, last, i);
      LifeLast(b + front, last, i);
      SameLifeStep(Life(a + front, i), Life(b + front, i), last, i);
    }
  }

  /** Deltas as the events of one block. */
  function Deltas(i: int, pieces: seq<Delta>): seq<Event> {
    if pieces == [] then [] else Deltas(i, pieces[..|pieces| - 1]) + [BlockDelta(i, pieces[|pieces| - 1])]
  }

  lemma {:induction false} Rejoined(had: seq<Delta>, pieces: seq<Delta>)
    requires pieces != []
    ensures (had + pieces[..|pieces| - 1]) + [pieces[|pieces| - 1]] == had + pieces
  {
  }

  /** One block gains the deltas, if it is open; the others notice nothing. */
  lemma {:induction false} LifeOfDeltas(pre: seq<Event>, i: int, pieces: seq<Delta>, j: int)
    ensures Life(pre + Deltas(i, pieces), j) ==
            if i == j && Life(pre, j).Some? then Some((Life(pre, j).value.0, Life(pre, j).value.1 + pieces))
            else Life(pre, j)
  {
    if pieces == [] {
      assert pre + Deltas(i, pieces) == pre;
      assert Life(pre, j).Some? ==> Life(pre, j).value.1 + pieces == Life(pre, j).value.1;
    } else {
      var front, last := pieces[..|pieces| - 1], pieces[|pieces| - 1];
      LifeOfDeltas(pre, i, front, j);
      assert pre + Deltas(i, pieces) == (pre + Deltas(i, front)) + [BlockDelta(i, last)];
      LifeLast(pre + Deltas(i, front), BlockDelta(i, last), j);
      if Life(pre, j).Some? {
        Rejoined(Life(pre, j).value.1, pieces);
      }
    }
  }

  lemma {:induction false} HeadersAppend(a: seq<Event>, b: seq<Event>)
    ensures Headers(a + b) == Headers(a) + Headers(b)
  {
    if b == [] {
      assert a + b == a;
    } else {
      var front := b[..|b| - 1];
      HeadersAppend(a, front);
      assert (a + b)[..|a + b| - 1] == a + front;
    }
  }

  lemma {:induction false} DeltasAreNoHeaders(i: int, pieces: seq<Delta>)
    ensures Headers(Deltas(i, pieces)) == []
  {
    if pieces != [] {
      DeltasAreNoHeaders(i, pieces[..|pieces| - 1]);
      var front := Deltas(i, pieces[..|pieces| - 1]);
      assert (front + [BlockDelta(i, pieces[|pieces| - 1])])[..|front|] == front;
    }
  }

  lemma {:induction false} SplitLife(pre: seq<Event>, i: int, pieces: seq<Delta>, j: int)
    requires JoinAll(pieces).Some?
    ensures SameLife(Life(pre + Deltas(i, pieces), j), Life(pre + Deltas(i, [JoinAll(pieces).value]), j))
  {
    var whole := [JoinAll(pieces).value];
    LifeOfDeltas(pre, i, pieces, j);
    LifeOfDeltas(pre, i, whole, j);
    if i == j && Life(pre, j).Some? {
      var had := Life(pre, j).value.1;
      ResplittingHears(had, pieces, []);
      assert had + pieces + [] == had + pieces && had + whole + [] == had + whole;
    }
  }

  /**
   Re-splitting does not matter: wherever one delta of a stream is sent in fragments instead, for any
   block, open or not, the stream collects to the same response.
   */
  lemma {:induction false} ResplittingIrrelevant(parse: Parser, pre: seq<Event>, i: int, pieces: seq<Delta>,
                                                 post: seq<Event>,
                                                 ra: Response, rb: Response)
    requires JoinAll(pieces).Some?
    requires Collected(parse, pre + Deltas(i, pieces) + post, ra)
    requires Collected(parse, pre + [BlockDelta(i, JoinAll(pieces).value)] + post, rb)
    ensures ra == rb
  {
    var whole := [JoinAll(pieces).value];
    assert whole[..0] == [] && Deltas(i, whole) == [BlockDelta(i, whole[0])];
    var a, b := pre + Deltas(i, pieces), pre + Deltas(i, whole);
    forall j
      ensures SameLife(Life(a + post, j), Life(b + post, j))
    {
      SplitLife(pre, i, pieces, j);
      SameLifeAfter(a, b, post, j);
    }
    HeadersAppend(a, post);
    HeadersAppend(b, post);
    HeadersAppend(pre, Deltas(i, pieces));
    HeadersAppend(pre, Deltas(i, whole));
    DeltasAreNoHeaders(i, pieces);
    DeltasAreNoHeaders(i, whole);
    ChunkingIrrelevant(parse, a + post, b + post, ra, rb);
  }

  // ---------------------------------------------------------------- what each block comes to

  function TextIn(ds: seq<Delta>): string {
    if ds == [] then ""
    else TextIn(ds[..|ds| - 1]) + if ds[|ds| - 1].TextDelta? then ds[|ds| - 1].text else ""
  }

  function ThinkingIn(ds: seq<Delta>): string {
    if ds == [] then ""
    else ThinkingIn(ds[..|ds| - 1]) + if ds[|ds| - 1].ThinkingDelta? then ds[|ds| - 1].text else ""
  }

  function SignatureIn(ds: seq<Delta>): string {
    if ds == [] then ""
    else SignatureIn(ds[..|ds| - 1]) + if ds[|ds| - 1].SignatureDelta? then ds[|ds| - 1].signature else ""
  }

  function ToolJsonIn(ds: seq<Delta>): string {
    if ds == [] then ""
    else ToolJsonIn(ds[..|ds| - 1]) + if ds[|ds| - 1].ToolJsonDelta? then ds[|ds| - 1].partial else ""
  }

  function NativeJsonIn(ds: seq<Delta>): string {
    if ds == [] then ""
    else NativeJsonIn(ds[..|ds| - 1]) + if ds[|ds| - 1].NativeJsonDelta? then ds[|ds| - 1].partial else ""
  }

  /** What the citation deltas cite, in order; one without a citation cites nothing. */
  function CitationsIn(ds: seq<Delta>): seq<Option<Json>> {
    if ds == [] then []
    else
      var last := ds[|ds| - 1];
      CitationsIn(ds[..|ds| - 1])
      + if !last.NativeDelta? || last.fold != Citation then []
        else if "citation" in last.data then [Some(last.data["citation"])]
        else [None]
  }

  /** The last merging delta that carries a field; -1 when none does. */
  function LastMerge(ds: seq<Delta>, field: string): int {
    if ds == [] then -1
    else if ds[|ds| - 1].NativeDelta? && ds[|ds| - 1].fold == Merge && field in ds[|ds| - 1].data then |ds| - 1
    else LastMerge(ds[..|ds| - 1], field)
  }

  /** The value that joined-up JSON text stands for: an empty object when it is blank or does not parse. */
  predicate StandsFor(parse: Parser, text: string, value: Json) {
    if (forall i :: 0 <= i < |text| ==> IsSpace(text[i])) || parse(text).None? then value == JObject(map[])
    else parse(text) == Some(value)
  }

  /** One field of a finished native block: the last that was merged, else the parsed input, else as it was opened. */
  predicate FieldTold(parse: Parser, data: Fields, ds: seq<Delta>, finished: Fields, field: string) {
    var merged := LastMerge(ds, field);
    if 0 <= merged < |ds| && ds[merged].NativeDelta? && field in ds[merged].data then
      field in finished && finished[field] == ds[merged].data[field]
    else if field == "input" && NativeJsonIn(ds) != "" then
      field in finished && StandsFor(parse, NativeJsonIn(ds), finished[field])
    else (field in finished <==> field in data) && (field in data ==> finished[field] == data[field])
  }

  /** What a block comes to, from how it was opened and the deltas it has had since. */
  ghost predicate BlockTold(parse: Parser, opening: Opening, ds: seq<Delta>, block: Block) {
    match opening
    case TextStart => block == TextBlock(TextIn(ds), CitationsIn(ds))
    case ThinkingStart(_) =>
      && block.ThinkingBlock? && block.text == ThinkingIn(ds)
      && (block.signature.Some? <==> exists i :: 0 <= i < |ds| && ds[i].SignatureDelta?)
      && (block.signature.Some? ==> block.signature.value == SignatureIn(ds))
    case ToolUseStart(id, name) =>
      block.ToolUseBlock? && block.id == id && block.name == name && StandsFor(parse, ToolJsonIn(ds), block.input)
    case NativeStart(provider, blockType, data) =>
      && block.NativeBlock? && block.provider == provider && block.blockType == blockType
      && forall field :: FieldTold(parse, data, ds, block.data, field)
  }

  lemma {:induction false} HeardTexts(ds: seq<Delta>)
    ensures var ch := HearAll(SILENCE, ds);
            && ch.text == TextIn(ds) && ch.thinking == ThinkingIn(ds) && ch.toolJson == ToolJsonIn(ds)
            && ch.nativeJson == NativeJsonIn(ds) && ch.citations == CitationsIn(ds)
  {
    if ds != [] {
      HeardTexts(ds[..|ds| - 1]);
    }
  }

  lemma {:induction false} HeardSignature(ds: seq<Delta>)
    ensures var signature := HearAll(SILENCE, ds).signature;
            && (signature.Some? <==> exists i :: 0 <= i < |ds| && ds[i].SignatureDelta?)
            && (if signature.Some? then signature.value == SignatureIn(ds) else SignatureIn(ds) == "")
  {
    if ds != [] {
      var front, last := ds[..|ds| - 1], ds[|ds| - 1];
      HeardSignature(front);
      assert forall i :: 0 <= i < |front| ==> front[i] == ds[i];
    }
  }

  /** Merging the deltas a block heard is merging its deltas: the others merge nothing. */
  lemma {:induction false} HeardMerges(data: Fields, ds: seq<Delta>)
    ensures MergeAll(data, HearAll(SILENCE, ds).natives) == MergeAll(data, ds)
  {
    if ds != [] {
      var front, last := ds[..|ds| - 1], ds[|ds| - 1];
      HeardMerges(data, front);
      var heard := HearAll(SILENCE, front).natives;
      assert (heard + [last])[..|heard|] == heard;
    }
  }

  lemma {:induction false} MergedField(data: Fields, ds: seq<Delta>, field: string)
    ensures var merged := LastMerge(ds, field);
            && -1 <= merged < |ds|
            && (merged >= 0 ==>
                && ds[merged].NativeDelta? && field in ds[merged].data
                && field in MergeAll(data, ds) && MergeAll(data, ds)[field] == ds[merged].data[field])
            && (merged < 0 ==>
                && (field in MergeAll(data, ds) <==> field in data)
                && (field in data ==> MergeAll(data, ds)[field] == data[field]))
  {
    if ds != [] {
      MergedField(data, ds[..|ds| - 1], field);
    }
  }

  lemma {:induction false} ParsedStandsFor(parse: Parser, text: string)
    ensures StandsFor(parse, text, ParseJson(parse, text))
  {
  }

  lemma {:induction false} NativeTold(parse: Parser, provider: string, blockType: string, data: Fields, ds: seq<Delta>)
    ensures var block := Finish(parse, Reached(NativeStart(provider, blockType, data), HearAll(SILENCE, ds)));
            BlockTold(parse, NativeStart(provider, blockType, data), ds, block)
  {
    var json := NativeJsonIn(ds);
    var start := if json == "" then data else data["input" := ParseJson(parse, json)];
    HeardTexts(ds);
    HeardMerges(start, ds);
    ParsedStandsFor(parse, json);
    forall field
      ensures FieldTold(parse, data, ds, MergeAll(start, ds), field)
    {
      MergedField(start, ds, field);
    }
  }

  lemma {:induction false} ReachedIsTold(parse: Parser, opening: Opening, ds: seq<Delta>)
    ensures BlockTold(parse, opening, ds, Finish(parse, Reached(opening, HearAll(SILENCE, ds))))
  {
    HeardTexts(ds);
    HeardSignature(ds);
    ParsedStandsFor(parse, ToolJsonIn(ds));
    if opening.NativeStart? {
      NativeTold(parse, opening.provider, opening.blockType, opening.data, ds);
    }
  }

  ghost predicate Opened(events: seq<Event>, i: int) {
    exists k :: 0 <= k < |events| && events[k].BlockStart? && events[k].index == i
  }

  lemma {:induction false} OpenedLives(events: seq<Event>, i: int)
    ensures Opened(events, i) <==> Life(events, i).Some?
  {
    if events != [] {
      var front, last := events[..|events| - 1], events[|events| - 1];
      OpenedLives(front, i);
      assert forall k :: 0 <= k < |front| ==> front[k] == events[k];
      if last.BlockStart? && last.index == i {
        assert events[|front|].BlockStart?;
      }
    }
  }

  ghost predicate LastStart(events: seq<Event>, k: int) {
    0 <= k < |events| && events[k].Start? && forall j :: k < j < |events| ==> !events[j].Start?
  }

  ghost predicate LastEnd(events: seq<Event>, k: int) {
    0 <= k < |events| && events[k].End? && forall j :: k < j < |events| ==> !events[j].End?
  }

  /** The last start gives the head its id and model, and the last end the rest; without one it says nothing. */
  ghost predicate HeadTold(events: seq<Event>, head: Head) {
    && (forall k :: LastStart(events, k) ==> head.id == events[k].id && head.model == events[k].model)
    && ((forall k :: !LastStart(events, k)) ==> head.id == "" && head.model == "")
    && (forall k :: LastEnd(events, k) ==>
          && head.stopReason == events[k].stopReason && head.usage == events[k].usage
          && head.vendor == events[k].vendor)
    && ((forall k :: !LastEnd(events, k)) ==>
          head.stopReason == EndTurn && head.usage == Usage(0, 0, 0, 0) && head.vendor == None)
  }

  lemma {:induction false} LastStartNext(front: seq<Event>, last: Event, k: int)
    ensures LastStart(front + [last], k) <==> if last.Start? then k == |front| else LastStart(front, k)
  {
    var events := front + [last];
    assert events[|front|] == last && forall j :: 0 <= j < |front| ==> events[j] == front[j];
  }

  lemma {:induction false} LastEndNext(front: seq<Event>, last: Event, k: int)
    ensures LastEnd(front + [last], k) <==> if last.End? then k == |front| else LastEnd(front, k)
  {
    var events := front + [last];
    assert events[|front|] == last && forall j :: 0 <= j < |front| ==> events[j] == front[j];
  }

  lemma {:induction false} HeadToldNext(front: seq<Event>, last: Event, head: Head)
    requires HeadTold(front, head)
    ensures HeadTold(front + [last], StepHead(head, last))
  {
    forall k
      ensures LastStart(front + [last], k) <==> if last.Start? then k == |front| else LastStart(front, k)
      ensures LastEnd(front + [last], k) <==> if last.End? then k == |front| else LastEnd(front, k)
    {
      LastStartNext(front, last, k);
      LastEndNext(front, last, k);
    }
    assert last.Start? ==> LastStart(front + [last], |front|);
    assert last.End? ==> LastEnd(front + [last], |front|);
  }

  lemma {:induction false} HeadIsTold(events: seq<Event>)
    ensures HeadTold(events, HeadOf(events))
  {
    if events != [] {
      var front, last := events[..|events| - 1], events[|events| - 1];
      HeadIsTold(front);
      HeadToldNext(front, last, HeadOf(front));
      assert events == front + [last];
    }
  }

  lemma {:induction false} FinishAllIs(parse: Parser, m: map<int, Accum>, keys: seq<int>)
    requires forall k :: k in keys ==> k in m
    ensures |FinishAll(parse, m, keys)| == |keys|
    ensures forall n :: 0 <= n < |keys| ==> keys[n] in m && FinishAll(parse, m, keys)[n] == Finish(parse, m[keys[n]])
  {
    if keys != [] {
      FinishAllIs(parse, m, keys[..|keys| - 1]);
    }
  }

  /** The content is one block per opened index, by ascending index, each as its own events tell it. */
  ghost predicate ContentTold(parse: Parser, events: seq<Event>, content: seq<Block>, keys: seq<int>) {
    && Ascending(keys) && |keys| == |content| && (forall i :: i in keys <==> Opened(events, i))
    && forall n :: 0 <= n < |keys| ==>
         && Life(events, keys[n]).Some?
         && BlockTold(parse, Life(events, keys[n]).value.0, Life(events, keys[n]).value.1, content[n])
  }

  /** What any event stream collects to, block by block and field by field. */
  lemma {:induction false} CollectedMeans(parse: Parser, events: seq<Event>, r: Response)
    requires Collected(parse, events, r)
    ensures HeadTold(events, r.head)
    ensures exists keys :: ContentTold(parse, events, r.content, keys)
  {
    HeadIsTold(events);
    var m := BlocksOf(events);
    var keys :| Lists(keys, m) && r.content == FinishAll(parse, m, keys);
    FinishAllIs(parse, m, keys);
    forall i
      ensures i in keys <==> Opened(events, i)
    {
      OpenedLives(events, i);
      BlockFromChannels(events, i);
    }
    forall n | 0 <= n < |keys|
      ensures Life(events, keys[n]).Some?
      ensures BlockTold(parse, Life(events, keys[n]).value.0, Life(events, keys[n]).value.1, r.content[n])
    {
      BlockFromChannels(events, keys[n]);
      assert At(m, keys[n]) == Some(m[keys[n]]);
      ReachedIsTold(parse, Life(events, keys[n]).value.0, Life(events, keys[n]).value.1);
    }
    assert ContentTold(parse, events, r.content, keys);
  }

  // ---------------------------------------------------------------- a response rendered and collected

  /**
   How a block is opened when it is rendered as events. A native block may send any of its
   fields late, and always sends its input as text.
   */
  function OpeningOf(block: Block, late: set<string>): Opening {
    match block
    case TextBlock(_, _) => TextStart
    case ThinkingBlock(_, signature) => ThinkingStart(signature.Some?)
    case ToolUseBlock(id, name, _) => ToolUseStart(id, name)
    case NativeBlock(provider, blockType, data) => NativeStart(provider, blockType, data - late - {"input"})
  }

  function Cited(citation: Option<Json>): Delta {
    NativeDelta("citation", Citation, if citation.Some? then map["citation" := citation.value] else map[])
  }

  function Cite(citations: seq<Option<Json>>): seq<Delta> {
    if citations == [] then [] else Cite(citations[..|citations| - 1]) + [Cited(citations[|citations| - 1])]
  }

  /** A native block's input as text, when it has one. */
  function InputText(show: Json -> string, data: Fields): seq<Delta> {
    if "input" in data then [NativeJsonDelta(show(data["input"]))] else []
  }

  /** The fields a native block sends late. */
  function LateFields(data: Fields, late: set<string>): Delta {
    NativeDelta("late", Merge, data - (data.Keys - late) - {"input"})
  }

  /** A block's deltas, each kind of text in one piece. */
  function DeltasOf(show: Json -> string, block: Block, late: set<string>): seq<Delta> {
    match block
    case TextBlock(text, citations) => [TextDelta(text)] + Cite(citations)
    case ThinkingBlock(text, signature) =>
      [ThinkingDelta(text)] + if signature.Some? then [SignatureDelta(signature.value)] else []
    case ToolUseBlock(_, _, input) => [ToolJsonDelta(show(input))]
    case NativeBlock(_, _, data) => InputText(show, data) + [LateFields(data, late)]
  }

  /** `JSON.parse` undoes the printer on this value. */
  predicate Undoes(parse: Parser, show: Json -> string, j: Json) {
    !IsBlank(show(j)) && parse(show(j)) == Some(j)
  }

  /** It does on whatever of the block is sent as JSON text. */
  predicate Printable(parse: Parser, show: Json -> string, block: Block) {
    match block
    case ToolUseBlock(_, _, input) => Undoes(parse, show, input)
    case NativeBlock(_, _, data) => "input" in data ==> Undoes(parse, show, data["input"])
    case _ => true
  }

  lemma {:induction false} CitationsHeard(ch: Channels, citations: seq<Option<Json>>)
    ensures HearAll(ch, Cite(citations)).text == ch.text
    ensures HearAll(ch, Cite(citations)).citations == ch.citations + citations
  {
    if citations == [] {
      assert ch.citations + citations == ch.citations;
    } else {
      var front := citations[..|citations| - 1];
      CitationsHeard(ch, front);
      HearLast(ch, Cite(front), Cited(citations[|citations| - 1]));
      assert ch.citations + citations == (ch.citations + front) + [citations[|citations| - 1]];
    }
  }

  /** The text channels of a native block's deltas. */
  lemma {:induction false} NativeHeard(show: Json -> string, data: Fields, late: set<string>)
    ensures var ch := HearAll(SILENCE, InputText(show, data) + [LateFields(data, late)]);
            && ch.nativeJson == (if "input" in data then show(data["input"]) else "")
            && ch.natives == [LateFields(data, late)]
  {
    var text, rest := InputText(show, data), LateFields(data, late);
    HearAppend(SILENCE, text, [rest]);
    PiecesHear(HearAll(SILENCE, text), [rest]);
    if "input" in data {
      PiecesHear(SILENCE, text);
      assert "" + show(data["input"]) == show(data["input"]);
    }
  }

  lemma {:induction false} LateFieldsComplete(data: Fields, late: set<string>)
    ensures var start := data - late - {"input"};
            "input" !in data ==> MergeAll(start, [LateFields(data, late)]) == data
    ensures var start := data - late - {"input"};
            "input" in data ==> MergeAll(start["input" := data["input"]], [LateFields(data, late)]) == data
  {
    var rest := LateFields(data, late);
    assert [rest][..0] == [];
    var start := data - late - {"input"};
    if "input" in data {
      assert start["input" := data["input"]] + rest.data == data;
    } else {
      assert start + rest.data == data;
    }
  }

  lemma {:induction false} NativeFinishes(parse: Parser, show: Json -> string, provider: string, blockType: string,
                                          data: Fields,
                                          late: set<string>)
    requires "input" in data ==> Undoes(parse, show, data["input"])
    ensures var ch := HearAll(SILENCE, InputText(show, data) + [LateFields(data, late)]);
            Finish(parse, NativeAcc(provider, blockType, data - late - {"input"}, ch.nativeJson, ch.natives))
            == NativeBlock(provider, blockType, data)
  {
    NativeHeard(show, data, late);
    LateFieldsComplete(data, late);
    if "input" in data {
      assert show(data["input"]) != "" by {
        assert !IsBlank(show(data["input"])) && IsBlank("");
      }
    }
  }

  lemma {:induction false} TextFinishes(text: string, citations: seq<Option<Json>>)
    ensures Reached(TextStart, HearAll(SILENCE, [TextDelta(text)] + Cite(citations))) == TextAcc(text, citations)
  {
    HearAppend(SILENCE, [TextDelta(text)], Cite(citations));
    PiecesHear(SILENCE, [TextDelta(text)]);
    CitationsHeard(Hear(SILENCE, TextDelta(text)), citations);
  }

  lemma {:induction false} ThinkingFinishes(text: string, signature: Option<string>, signed: bool)
    ensures var rest := if signature.Some? then [SignatureDelta(signature.value)] else [];
            Reached(ThinkingStart(signed), HearAll(SILENCE, [ThinkingDelta(text)] + rest))
            == ThinkingAcc(text, signature)
  {
    var rest := if signature.Some? then [SignatureDelta(signature.value)] else [];
    HearAppend(SILENCE, [ThinkingDelta(text)], rest);
    PiecesHear(SILENCE, [ThinkingDelta(text)]);
    if signature.Some? {
      PiecesHear(Hear(SILENCE, ThinkingDelta(text)), rest);
    }
  }

  lemma {:induction false} ToolUseFinishes(show: Json -> string, id: string, name: string, input: Json)
    ensures Reached(ToolUseStart(id, name), HearAll(SILENCE, [ToolJsonDelta(show(input))]))
            == ToolUseAcc(id, name, show(input))
  {
    PiecesHear(SILENCE, [ToolJsonDelta(show(input))]);
    assert "" + show(input) == show(input);
  }

  lemma {:induction false} RenderedFinishes(parse: Parser, show: Json -> string, block: Block, late: set<string>)
    requires Printable(parse, show, block)
    ensures Finish(parse, Reached(OpeningOf(block, late), HearAll(SILENCE, DeltasOf(show, block, late)))) == block
  {
    match block
    case TextBlock(text, citations) => TextFinishes(text, citations);
    case ThinkingBlock(text, signature) => ThinkingFinishes(text, signature, signature.Some?);
    case ToolUseBlock(id, name, input) => ToolUseFinishes(show, id, name, input);
    case NativeBlock(provider, blockType, data) => NativeFinishes(parse, show, provider, blockType, data, late);
  }

  /** The stream tells every block of the response at its index, in fragments and in any interleaving. */
  ghost predicate Renders(show: Json -> string, events: seq<Event>, response: Response, late: set<string>,
                          keys: seq<int>) {
    && HeadOf(Headers(events)) == response.head
    && Ascending(keys) && |keys| == |response.content|
    && (forall i :: Life(events, i).Some? <==> i in keys)
    && forall n :: 0 <= n < |keys| ==>
         SameLife(Life(events, keys[n]),
                  Some((OpeningOf(response.content[n], late), DeltasOf(show, response.content[n], late))))
  }

  lemma {:induction false} FinishAllAt(parse: Parser, m: map<int, Accum>, keys: seq<int>, blocks: seq<Block>)
    requires |keys| == |blocks| && forall k :: k in keys ==> k in m
    requires forall n :: 0 <= n < |keys| ==> keys[n] in m && Finish(parse, m[keys[n]]) == blocks[n]
    ensures FinishAll(parse, m, keys) == blocks
  {
    if keys != [] {
      FinishAllAt(parse, m, keys[..|keys| - 1], blocks[..|blocks| - 1]);
      assert blocks == blocks[..|blocks| - 1] + [blocks[|blocks| - 1]];
    }
  }

  /** Collecting recovers any response from any stream that renders it. */
  lemma {:induction false} CollectRecovers(parse: Parser, show: Json -> string, events: seq<Event>, response: Response,
                        late: set<string>, keys: seq<int>, r: Response)
    requires forall n :: 0 <= n < |response.content| ==> Printable(parse, show, response.content[n])
    requires Renders(show, events, response, late, keys) && Collected(parse, events, r)
    ensures r == response
  {
    HeadFromHeaders(events);
    var m := BlocksOf(events);
    forall i
      ensures i in m <==> i in keys
    {
      BlockFromChannels(events, i);
      assert Life(events, i).Some? <==> i in keys;
    }
    forall n | 0 <= n < |keys|
      ensures keys[n] in m && Finish(parse, m[keys[n]]) == response.content[n]
    {
      BlockFromChannels(events, keys[n]);
      RenderedFinishes(parse, show, response.content[n], late);
      assert At(m, keys[n]).Some?;
    }
    FinishAllAt(parse, m, keys, response.content);
    var listed :| Lists(listed, m) && r.content == FinishAll(parse, m, listed);
    OneListing(listed, keys);
  }

  /** One block's events: opened, told, ended. */
  function Told(n: int, opening: Opening, deltas: seq<Delta>): seq<Event> {
    [BlockStart(n, opening)] + Deltas(n, deltas) + [BlockEnd(n)]
  }

  /** A block as events, in whole deltas. */
  function RenderBlock(show: Json -> string, block: Block, late: set<string>, n: int): seq<Event> {
    Told(n, OpeningOf(block, late), DeltasOf(show, block, late))
  }

  /** The start of a response and its blocks, in order. */
  function RenderOpen(show: Json -> string, head: Head, content: seq<Block>, late: set<string>): seq<Event> {
    if content == [] then [Start(head.id, head.model)]
    else
      RenderOpen(show, head, content[..|content| - 1], late)
      + RenderBlock(show, content[|content| - 1], late, |content| - 1)
  }

  /** A response as an event stream. */
  function Render(show: Json -> string, response: Response, late: set<string>): seq<Event> {
    RenderOpen(show, response.head, response.content, late)
    + [End(response.head.stopReason, response.head.usage, response.head.vendor)]
  }

  /** A told block adds its life and no other. */
  lemma {:induction false} LifeOfTold(pre: seq<Event>, n: int, opening: Opening, deltas: seq<Delta>, j: int)
    ensures Life(pre + Told(n, opening, deltas), j) == if n == j then Some((opening, deltas)) else Life(pre, j)
  {
    var start := BlockStart(n, opening);
    LifeLast(pre, start, j);
    LifeOfDeltas(pre + [start], n, deltas, j);
    LifeLast((pre + [start]) + Deltas(n, deltas), BlockEnd(n), j);
    ToldParts(pre, n, opening, deltas);
    assert [] + deltas == deltas;
  }

  lemma {:induction false} ToldParts(pre: seq<Event>, n: int, opening: Opening, deltas: seq<Delta>)
    ensures pre + Told(n, opening, deltas) == ((pre + [BlockStart(n, opening)]) + Deltas(n, deltas)) + [BlockEnd(n)]
  {
  }

  lemma {:induction false} LifeOfOpen(show: Json -> string, head: Head, content: seq<Block>, late: set<string>, j: int)
    ensures Life(RenderOpen(show, head, content, late), j) ==
            if 0 <= j < |content| then Some((OpeningOf(content[j], late), DeltasOf(show, content[j], late))) else None
  {
    if content == [] {
      LifeLast([], Start(head.id, head.model), j);
      assert [] + [Start(head.id, head.model)] == [Start(head.id, head.model)];
    } else {
      var front := content[..|content| - 1];
      LifeOfOpen(show, head, front, late, j);
      var last := content[|content| - 1];
      LifeOfTold(RenderOpen(show, head, front, late), |front|, OpeningOf(last, late), DeltasOf(show, last, late), j);
    }
  }

  lemma {:induction false} HeadersOfTold(n: int, opening: Opening, deltas: seq<Delta>)
    ensures Headers(Told(n, opening, deltas)) == []
  {
    HeadersAppend([BlockStart(n, opening)] + Deltas(n, deltas), [BlockEnd(n)]);
    HeadersAppend([BlockStart(n, opening)], Deltas(n, deltas));
    DeltasAreNoHeaders(n, deltas);
    assert [BlockStart(n, opening)][..0] == [] && [BlockEnd(n)][..0] == [];
  }

  lemma {:induction false} HeadersOfOpen(show: Json -> string, head: Head, content: seq<Block>, late: set<string>)
    ensures Headers(RenderOpen(show, head, content, late)) == [Start(head.id, head.model)]
  {
    var start := [Start(head.id, head.model)];
    if content == [] {
      assert start[..0] == [];
    } else {
      var front := content[..|content| - 1];
      HeadersOfOpen(show, head, front, late);
      HeadersAppend(RenderOpen(show, head, front, late), RenderBlock(show, content[|content| - 1], late, |front|));
      HeadersOfTold(|front|, OpeningOf(content[|content| - 1], late), DeltasOf(show, content[|content| - 1], late));
    }
  }

  lemma {:induction false} HeadersLast(events: seq<Event>, ev: Event)
    requires ev.Start? || ev.End?
    ensures Headers(events + [ev]) == Headers(events) + [ev]
  {
    assert (events + [ev])[..|events|] == events;
  }

  lemma {:induction false} HeadOfTwo(head: Head)
    ensures HeadOf([Start(head.id, head.model)] + [End(head.stopReason, head.usage, head.vendor)]) == head
  {
    var start := Start(head.id, head.model);
    HeadLast([start], End(head.stopReason, head.usage, head.vendor));
    HeadLast([], start);
    assert [] + [start] == [start];
  }

  lemma {:induction false} RenderedHead(show: Json -> string, response: Response, late: set<string>)
    ensures HeadOf(Headers(Render(show, response, late))) == response.head
  {
    var head := response.head;
    HeadersOfOpen(show, head, response.content, late);
    HeadersLast(RenderOpen(show, head, response.content, late), End(head.stopReason, head.usage, head.vendor));
    HeadOfTwo(head);
  }

  lemma {:induction false} HeadLast(events: seq<Event>, ev: Event)
    ensures HeadOf(events + [ev]) == StepHead(HeadOf(events), ev)
  {
    assert (events + [ev])[..|events|] == events;
  }

  lemma {:induction false} LifeOfRender(show: Json -> string, response: Response, late: set<string>, i: int)
    ensures Life(Render(show, response, late), i) ==
            if 0 <= i < |response.content| then
              Some((OpeningOf(response.content[i], late), DeltasOf(show, response.content[i], late)))
            else None
  {
    LifeLast(RenderOpen(show, response.head, response.content, late),
             End(response.head.stopReason, response.head.usage, response.head.vendor), i);
    LifeOfOpen(show, response.head, response.content, late, i);
  }

  /** The indices 0, 1, 2 and so on. */
  function Indices(count: nat): (keys: seq<int>)
    ensures |keys| == count && forall i :: 0 <= i < count ==> keys[i] == i
  {
    if count == 0 then [] else Indices(count - 1) + [count - 1]
  }

  lemma {:induction false} IndicesAre(count: nat)
    ensures Ascending(Indices(count)) && forall i :: i in Indices(count) <==> 0 <= i < count
  {
    var keys := Indices(count);
    forall i
      ensures i in keys <==> 0 <= i < count
    {
      if 0 <= i < count {
        assert keys[i] == i;
      }
    }
  }

  /** Every response has a rendering, at the indices 0, 1, 2 and so on. */
  lemma {:induction false} RenderRenders(show: Json -> string, response: Response, late: set<string>)
    ensures Renders(show, Render(show, response, late), response, late, Indices(|response.content|))
  {
    var events, keys := Render(show, response, late), Indices(|response.content|);
    RenderedHead(show, response, late);
    IndicesAre(|keys|);
    forall i
      ensures Life(events, i).Some? <==> i in keys
    {
      LifeOfRender(show, response, late, i);
    }
    forall n | 0 <= n < |keys|
      ensures SameLife(Life(events, keys[n]),
                       Some((OpeningOf(response.content[n], late), DeltasOf(show, response.content[n], late))))
    {
      LifeOfRender(show, response, late, n);
    }
  }

  /** So collecting a rendering gives the response back. */
  lemma {:induction false} CollectUndoesRender(parse: Parser, show: Json -> string, response: Response,
                                               late: set<string>, r: Response)
    requires forall n :: 0 <= n < |response.content| ==> Printable(parse, show, response.content[n])
    requires Collected(parse, Render(show, response, late), r)
    ensures r == response
  {
    RenderRenders(show, response, late);
    CollectRecovers(parse, show, Render(show, response, late), response, late, Indices(|response.content|), r);
  }

  // ---------------------------------------------------------------- usage

  function UsageFromPromptTotal(promptTokens: int, outputTokens: int, cacheRead: int, cacheWrite: int): Usage {
    var uncached := promptTokens - cacheRead - cacheWrite;
    Usage(if uncached > 0 then uncached else 0, outputTokens, cacheRead, cacheWrite)
  }

  function PromptTokens(usage: Usage): int {
    usage.inputTokens + usage.cacheReadTokens + usage.cacheWriteTokens
  }

  /**
   The output and the two cached counts are the provider's own, the uncached part is never negative, and the
   provider's prompt total survives the split exactly when the cached part does not exceed it.
   */
  lemma {:induction false} PromptTotalSurvives(promptTokens: int, outputTokens: int, cacheRead: int, cacheWrite: int)
    ensures var usage := UsageFromPromptTotal(promptTokens, outputTokens, cacheRead, cacheWrite);
            && usage.outputTokens == outputTokens && usage.cacheReadTokens == cacheRead
            && usage.cacheWriteTokens == cacheWrite && usage.inputTokens >= 0
            && PromptTokens(usage) == usage.inputTokens + cacheRead + cacheWrite
            && (PromptTokens(usage) == promptTokens <==> cacheRead + cacheWrite <= promptTokens)
            && (cacheRead + cacheWrite > promptTokens ==> usage.inputTokens == 0)
  {
  }
}
