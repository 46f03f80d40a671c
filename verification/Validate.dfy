/**
 The request normaliser: orphaned tool results dropped, empty tool-use ids filled in, empty
 messages dropped, neighbours of one role merged. The id generator is a parameter: the `k`th id
 it makes.
 */
module Validate {
  import opened Wrappers
  import opened Request
  import T = Tokens

  /** A block and the role it is said in. Grouping does not look inside a block, so it is generic in it. */
  type Said<B> = (Role, B)

  type Tagged = Said<Block>

  type Generator = nat -> string

  // ---------------------------------------------------------------- the conversation as one list

  function Tag<B>(role: Role, blocks: seq<B>): seq<Said<B>> {
    if blocks == [] then [] else Tag(role, blocks[..|blocks| - 1]) + [(role, blocks[|blocks| - 1])]
  }

  function Flat<B>(messages: seq<Turn<B>>): seq<Said<B>> {
    if messages == [] then []
    else Flat(messages[..|messages| - 1]) + Tag(messages[|messages| - 1].role, messages[|messages| - 1].content)
  }

  /** What a pass over the blocks keeps, the tool-use ids it has seen, and the ids it has made. */
  datatype Pass = Pass(kept: seq<Tagged>, ids: set<string>, made: nat)

  function Filled(block: Block, id: string): Block
    requires block.ToolUse?
  {
    ToolUse(id, block.name, block.input, block.useCache)
  }

  function PassBlock(p: Pass, t: Tagged, gen: Generator): Pass {
    match t.1
    case ToolUse(id, _, _, _) =>
      if id != "" then Pass(p.kept + [t], p.ids + {id}, p.made)
      else Pass(p.kept + [(t.0, Filled(t.1, gen(p.made)))], p.ids + {gen(p.made)}, p.made + 1)
    case ToolResult(toolUseId, _, _, _, _, _, _) =>
      if toolUseId in p.ids then p.(kept := p.kept + [t]) else p
    case _ => p.(kept := p.kept + [t])
  }

  function Clean(ts: seq<Tagged>, gen: Generator): Pass {
    if ts == [] then Pass([], {}, 0) else PassBlock(Clean(ts[..|ts| - 1], gen), ts[|ts| - 1], gen)
  }

  /** Adds one block to a conversation, in the last message when the role is its role. */
  function Push<B>(messages: seq<Turn<B>>, t: Said<B>): seq<Turn<B>> {
    if messages != [] && messages[|messages| - 1].role == t.0 then
      messages[|messages| - 1 := Message(t.0, messages[|messages| - 1].content + [t.1])]
    else messages + [Message(t.0, [t.1])]
  }

  /** The fewest messages that say these blocks in this order. */
  function Group<B>(ts: seq<Said<B>>): seq<Turn<B>> {
    if ts == [] then [] else Push(Group(ts[..|ts| - 1]), ts[|ts| - 1])
  }

  /** What the normaliser answers. */
  function Validated(messages: seq<Message>, gen: Generator): seq<Message> {
    Group(Clean(Flat(messages), gen).kept)
  }

  // ---------------------------------------------------------------- the loop

  /** Adds a message's surviving content the way the source does. */
  function Merge<B>(messages: seq<Turn<B>>, role: Role, content: seq<B>): seq<Turn<B>> {
    if content == [] then messages
    else if messages != [] && messages[|messages| - 1].role == role then
      messages[|messages| - 1 := Message(role, messages[|messages| - 1].content + content)]
    else messages + [Message(role, content)]
  }

  lemma {:induction false} MergeIsPushing<B>(ts: seq<Said<B>>, role: Role, content: seq<B>)
    ensures Group(ts + Tag(role, content)) == Merge(Group(ts), role, content)
  {
    if content == [] {
      assert ts + Tag(role, content) == ts;
    } else {
      var front, last := content[..|content| - 1], content[|content| - 1];
      MergeIsPushing(ts, role, front);
      PushOneMore(ts, role, front, last);
      assert front + [last] == content;
    }
  }

  lemma {:induction false} PushOneMore<B>(ts: seq<Said<B>>, role: Role, content: seq<B>, block: B)
    requires Group(ts + Tag(role, content)) == Merge(Group(ts), role, content)
    ensures Group(ts + Tag(role, content + [block])) == Merge(Group(ts), role, content + [block])
  {
    KeepOne(ts, role, content, block);
    GroupLast(ts + Tag(role, content), (role, block));
    MergeOneMore(Group(ts), role, content, block);
  }

  lemma {:induction false} GroupLast<B>(ts: seq<Said<B>>, t: Said<B>)
    ensures Group(ts + [t]) == Push(Group(ts), t)
  {
    assert (ts + [t])[..|ts|] == ts;
  }

  lemma {:induction false} MergeOneMore<B>(messages: seq<Turn<B>>, role: Role, content: seq<B>, block: B)
    ensures Push(Merge(messages, role, content), (role, block)) == Merge(messages, role, content + [block])
  {
    var merged := Merge(messages, role, content);
    if content != [] {
      if messages != [] && messages[|messages| - 1].role == role {
        var front, last := messages[..|messages| - 1], messages[|messages| - 1];
        assert merged[..|merged| - 1] == front;
        assert (last.content + content) + [block] == last.content + (content + [block]);
      } else {
        assert merged[..|merged| - 1] == messages;
      }
    } else {
      assert content + [block] == [block];
    }
  }

  lemma {:induction false} CleanLast(ts: seq<Tagged>, t: Tagged, gen: Generator)
    ensures Clean(ts + [t], gen) == PassBlock(Clean(ts, gen), t, gen)
  {
    assert (ts + [t])[..|ts|] == ts;
  }

  lemma {:induction false} TagLast<B>(role: Role, blocks: seq<B>, block: B)
    ensures Tag(role, blocks + [block]) == Tag(role, blocks) + [(role, block)]
  {
    assert (blocks + [block])[..|blocks|] == blocks;
  }

  lemma {:induction false} CleanNext(before: seq<Tagged>, role: Role, blocks: seq<Block>, block: Block, gen: Generator)
    ensures Clean(before + Tag(role, blocks + [block]), gen)
            == PassBlock(Clean(before + Tag(role, blocks), gen), (role, block), gen)
  {
    KeepOne(before, role, blocks, block);
    CleanLast(before + Tag(role, blocks), (role, block), gen);
  }

  /** One block: what is kept of it, if anything is, and the ids seen and made. */
  method CleanBlock(block: Block, gen: Generator, ghost role: Role, ghost kept: seq<Tagged>, ids0: set<string>,
                    made0: nat)
    returns (survivor: Option<Block>, ids: set<string>, made: nat)
    ensures PassBlock(Pass(kept, ids0, made0), (role, block), gen)
            == Pass(if survivor.Some? then kept + [(role, survivor.value)] else kept, ids, made)
  {
    survivor, ids, made := None, ids0, made0;
    if block.ToolUse? {
      var id := if |block.id| > 0 then block.id else gen(made);
      made := if |block.id| > 0 then made else made + 1;
      ids := ids + {id};
      survivor := Some(Filled(block, id));
    } else if !(block.ToolResult? && block.toolUseId !in ids) {
      survivor := Some(block);
    }
  }

  /** One message's blocks: what survives of them, and the ids seen and made. */
  method CleanMessage(message: Message, gen: Generator, ghost before: seq<Tagged>, ids0: set<string>, made0: nat)
    returns (content: seq<Block>, ids: set<string>, made: nat)
    requires ids0 == Clean(before, gen).ids && made0 == Clean(before, gen).made
    ensures Clean(before + Tag(message.role, message.content), gen)
            == Pass(Clean(before, gen).kept + Tag(message.role, content), ids, made)
  {
    content, ids, made := [], ids0, made0;
    ghost var kept := Clean(before, gen).kept;
    assert before + Tag(message.role, message.content[..0]) == before && kept + Tag(message.role, []) == kept;
    for n := 0 to |message.content|
      invariant Clean(before + Tag(message.role, message.content[..n]), gen)
                == Pass(kept + Tag(message.role, content), ids, made)
    {
      var block := message.content[n];
      assert message.content[..n + 1] == message.content[..n] + [block];
      CleanNext(before, message.role, message.content[..n], block, gen);
      var survivor;
      survivor, ids, made := CleanBlock(block, gen, message.role, kept + Tag(message.role, content), ids, made);
      if survivor.Some? {
        KeepOne(kept, message.role, content, survivor.value);
        content := content + [survivor.value];
      }
    }
    assert message.content[..|message.content|] == message.content;
  }

  lemma {:induction false} KeepOne<B>(kept: seq<Said<B>>, role: Role, content: seq<B>, block: B)
    ensures kept + Tag(role, content + [block]) == (kept + Tag(role, content)) + [(role, block)]
  {
    TagLast(role, content, block);
  }

  /** One more message: what survives of it is merged into the conversation so far. */
  lemma {:induction false} ValidatedNext(messages: seq<Message>, n: nat, gen: Generator, content: seq<Block>,
                                         next: Pass)
    requires n < |messages|
    requires Clean(Flat(messages[..n]) + Tag(messages[n].role, messages[n].content), gen) == next
    requires next.kept == Clean(Flat(messages[..n]), gen).kept + Tag(messages[n].role, content)
    ensures Clean(Flat(messages[..n + 1]), gen) == next
    ensures Validated(messages[..n + 1], gen) == Merge(Validated(messages[..n], gen), messages[n].role, content)
  {
    FlatNext(messages, n);
    MergeIsPushing(Clean(Flat(messages[..n]), gen).kept, messages[n].role, content);
  }

  lemma {:induction false} FlatNext<B>(messages: seq<Turn<B>>, n: nat)
    requires n < |messages|
    ensures Flat(messages[..n + 1]) == Flat(messages[..n]) + Tag(messages[n].role, messages[n].content)
  {
    assert messages[..n + 1][..n] == messages[..n];
  }

  /** The last message grows in place when the role is its role; an empty one is not added. */
  method MergeInto(cleaned: seq<Message>, role: Role, content: seq<Block>) returns (merged: seq<Message>)
    ensures merged == Merge(cleaned, role, content)
  {
    merged := cleaned;
    if |content| > 0 {
      if cleaned != [] && cleaned[|cleaned| - 1].role == role {
        merged := cleaned[|cleaned| - 1 := Message(role, cleaned[|cleaned| - 1].content + content)];
      } else {
        merged := cleaned + [Message(role, content)];
      }
    }
  }

  method CleanMessages(messages: seq<Message>, gen: Generator) returns (cleaned: seq<Message>)
    ensures cleaned == Validated(messages, gen)
  {
    var ids, made := {}, 0;
    cleaned := [];
    for n := 0 to |messages|
      invariant ids == Clean(Flat(messages[..n]), gen).ids && made == Clean(Flat(messages[..n]), gen).made
      invariant cleaned == Validated(messages[..n], gen)
    {
      ghost var kept := Clean(Flat(messages[..n]), gen).kept;
      var content;
      content, ids, made := CleanMessage(messages[n], gen, Flat(messages[..n]), ids, made);
      ValidatedNext(messages, n, gen, content, Pass(kept + Tag(messages[n].role, content), ids, made));
      cleaned := MergeInto(cleaned, messages[n].role, content);
    }
    assert messages[..|messages|] == messages;
  }

  method ValidateRequest(request: ChatRequest, gen: Generator) returns (r: ChatRequest)
    ensures r == request.(messages := Validated(request.messages, gen))
  {
    var cleaned := CleanMessages(request.messages, gen);
    r := request.(messages := cleaned);
  }

  // ---------------------------------------------------------------- the normal form

  /** No empty message, and no two neighbours of one role. */
  predicate Normal<B>(messages: seq<Turn<B>>) {
    && (forall i :: 0 <= i < |messages| ==> messages[i].content != [])
    && (forall i :: 0 < i < |messages| ==> messages[i - 1].role != messages[i].role)
  }

  lemma {:induction false} GroupIsNormal<B>(ts: seq<Said<B>>)
    ensures Normal(Group(ts))
  {
    if ts != [] {
      GroupIsNormal(ts[..|ts| - 1]);
    }
  }

  lemma {:induction false} FlatGroup<B>(ts: seq<Said<B>>)
    ensures Flat(Group(ts)) == ts
  {
    if ts != [] {
      var front, last := ts[..|ts| - 1], ts[|ts| - 1];
      assert ts == front + [last];
      FlatGroup(front);
      FlatGroupStep(front, last);
    }
  }

  lemma {:induction false} FlatGroupStep<B>(ts: seq<Said<B>>, t: Said<B>)
    requires Flat(Group(ts)) == ts
    ensures Flat(Group(ts + [t])) == ts + [t]
  {
    GroupLast(ts, t);
    FlatPush(Group(ts), t);
  }

  lemma {:induction false} FlatPush<B>(messages: seq<Turn<B>>, t: Said<B>)
    ensures Flat(Push(messages, t)) == Flat(messages) + [t]
  {
    var pushed := Push(messages, t);
    if messages != [] && messages[|messages| - 1].role == t.0 {
      var front, last := messages[..|messages| - 1], messages[|messages| - 1];
      assert pushed[..|pushed| - 1] == front;
      TagLast(t.0, last.content, t.1);
    } else {
      assert pushed[..|pushed| - 1] == messages;
      TagLast(t.0, [], t.1);
      assert [] + [t.1] == [t.1];
    }
  }

  /** A conversation in normal form is the only grouping of its blocks. */
  lemma {:induction false} NormalIsGrouped<B>(messages: seq<Turn<B>>)
    requires Normal(messages)
    ensures Group(Flat(messages)) == messages
  {
    if messages != [] {
      var front, last := messages[..|messages| - 1], messages[|messages| - 1];
      NormalIsGrouped(front);
      GroupNext(front, last);
      assert front + [last] == messages;
    }
  }

  lemma {:induction false} GroupNext<B>(front: seq<Turn<B>>, last: Turn<B>)
    requires Group(Flat(front)) == front && last.content != []
    requires front == [] || front[|front| - 1].role != last.role
    ensures Group(Flat(front + [last])) == front + [last]
  {
    assert (front + [last])[..|front|] == front;
    MergeIsPushing(Flat(front), last.role, last.content);
  }

  /** The ids of the tool uses in a list. */
  function UseIds(ts: seq<Tagged>): set<string> {
    if ts == [] then {}
    else UseIds(ts[..|ts| - 1]) + if ts[|ts| - 1].1.ToolUse? then {ts[|ts| - 1].1.id} else {}
  }

  /** Every tool result in the list answers a tool use before it. */
  predicate Answered(ts: seq<Tagged>) {
    ts == [] || (Answered(ts[..|ts| - 1])
                 && (ts[|ts| - 1].1.ToolResult? ==> ts[|ts| - 1].1.toolUseId in UseIds(ts[..|ts| - 1])))
  }

  lemma {:induction false} UseOf(ts: seq<Tagged>, id: string) returns (j: nat)
    requires id in UseIds(ts)
    ensures j < |ts| && ts[j].1.ToolUse? && ts[j].1.id == id
  {
    if ts[|ts| - 1].1.ToolUse? && ts[|ts| - 1].1.id == id {
      j := |ts| - 1;
    } else {
      j := UseOf(ts[..|ts| - 1], id);
    }
  }

  /** The tool use that the tool result at `i` answers. */
  lemma {:induction false} AnsweredBy(ts: seq<Tagged>, i: nat) returns (j: nat)
    requires Answered(ts) && i < |ts| && ts[i].1.ToolResult?
    ensures j < i && ts[j].1.ToolUse? && ts[j].1.id == ts[i].1.toolUseId
  {
    var front := ts[..|ts| - 1];
    if i < |front| {
      j := AnsweredBy(front, i);
    } else {
      j := UseOf(front, ts[i].1.toolUseId);
    }
  }

  lemma {:induction false} PassStep(p: Pass, t: Tagged, gen: Generator)
    requires p.ids == UseIds(p.kept) && Answered(p.kept)
    ensures PassBlock(p, t, gen).ids == UseIds(PassBlock(p, t, gen).kept) && Answered(PassBlock(p, t, gen).kept)
  {
    var after := PassBlock(p, t, gen).kept;
    if after != p.kept {
      assert after[..|after| - 1] == p.kept;
    }
  }

  lemma {:induction false} CleanSees(ts: seq<Tagged>, gen: Generator)
    ensures Clean(ts, gen).ids == UseIds(Clean(ts, gen).kept) && Answered(Clean(ts, gen).kept)
  {
    if ts != [] {
      CleanSees(ts[..|ts| - 1], gen);
      PassStep(Clean(ts[..|ts| - 1], gen), ts[|ts| - 1], gen);
    }
  }

  /** The block a survivor comes from: itself, or the same tool use with its empty id filled in. */
  predicate From(kept: Tagged, original: Tagged) {
    kept == original || (kept.0 == original.0 && original.1.ToolUse? && original.1.id == ""
                         && kept.1.ToolUse? && kept.1 == original.1.(id := kept.1.id))
  }

  /** The positions of the list that survive, in order. */
  function Origins(ts: seq<Tagged>, gen: Generator): seq<nat> {
    if ts == [] then []
    else
      var front, last := ts[..|ts| - 1], ts[|ts| - 1];
      if last.1.ToolResult? && last.1.toolUseId !in Clean(front, gen).ids then Origins(front, gen)
      else Origins(front, gen) + [|front|]
  }

  lemma {:induction false} OriginsBounded(ts: seq<Tagged>, gen: Generator, k: nat)
    ensures |Origins(ts, gen)| == |Clean(ts, gen).kept|
    ensures k < |Origins(ts, gen)| ==> Origins(ts, gen)[k] < |ts|
  {
    if ts != [] {
      OriginsBounded(ts[..|ts| - 1], gen, k);
    }
  }

  /** Every survivor is a block of the list, or a tool use of it with its id filled in. */
  lemma {:induction false} SurvivorIsOriginal(ts: seq<Tagged>, gen: Generator, k: nat)
    requires k < |Clean(ts, gen).kept|
    ensures |Origins(ts, gen)| == |Clean(ts, gen).kept| && Origins(ts, gen)[k] < |ts|
    ensures From(Clean(ts, gen).kept[k], ts[Origins(ts, gen)[k]])
  {
    OriginsBounded(ts, gen, k);
    var front := ts[..|ts| - 1];
    OriginsBounded(front, gen, k);
    if k < |Clean(front, gen).kept| {
      SurvivorIsOriginal(front, gen, k);
    }
  }

  /** The survivors stand in their original order. */
  lemma {:induction false} SurvivorsInOrder(ts: seq<Tagged>, gen: Generator, j: nat, k: nat)
    requires j < k < |Origins(ts, gen)|
    ensures Origins(ts, gen)[j] < Origins(ts, gen)[k]
  {
    var front := ts[..|ts| - 1];
    if k < |Origins(front, gen)| {
      SurvivorsInOrder(front, gen, j, k);
    } else {
      OriginsBounded(front, gen, j);
    }
  }

  lemma {:induction false} OriginsBelow(ts: seq<Tagged>, gen: Generator, i: nat)
    requires i in Origins(ts, gen)
    ensures i < |ts|
  {
    var front := ts[..|ts| - 1];
    if i in Origins(front, gen) {
      OriginsBelow(front, gen, i);
    }
  }

  /** A block is dropped exactly when it is a tool result that no surviving tool use before it answers to. */
  lemma {:induction false} OnlyOrphansDropped(ts: seq<Tagged>, gen: Generator, i: nat)
    requires i < |ts|
    ensures i in Origins(ts, gen) <==>
            !(ts[i].1.ToolResult? && ts[i].1.toolUseId !in UseIds(Clean(ts[..i], gen).kept))
  {
    var front := ts[..|ts| - 1];
    if i < |front| {
      OnlyOrphansDropped(front, gen, i);
      assert front[..i] == ts[..i];
    } else {
      assert ts[..i] == front;
      CleanSees(front, gen);
      if i in Origins(front, gen) {
        OriginsBelow(front, gen, i);
      }
    }
  }

  /**
   What the normaliser guarantees of every conversation: normal form, every tool result answered
   by a tool use before it, and exactly the surviving blocks, in order and in their own roles.
   */
  lemma {:induction false} ValidatedIsNormal(messages: seq<Message>, gen: Generator)
    ensures Normal(Validated(messages, gen))
    ensures Flat(Validated(messages, gen)) == Clean(Flat(messages), gen).kept
    ensures Answered(Flat(Validated(messages, gen)))
  {
    GroupIsNormal(Clean(Flat(messages), gen).kept);
    FlatGroup(Clean(Flat(messages), gen).kept);
    CleanSees(Flat(messages), gen);
  }

  // ---------------------------------------------------------------- idempotence

  /** Every tool use has an id. */
  predicate Ids(ts: seq<Tagged>) {
    "" !in UseIds(ts)
  }

  /** Every id the pass made is one. */
  predicate MadeIds(gen: Generator, made: nat) {
    forall k: nat :: k < made ==> gen(k) != ""
  }

  /** A tool use keeps an empty id exactly when the generator made it one. */
  lemma {:induction false} CleanFillsIds(ts: seq<Tagged>, gen: Generator)
    ensures Ids(Clean(ts, gen).kept) <==> MadeIds(gen, Clean(ts, gen).made)
  {
    CleanSees(ts, gen);
    if ts != [] {
      var front, last := ts[..|ts| - 1], ts[|ts| - 1];
      CleanFillsIds(front, gen);
      CleanSees(front, gen);
      MadeOneMore(gen, Clean(front, gen).made);
    }
  }

  lemma {:induction false} MadeOneMore(gen: Generator, made: nat)
    ensures MadeIds(gen, made + 1) <==> MadeIds(gen, made) && gen(made) != ""
  {
  }

  /** A clean list comes through a second pass unchanged. */
  lemma {:induction false} CleanIsFixed(ts: seq<Tagged>, gen: Generator)
    requires Ids(ts) && Answered(ts)
    ensures Clean(ts, gen) == Pass(ts, UseIds(ts), 0)
  {
    if ts != [] {
      var front, last := ts[..|ts| - 1], ts[|ts| - 1];
      assert front + [last] == ts;
      CleanIsFixed(front, gen);
      FixedNext(front, last, gen);
    }
  }

  lemma {:induction false} FixedNext(ts: seq<Tagged>, t: Tagged, gen: Generator)
    requires Clean(ts, gen) == Pass(ts, UseIds(ts), 0)
    requires t.1.ToolUse? ==> t.1.id != ""
    requires t.1.ToolResult? ==> t.1.toolUseId in UseIds(ts)
    ensures Clean(ts + [t], gen) == Pass(ts + [t], UseIds(ts + [t]), 0)
  {
    CleanLast(ts, t, gen);
    assert (ts + [t])[..|ts|] == ts;
  }

  lemma {:induction false} SecondPassFixed(messages: seq<Message>, gen: Generator, again: Generator)
    requires MadeIds(gen, Clean(Flat(messages), gen).made)
    ensures Validated(Validated(messages, gen), again) == Validated(messages, gen)
  {
    var ts := Flat(messages);
    ValidatedIsNormal(messages, gen);
    CleanFillsIds(ts, gen);
    CleanIsFixed(Clean(ts, gen).kept, again);
  }

  lemma {:induction false} SecondPassFills(messages: seq<Message>, gen: Generator, again: Generator)
    requires !MadeIds(gen, Clean(Flat(messages), gen).made) && forall k :: again(k) != ""
    ensures Validated(Validated(messages, gen), again) != Validated(messages, gen)
  {
    var kept := Clean(Flat(messages), gen).kept;
    ValidatedIsNormal(messages, gen);
    CleanFillsIds(Flat(messages), gen);
    CleanFillsIds(kept, again);
    FlatGroup(Clean(kept, again).kept);
    FlatGroup(kept);
  }

  /**
   Normalising twice is normalising once, whatever generator the second pass is given, if and only if
   none of the ids the first pass had to make was empty.
   */
  lemma {:induction false} ValidateIsIdempotent(messages: seq<Message>, gen: Generator)
    ensures (forall again: Generator :: Validated(Validated(messages, gen), again) == Validated(messages, gen))
            <==> MadeIds(gen, Clean(Flat(messages), gen).made)
  {
    if MadeIds(gen, Clean(Flat(messages), gen).made) {
      forall again: Generator
        ensures Validated(Validated(messages, gen), again) == Validated(messages, gen)
      {
        SecondPassFixed(messages, gen, again);
      }
    } else {
      SecondPassFills(messages, gen, k => "x");
    }
  }

  /** A generator that makes the empty id is not repaired: the next pass makes another. */
  lemma {:induction false} EmptyGeneratorIsNotIdempotent(use: Block)
    requires use.ToolUse? && use.id == ""
    ensures var once := Validated([Message(User, [use])], k => "");
            once == [Message(User, [use])] && Validated(once, k => "x") == [Message(User, [Filled(use, "x")])]
  {
    OneUse(use, k => "");
    OneUse(use, k => "x");
  }

  lemma {:induction false} OneUse(use: Block, gen: Generator)
    requires use.ToolUse? && use.id == ""
    ensures Validated([Message(User, [use])], gen) == [Message(User, [Filled(use, gen(0))])]
  {
    var message, t, filled := Message(User, [use]), (User, use), (User, Filled(use, gen(0)));
    FlatOne(message, t);
    CleanLast([], t, gen);
    assert [] + [t] == [t];
    assert Clean([], gen) == Pass([], {}, 0);
    assert Clean([t], gen).kept == [filled];
    GroupLast([], filled);
    assert [] + [filled] == [filled];
  }

  lemma {:induction false} FlatOne<B>(message: Turn<B>, t: Said<B>)
    requires message.content == [t.1] && message.role == t.0
    ensures Flat([message]) == [t]
  {
    assert [message][..0] == [] && [t.1][..0] == [];
    assert Tag<B>(t.0, []) == [] && Tag(t.0, [t.1]) == [t];
  }

  // ---------------------------------------------------------------- tokens

  function Weight<B>(cost: B -> nat, ts: seq<Said<B>>): nat {
    if ts == [] then 0 else Weight(cost, ts[..|ts| - 1]) + cost(ts[|ts| - 1].1)
  }

  function CostOf(json: T.JsonText): Block -> nat {
    b => T.BlockTokens(json, b)
  }

  lemma {:induction false} WeightLast<B>(cost: B -> nat, ts: seq<Said<B>>, t: Said<B>)
    ensures Weight(cost, ts + [t]) == Weight(cost, ts) + cost(t.1)
  {
    assert (ts + [t])[..|ts|] == ts;
  }

  lemma {:induction false} WeightAppend<B>(cost: B -> nat, a: seq<Said<B>>, b: seq<Said<B>>)
    ensures Weight(cost, a + b) == Weight(cost, a) + Weight(cost, b)
  {
    if b == [] {
      assert a + b == a;
    } else {
      WeightAppend(cost, a, b[..|b| - 1]);
      assert (a + b)[..|a + b| - 1] == a + b[..|b| - 1];
    }
  }

  lemma {:induction false} TagWeight(json: T.JsonText, role: Role, blocks: seq<Block>)
    ensures Weight(CostOf(json), Tag(role, blocks)) == T.BlocksTokens(json, blocks)
  {
    if blocks != [] {
      var front, last := blocks[..|blocks| - 1], blocks[|blocks| - 1];
      TagWeight(json, role, front);
      WeightLast(CostOf(json), Tag(role, front), (role, last));
    }
  }

  /** A conversation costs its blocks, and the framing of its messages. */
  lemma {:induction false} FlatWeight(json: T.JsonText, messages: seq<Message>)
    ensures T.MessagesTokens(json, messages) == 4 * |messages| + Weight(CostOf(json), Flat(messages))
  {
    if messages != [] {
      var front, last := messages[..|messages| - 1], messages[|messages| - 1];
      FlatWeight(json, front);
      TagWeight(json, last.role, last.content);
      WeightAppend(CostOf(json), Flat(front), Tag(last.role, last.content));
    }
  }

  /** What is kept of a block costs what the block does: an id costs nothing. */
  lemma {:induction false} PassCostsLess(json: T.JsonText, p: Pass, t: Tagged, gen: Generator)
    ensures Weight(CostOf(json), PassBlock(p, t, gen).kept) <= Weight(CostOf(json), p.kept) + T.BlockTokens(json, t.1)
  {
    var kept := KeptOf(p, t.0, t.1, gen);
    if kept.Some? {
      WeightLast(CostOf(json), p.kept, (t.0, kept.value));
    }
  }

  lemma {:induction false} CleanCostsLess(json: T.JsonText, ts: seq<Tagged>, gen: Generator)
    ensures Weight(CostOf(json), Clean(ts, gen).kept) <= Weight(CostOf(json), ts)
  {
    if ts != [] {
      CleanCostsLess(json, ts[..|ts| - 1], gen);
      PassCostsLess(json, Clean(ts[..|ts| - 1], gen), ts[|ts| - 1], gen);
    }
  }

  /** What survives of a message is said in the role of the message. */
  lemma {:induction false} CleanAppend(a: seq<Tagged>, role: Role, blocks: seq<Block>, gen: Generator)
    returns (content: seq<Block>)
    ensures Clean(a + Tag(role, blocks), gen).kept == Clean(a, gen).kept + Tag(role, content)
  {
    if blocks == [] {
      content := [];
      assert a + Tag(role, blocks) == a;
      assert Clean(a, gen).kept + Tag(role, []) == Clean(a, gen).kept;
    } else {
      var front, last := blocks[..|blocks| - 1], blocks[|blocks| - 1];
      var before := CleanAppend(a, role, front, gen);
      content := CleanOneMore(a, role, front, last, before, gen);
      assert front + [last] == blocks;
    }
  }

  /** What is kept of one block, if anything is. */
  lemma {:induction false} KeptOf(p: Pass, role: Role, block: Block, gen: Generator) returns (kept: Option<Block>)
    ensures PassBlock(p, (role, block), gen).kept == if kept.Some? then p.kept + [(role, kept.value)] else p.kept
    ensures kept.Some? ==> From((role, kept.value), (role, block))
  {
    if block.ToolUse? {
      kept := Some(if block.id != "" then block else Filled(block, gen(p.made)));
    } else if block.ToolResult? && block.toolUseId !in p.ids {
      kept := None;
    } else {
      kept := Some(block);
    }
  }

  lemma {:induction false} CleanOneMore(a: seq<Tagged>, role: Role, blocks: seq<Block>, block: Block,
                                        before: seq<Block>, gen: Generator)
    returns (content: seq<Block>)
    requires Clean(a + Tag(role, blocks), gen).kept == Clean(a, gen).kept + Tag(role, before)
    ensures Clean(a + Tag(role, blocks + [block]), gen).kept == Clean(a, gen).kept + Tag(role, content)
  {
    CleanNext(a, role, blocks, block, gen);
    var kept := KeptOf(Clean(a + Tag(role, blocks), gen), role, block, gen);
    content := before;
    if kept.Some? {
      KeepOne(Clean(a, gen).kept, role, before, kept.value);
      content := before + [kept.value];
    }
  }

  lemma {:induction false} NoMoreMessages(messages: seq<Message>, gen: Generator)
    ensures |Validated(messages, gen)| <= |messages|
  {
    if messages != [] {
      var front, last := messages[..|messages| - 1], messages[|messages| - 1];
      NoMoreMessages(front, gen);
      var content := CleanAppend(Flat(front), last.role, last.content, gen);
      MergeIsPushing(Clean(Flat(front), gen).kept, last.role, content);
    }
  }

  /** Normalising never makes a request look larger. */
  lemma {:induction false} ValidateNeverCostsMore(json: T.JsonText, request: ChatRequest, gen: Generator)
    ensures T.Estimate(json, request.(messages := Validated(request.messages, gen))) <= T.Estimate(json, request)
  {
    var messages := request.messages;
    var cleaned := Validated(messages, gen);
    FlatWeight(json, messages);
    FlatWeight(json, cleaned);
    ValidatedIsNormal(messages, gen);
    CleanCostsLess(json, Flat(messages), gen);
    NoMoreMessages(messages, gen);
  }
}
