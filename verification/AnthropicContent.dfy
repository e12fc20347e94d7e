/**
 What a delivered Anthropic message holds, by the entries of its blocks. A block is a dictionary, so its keys are distinct.
 Its assembled JSON is gone, the input parsed from that stands in its place among the members, and nothing else changes.
 */
module AnthropicContent {
  import opened Utf16
  import opened Wrappers
  import opened Sequences
  import opened IntOrder
  import opened JsonText
  import opened ProviderCalls
  import opened AnthropicStream

  function Keys(block: Block): (keys: seq<Text>)
    ensures |keys| == |block| && forall i :: 0 <= i < |block| ==> keys[i] == block[i].key
  {
    seq(|block|, i requires 0 <= i < |block| => block[i].key)
  }

  predicate IsDictionary(block: Block) {
    NoDuplicates(Keys(block))
  }

  /** The members under other keys, in order. */
  function Without(block: Block, keys: set<Text>): Block {
    if block == [] then []
    else (if block[0].key in keys then [] else [block[0]]) + Without(block[1..], keys)
  }

  /** The block holds assembled JSON. */
  ghost predicate HoldsJson(block: Block) {
    exists json :: Entry(PARTIAL_JSON, String(json)) in block
  }

  /** `block` as it is delivered. */
  ghost predicate IsDelivered(num: Text -> Double, block: Block, final: Block) {
    && IsDictionary(final)
    && (!HoldsJson(block) ==> final == block)
    && forall json :: Entry(PARTIAL_JSON, String(json)) in block ==>
         && ParseText(num, json).Ok? && Entry(INPUT, ParseText(num, json).value) in final
         && PARTIAL_JSON !in Keys(final)
         && Keys(final) == Keys(Without(block, {PARTIAL_JSON})) + (if INPUT in Keys(block) then [] else [INPUT])
         && Without(final, {INPUT}) == Without(block, {INPUT, PARTIAL_JSON})
  }

  /** A tool use in a delivered message is complete. */
  ghost predicate IsComplete(final: Block) {
    Entry(TYPE, String(TOOL_USE)) in final ==>
      && (exists id :: id != [] && Entry(ID, String(id)) in final)
      && (exists name :: name != [] && Entry(NAME, String(name)) in final)
      && INPUT in Keys(final)
  }

  // ----- Dictionaries

  lemma {:induction false} KeysOfCons(entry: Entry<Json>, block: Block)
    ensures Keys([entry] + block) == [entry.key] + Keys(block)
  {
  }

  lemma {:induction false} ConsDistinct(key: Text, keys: seq<Text>)
    ensures NoDuplicates([key] + keys) <==> key !in keys && NoDuplicates(keys)
  {
    var all := [key] + keys;
    assert forall i :: 0 <= i < |keys| ==> all[i + 1] == keys[i];
    if NoDuplicates(all) {
      forall i, j | 0 <= i < j < |keys|
        ensures keys[i] != keys[j]
      {
        assert all[i + 1] != all[j + 1];
      }
      forall i | 0 <= i < |keys|
        ensures keys[i] != key
      {
        assert all[0] != all[i + 1];
      }
    }
  }

  lemma {:induction false} ConsIsDictionary(entry: Entry<Json>, block: Block)
    ensures IsDictionary([entry] + block) <==> entry.key !in Keys(block) && IsDictionary(block)
    ensures forall key :: key in Keys([entry] + block) <==> key == entry.key || key in Keys(block)
  {
    KeysOfCons(entry, block);
    ConsDistinct(entry.key, Keys(block));
  }

  lemma {:induction false} TailIsDictionary(block: Block)
    requires block != []
    ensures IsDictionary(block) <==> block[0].key !in Keys(block[1..]) && IsDictionary(block[1..])
    ensures forall key :: key in Keys(block) <==> key == block[0].key || key in Keys(block[1..])
  {
    assert block == [block[0]] + block[1..];
    ConsIsDictionary(block[0], block[1..]);
  }

  /** What a key is found to hold is its one entry. */
  lemma {:induction false} LookupIsEntry(block: Block, key: Text, value: Json)
    requires IsDictionary(block)
    ensures Lookup(block, key) == Some(value) <==> Entry(key, value) in block
    ensures Has(block, key) <==> key in Keys(block)
  {
    if block != [] {
      TailIsDictionary(block);
      LookupIsEntry(block[1..], key, value);
      KeyOfEntry(block[1..], block[0].key);
    }
  }

  lemma {:induction false} KeyOfEntry(block: Block, key: Text)
    requires key !in Keys(block)
    ensures forall entry :: entry in block ==> entry.key != key
  {
    forall entry | entry in block
      ensures entry.key != key
    {
      var i :| 0 <= i < |block| && block[i] == entry;
      assert Keys(block)[i] == entry.key;
    }
  }

  lemma {:induction false} PutKeys(block: Block, key: Text, value: Json)
    ensures Keys(Put(block, key, value)) == Keys(block) + if key in Keys(block) then [] else [key]
  {
    if block == [] {
    } else {
      assert block == [block[0]] + block[1..];
      KeysOfCons(block[0], block[1..]);
      if block[0].key == key {
        KeysOfCons(Entry(key, value), block[1..]);
      } else {
        PutKeys(block[1..], key, value);
        KeysOfCons(block[0], Put(block[1..], key, value));
      }
    }
  }

  lemma {:induction false} PutIsDictionary(block: Block, key: Text, value: Json)
    requires IsDictionary(block)
    ensures IsDictionary(Put(block, key, value)) && Entry(key, value) in Put(block, key, value)
  {
    PutKeys(block, key, value);
    PutTwice(block, key, value, value);
    LookupIsEntry(Put(block, key, value), key, value);
  }

  lemma {:induction false} PutWithout(block: Block, key: Text, value: Json, keys: set<Text>)
    requires key in keys
    ensures Without(Put(block, key, value), keys) == Without(block, keys)
  {
    if block != [] {
      var put := Put(block, key, value);
      if block[0].key == key {
        assert put[1..] == block[1..];
      } else {
        PutWithout(block[1..], key, value, keys);
        assert put[1..] == Put(block[1..], key, value);
      }
    }
  }

  lemma {:induction false} WithoutAbsent(block: Block, keys: set<Text>)
    requires forall i :: 0 <= i < |block| ==> block[i].key !in keys
    ensures Without(block, keys) == block
  {
    if block != [] {
      WithoutAbsent(block[1..], keys);
    }
  }

  lemma {:induction false} RemovedIs(block: Block, key: Text)
    requires IsDictionary(block)
    ensures Removed(block, key) == Without(block, {key})
  {
    if block != [] {
      TailIsDictionary(block);
      if block[0].key == key {
        assert forall i :: 0 <= i < |block[1..]| ==> Keys(block[1..])[i] != key;
        WithoutAbsent(block[1..], {key});
      } else {
        RemovedIs(block[1..], key);
      }
    }
  }

  lemma {:induction false} WithoutKeys(block: Block, keys: set<Text>)
    ensures forall key :: key in Keys(Without(block, keys)) <==> key in Keys(block) && key !in keys
  {
    if block != [] {
      WithoutKeys(block[1..], keys);
      TailIsDictionary(block);
      if block[0].key in keys {
        assert [] + Without(block[1..], keys) == Without(block[1..], keys);
      } else {
        ConsIsDictionary(block[0], Without(block[1..], keys));
      }
    }
  }

  lemma {:induction false} WithoutIsDictionary(block: Block, keys: set<Text>)
    requires IsDictionary(block)
    ensures IsDictionary(Without(block, keys))
  {
    if block != [] {
      TailIsDictionary(block);
      WithoutIsDictionary(block[1..], keys);
      WithoutKeys(block[1..], keys);
      if block[0].key in keys {
        assert [] + Without(block[1..], keys) == Without(block[1..], keys);
      } else {
        ConsIsDictionary(block[0], Without(block[1..], keys));
      }
    }
  }

  lemma {:induction false} WithoutEntry(block: Block, keys: set<Text>, entry: Entry<Json>)
    ensures entry in Without(block, keys) <==> entry in block && entry.key !in keys
  {
    if block != [] {
      WithoutEntry(block[1..], keys, entry);
      assert block == [block[0]] + block[1..];
    }
  }

  lemma {:induction false} WithoutBoth(block: Block, a: set<Text>, b: set<Text>)
    ensures Without(Without(block, a), b) == Without(block, a + b)
  {
    if block != [] {
      var rest := Without(block[1..], a);
      WithoutBoth(block[1..], a, b);
      if block[0].key in a {
        assert [] + rest == rest;
      } else {
        assert Without(block, a)[1..] == rest;
      }
    }
  }

  lemma {:induction false} WithoutHead(block: Block, keys: set<Text>)
    requires block != []
    ensures Keys(Without(block, keys)) ==
            (if block[0].key in keys then [] else [block[0].key]) + Keys(Without(block[1..], keys))
  {
    KeysOfCons(block[0], Without(block[1..], keys));
  }

  /** Setting one key and dropping another. */
  lemma {:induction false} PutThenWithout(block: Block, key: Text, value: Json, dropped: Text)
    requires key != dropped
    ensures Keys(Without(Put(block, key, value), {dropped})) ==
            Keys(Without(block, {dropped})) + if key in Keys(block) then [] else [key]
  {
    var put, more := Put(block, key, value), if key in Keys(block) then [] else [key];
    WithoutHead(put, {dropped});
    if block == [] {
      assert put[1..] == [];
    } else {
      TailIsDictionary(block);
      WithoutHead(block, {dropped});
      if block[0].key == key {
        assert put[1..] == block[1..];
      } else {
        assert put[1..] == Put(block[1..], key, value);
        PutThenWithout(block[1..], key, value, dropped);
        Associate(if block[0].key == dropped then [] else [block[0].key], Keys(Without(block[1..], {dropped})), more);
      }
    }
  }

  // ----- One block

  lemma {:induction false} FieldsAreApart()
    ensures INPUT != PARTIAL_JSON && TYPE != PARTIAL_JSON && TYPE != INPUT
    ensures ID != PARTIAL_JSON && ID != INPUT && NAME != PARTIAL_JSON && NAME != INPUT
  {
    assert |INPUT| == 5 && |PARTIAL_JSON| == 6 && |TYPE| == 4 && |ID| == 2 && |NAME| == 4;
  }

  /** The input takes the place of the assembled JSON. */
  lemma {:induction false} ReplacedIsDelivered(num: Text -> Double, block: Block, json: Text)
    requires IsDictionary(block) && Lookup(block, PARTIAL_JSON) == Some(String(json)) && ParseText(num, json).Ok?
    ensures IsDelivered(num, block, Removed(Put(block, INPUT, ParseText(num, json).value), PARTIAL_JSON))
  {
    var input := ParseText(num, json).value;
    var put := Put(block, INPUT, input);
    FieldsAreApart();
    PutIsDictionary(block, INPUT, input);
    RemovedIs(put, PARTIAL_JSON);
    WithoutIsDictionary(put, {PARTIAL_JSON});
    WithoutEntry(put, {PARTIAL_JSON}, Entry(INPUT, input));
    WithoutKeys(put, {PARTIAL_JSON});
    PutThenWithout(block, INPUT, input, PARTIAL_JSON);
    WithoutBoth(put, {PARTIAL_JSON}, {INPUT});
    PutWithout(block, INPUT, input, {PARTIAL_JSON} + {INPUT});
    assert {PARTIAL_JSON} + {INPUT} == {INPUT, PARTIAL_JSON};
    LookupIsEntry(block, PARTIAL_JSON, String(json));
    forall other | Entry(PARTIAL_JSON, String(other)) in block
      ensures other == json
    {
      LookupIsEntry(block, PARTIAL_JSON, String(other));
    }
  }

  lemma {:induction false} HoldsJsonIs(block: Block)
    requires IsDictionary(block)
    ensures HoldsJson(block) <==> Lookup(block, PARTIAL_JSON).Some? && Lookup(block, PARTIAL_JSON).value.String?
  {
    if HoldsJson(block) {
      var json :| Entry(PARTIAL_JSON, String(json)) in block;
      LookupIsEntry(block, PARTIAL_JSON, String(json));
    }
    if Lookup(block, PARTIAL_JSON).Some? {
      LookupIsEntry(block, PARTIAL_JSON, Lookup(block, PARTIAL_JSON).value);
    }
  }

  lemma {:induction false} FinalizedIsDelivered(num: Text -> Double, block: Block)
    requires IsDictionary(block) && Finalized(num, block).Some?
    ensures IsDelivered(num, block, Finalized(num, block).value)
  {
    HoldsJsonIs(block);
    if HoldsJson(block) {
      ReplacedIsDelivered(num, block, Lookup(block, PARTIAL_JSON).value.text);
    }
  }

  lemma {:induction false} TextIsEntry(block: Block, field: Text)
    requires IsDictionary(block)
    ensures HasText(block, field) <==> exists text :: text != [] && Entry(field, String(text)) in block
  {
    if HasText(block, field) {
      LookupIsEntry(block, field, Lookup(block, field).value);
    }
    forall text | text != [] && Entry(field, String(text)) in block
      ensures HasText(block, field)
    {
      LookupIsEntry(block, field, String(text));
    }
  }

  lemma {:induction false} FinalizedIsComplete(num: Text -> Double, block: Block)
    requires IsDictionary(block) && Finalized(num, block).Some?
    ensures IsComplete(Finalized(num, block).value)
  {
    var final := Finalized(num, block).value;
    FinalizedIsDelivered(num, block);
    LookupIsEntry(final, TYPE, String(TOOL_USE));
    LookupIsEntry(final, INPUT, Null);
    TextIsEntry(final, ID);
    TextIsEntry(final, NAME);
  }

  /** A block can be delivered: its assembled JSON, if any, can be read, and a tool use has an id, a name, and an input or
      the JSON of one. */
  ghost predicate CanBeDelivered(num: Text -> Double, block: Block) {
    && (forall json :: Entry(PARTIAL_JSON, String(json)) in block ==> ParseText(num, json).Ok?)
    && (Entry(TYPE, String(TOOL_USE)) in block ==>
          && (exists id :: id != [] && Entry(ID, String(id)) in block)
          && (exists name :: name != [] && Entry(NAME, String(name)) in block)
          && (INPUT in Keys(block) || HoldsJson(block)))
  }

  lemma {:induction false} OthersAreFound(block: Block, json: Text, input: Json, field: Text)
    requires field != INPUT && field != PARTIAL_JSON
    ensures Lookup(Removed(Put(block, INPUT, input), PARTIAL_JSON), field) == Lookup(block, field)
  {
    PutOther(block, INPUT, input, field);
    RemovedOther(Put(block, INPUT, input), PARTIAL_JSON, field);
  }

  lemma {:induction false} ReplacedWhen(num: Text -> Double, block: Block, json: Text)
    requires IsDictionary(block) && Lookup(block, PARTIAL_JSON) == Some(String(json))
    ensures Finalized(num, block).Some? <==>
            ParseText(num, json).Ok? && (IsToolUse(block) ==> HasText(block, ID) && HasText(block, NAME))
  {
    if ParseText(num, json).Ok? {
      var input := ParseText(num, json).value;
      FieldsAreApart();
      OthersAreFound(block, json, input, TYPE);
      OthersAreFound(block, json, input, ID);
      OthersAreFound(block, json, input, NAME);
      PutTwice(block, INPUT, input, Null);
      RemovedOther(Put(block, INPUT, input), PARTIAL_JSON, INPUT);
    }
  }

  /** A block is delivered exactly when it can be. */
  lemma {:induction false} FinalizedWhen(num: Text -> Double, block: Block)
    requires IsDictionary(block)
    ensures Finalized(num, block).Some? <==> CanBeDelivered(num, block)
  {
    HoldsJsonIs(block);
    LookupIsEntry(block, TYPE, String(TOOL_USE));
    LookupIsEntry(block, INPUT, Null);
    TextIsEntry(block, ID);
    TextIsEntry(block, NAME);
    if HoldsJson(block) {
      var json := Lookup(block, PARTIAL_JSON).value.text;
      ReplacedWhen(num, block, json);
      LookupIsEntry(block, PARTIAL_JSON, String(json));
      forall other | Entry(PARTIAL_JSON, String(other)) in block
        ensures other == json
      {
        LookupIsEntry(block, PARTIAL_JSON, String(other));
      }
    }
  }

  // ----- The blocks of a stream

  /** The blocks that start are dictionaries. */
  ghost predicate StartDictionaries(frames: seq<Frame>) {
    forall k :: 0 <= k < |frames| && frames[k].BlockStart? && frames[k].block.Some? ==> IsDictionary(frames[k].block.value)
  }

  lemma {:induction false} StartIsDictionary(frames: seq<Frame>, index: int)
    requires StartDictionaries(frames) && StartOf(frames, index).Some?
    ensures IsDictionary(StartOf(frames, index).value)
  {
    var n := |frames| - 1;
    if !(frames[n].BlockStart? && frames[n].index == Some(index)) {
      StartIsDictionary(frames[..n], index);
    }
  }

  lemma {:induction false} AppliedIsDictionary(block: Block, deltas: seq<Delta>)
    requires IsDictionary(block)
    ensures IsDictionary(AppliedAll(block, deltas))
  {
    if deltas != [] {
      var n := |deltas| - 1;
      var before := AppliedAll(block, deltas[..n]);
      AppliedIsDictionary(block, deltas[..n]);
      if deltas[n].SignatureDelta? {
        PutIsDictionary(before, SIGNATURE, String(deltas[n].part));
      } else if !deltas[n].BadDelta? {
        var field := FieldOf(deltas[n]).value;
        PutIsDictionary(before, field, String(StringOf(before, field) + deltas[n].part));
      }
    }
  }

  lemma {:induction false} BlockIsDictionary(frames: seq<Frame>, index: int)
    requires StartDictionaries(frames)
    ensures IsDictionary(BlockOf(frames, index))
  {
    match StartOf(frames, index)
    case None =>
    case Some(block) =>
      StartIsDictionary(frames, index);
      AppliedIsDictionary(block, DeltasOf(frames, index));
  }

  const APPENDED: set<Text> := {TEXT, THINKING, PARTIAL_JSON, SIGNATURE}

  lemma {:induction false} AppliedKeepsOthers(block: Block, deltas: seq<Delta>)
    ensures Without(AppliedAll(block, deltas), APPENDED) == Without(block, APPENDED)
  {
    if deltas != [] {
      var n := |deltas| - 1;
      var before := AppliedAll(block, deltas[..n]);
      AppliedKeepsOthers(block, deltas[..n]);
      if deltas[n].SignatureDelta? {
        PutWithout(before, SIGNATURE, String(deltas[n].part), APPENDED);
      } else if !deltas[n].BadDelta? {
        var field := FieldOf(deltas[n]).value;
        PutWithout(before, field, String(StringOf(before, field) + deltas[n].part), APPENDED);
      }
    }
  }

  /** Deltas leave every other member of their block as it started, in the same order. */
  lemma {:induction false} OtherMembersStay(frames: seq<Frame>, index: int)
    requires StartOf(frames, index).Some?
    ensures Without(BlockOf(frames, index), APPENDED) == Without(StartOf(frames, index).value, APPENDED)
  {
    AppliedKeepsOthers(StartOf(frames, index).value, DeltasOf(frames, index));
  }

  /** The last signature among deltas. */
  function LastSignature(deltas: seq<Delta>): Option<Text> {
    if deltas == [] then None
    else
      var last := deltas[|deltas| - 1];
      if last.SignatureDelta? then Some(last.part) else LastSignature(deltas[..|deltas| - 1])
  }

  /** A block's signature is its last one. */
  lemma {:induction false} SignatureIsLast(block: Block, deltas: seq<Delta>)
    ensures Lookup(AppliedAll(block, deltas), SIGNATURE) ==
            match LastSignature(deltas) case Some(text) => Some(String(text)) case None => Lookup(block, SIGNATURE)
  {
    if deltas != [] {
      var n := |deltas| - 1;
      var before := AppliedAll(block, deltas[..n]);
      SignatureIsLast(block, deltas[..n]);
      FieldsDiffer();
      if deltas[n].SignatureDelta? {
        PutTwice(before, SIGNATURE, String(deltas[n].part), Null);
      } else if !deltas[n].BadDelta? {
        var field := FieldOf(deltas[n]).value;
        PutOther(before, field, String(StringOf(before, field) + deltas[n].part), SIGNATURE);
      }
    }
  }

  // ----- The delivered message

  lemma {:induction false} FinalizedEach(num: Text -> Double, blocks: map<int, Block>, keys: seq<int>)
    requires forall i :: 0 <= i < |keys| ==> keys[i] in blocks
    ensures FinalizedAll(num, blocks, keys).Some? <==>
            forall i :: 0 <= i < |keys| ==> Finalized(num, blocks[keys[i]]).Some?
    ensures FinalizedAll(num, blocks, keys).Some? ==>
            && |FinalizedAll(num, blocks, keys).value| == |keys|
            && forall i :: 0 <= i < |keys| ==>
                 Finalized(num, blocks[keys[i]]) == Some(FinalizedAll(num, blocks, keys).value[i])
  {
    if keys != [] {
      FinalizedEach(num, blocks, keys[1..]);
      assert forall i :: 0 <= i < |keys| - 1 ==> keys[1..][i] == keys[i + 1];
      assert Finalized(num, blocks[keys[0]]).Some?
             && (forall i :: 0 <= i < |keys| - 1 ==> Finalized(num, blocks[keys[1..][i]]).Some?)
        ==> forall i :: 0 <= i < |keys| ==> Finalized(num, blocks[keys[i]]).Some?;
    }
  }

  /** The delivered blocks are those that started, in the order of their indices. */
  ghost predicate AreDelivered(num: Text -> Double, frames: seq<Frame>, indices: seq<int>, content: seq<Block>) {
    && |content| == |indices|
    && forall i :: 0 <= i < |content| ==> IsDelivered(num, BlockOf(frames, indices[i]), content[i]) && IsComplete(content[i])
  }

  /** The content of each delivered stream. */
  lemma {:induction false} ContentIsDelivered(num: Text -> Double, frames: seq<Frame>)
    requires StartDictionaries(frames) && ContentOf(num, frames).Some?
    ensures AreDelivered(num, frames, Ascending(Started(frames)), ContentOf(num, frames).value)
  {
    var keys, content := Ascending(Started(frames)), ContentOf(num, frames).value;
    AscendingIs(Started(frames));
    FinalizedEach(num, BlocksOf(frames), keys);
    forall i | 0 <= i < |keys|
      ensures IsDelivered(num, BlockOf(frames, keys[i]), content[i]) && IsComplete(content[i])
    {
      BlockIsDictionary(frames, keys[i]);
      FinalizedIsDelivered(num, BlockOf(frames, keys[i]));
      FinalizedIsComplete(num, BlockOf(frames, keys[i]));
    }
  }

  /** There is content exactly when each block that started can be delivered. */
  lemma {:induction false} ContentWhen(num: Text -> Double, frames: seq<Frame>)
    requires StartDictionaries(frames)
    ensures ContentOf(num, frames).Some? <==>
            forall index :: index in Started(frames) ==> CanBeDelivered(num, BlockOf(frames, index))
  {
    var keys := Ascending(Started(frames));
    AscendingIs(Started(frames));
    FinalizedEach(num, BlocksOf(frames), keys);
    forall index | index in Started(frames)
      ensures Finalized(num, BlockOf(frames, index)).Some? <==> CanBeDelivered(num, BlockOf(frames, index))
    {
      BlockIsDictionary(frames, index);
      FinalizedWhen(num, BlockOf(frames, index));
    }
    if ContentOf(num, frames).Some? {
      forall index | index in Started(frames)
        ensures CanBeDelivered(num, BlockOf(frames, index))
      {
        var i :| 0 <= i < |keys| && keys[i] == index;
        assert Finalized(num, BlocksOf(frames)[keys[i]]).Some?;
      }
    }
  }

  /** The tool uses among blocks. */
  function ToolUses(content: seq<Block>): seq<Block> {
    if content == [] then []
    else (if Entry(TYPE, String(TOOL_USE)) in content[0] then [content[0]] else []) + ToolUses(content[1..])
  }

  /** A call is what its block holds. */
  ghost predicate IsCallOf(call: Call, block: Block) {
    Entry(ID, String(call.id)) in block && Entry(NAME, String(call.name)) in block && Entry(INPUT, call.arguments) in block
  }

  lemma {:induction false} CallIsBlock(block: Block)
    requires IsDictionary(block) && IsComplete(block) && Entry(TYPE, String(TOOL_USE)) in block
    ensures |CallOfBlock(block)| == 1 && IsCallOf(CallOfBlock(block)[0], block)
  {
    LookupIsEntry(block, TYPE, String(TOOL_USE));
    var id :| id != [] && Entry(ID, String(id)) in block;
    var name :| name != [] && Entry(NAME, String(name)) in block;
    LookupIsEntry(block, ID, String(id));
    LookupIsEntry(block, NAME, String(name));
    LookupIsEntry(block, INPUT, LookupOr(block, INPUT));
  }

  ghost predicate AreCallsOf(calls: seq<Call>, blocks: seq<Block>) {
    |calls| == |blocks| && forall i :: 0 <= i < |calls| ==> IsCallOf(calls[i], blocks[i])
  }

  lemma {:induction false} OneMoreCall(call: Call, block: Block, calls: seq<Call>, blocks: seq<Block>)
    requires IsCallOf(call, block) && AreCallsOf(calls, blocks)
    ensures AreCallsOf([call] + calls, [block] + blocks)
  {
  }

  /** The delivered calls are the tool uses of the content, in order, each with its own id, name and input. */
  lemma {:induction false} CallsAreToolUses(content: seq<Block>)
    requires forall i :: 0 <= i < |content| ==> IsDictionary(content[i]) && IsComplete(content[i])
    ensures AreCallsOf(CallsOfBlocks(content), ToolUses(content))
  {
    if content != [] {
      var block, calls, blocks := content[0], CallsOfBlocks(content[1..]), ToolUses(content[1..]);
      CallsAreToolUses(content[1..]);
      LookupIsEntry(block, TYPE, String(TOOL_USE));
      if Entry(TYPE, String(TOOL_USE)) in block {
        CallIsBlock(block);
        OneMoreCall(CallOfBlock(block)[0], block, calls, blocks);
        assert CallOfBlock(block) == [CallOfBlock(block)[0]];
      } else {
        assert [] + calls == calls && [] + blocks == blocks;
      }
    }
  }

  /** The texts of the text deltas that are not empty, in order. */
  function TextParts(frames: seq<Frame>): seq<Text> {
    if frames == [] then []
    else
      var f := frames[|frames| - 1];
      TextParts(frames[..|frames| - 1])
        + if f.BlockDelta? && f.delta.TextDelta? && |f.delta.part| > 0 then [f.delta.part] else []
  }

  /** Those are the texts delivered, one event for each; thinking, signatures and tool JSON are not. */
  lemma {:induction false} TextsAreDelivered(frames: seq<Frame>)
    ensures |TextsOf(frames)| == |TextParts(frames)|
    ensures forall i :: 0 <= i < |TextParts(frames)| ==> TextsOf(frames)[i] == TextEvent(TextParts(frames)[i])
  {
    if frames != [] {
      TextsAreDelivered(frames[..|frames| - 1]);
    }
  }

  /** The names of the fields. */
  lemma {:induction false} FieldNames()
    ensures TEXT == Units("text") && THINKING == Units("thinking")
    ensures SIGNATURE == Units("signature") && PARTIAL_JSON == Units("__json")
    ensures TYPE == Units("type") && TOOL_USE == Units("tool_use")
    ensures INPUT == Units("input") && ID == Units("id") && NAME == Units("name")
  {
  }
}
