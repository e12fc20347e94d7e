/**
 Tool calls between two requests: a response's calls are validated, kept in the continuation, and the next request's
 results must be theirs. The next request is accepted with exactly the permutations of the calls' ids and names.
 */
module ProviderCalls {
  import opened Utf16
  import opened Wrappers
  import opened JsonText

  datatype Call = Call(id: Text, name: Text, arguments: Json)

  datatype ToolResult = ToolResult(id: Text, name: Text)

  // ----- Validation

  predicate DistinctIds(calls: seq<Call>) {
    forall i, j :: 0 <= i < j < |calls| ==> calls[i].id != calls[j].id
  }

  /** Every call names an advertised tool, and no id repeats. */
  predicate AreValid(calls: seq<Call>, advertised: set<Text>) {
    DistinctIds(calls) && forall i :: 0 <= i < |calls| ==> calls[i].name in advertised
  }

  method ValidateCalls(calls: seq<Call>, advertised: set<Text>) returns (ok: bool)
    ensures ok == AreValid(calls, advertised)
  {
    var ids: set<Text> := {};
    for i := 0 to |calls|
      invariant ids == set k | 0 <= k < i :: calls[k].id
      invariant AreValid(calls[..i], advertised)
    {
      if calls[i].name !in advertised { return false; }
      if calls[i].id in ids { return false; }
      ids := ids + {calls[i].id};
    }
    assert calls[..|calls|] == calls;
    return true;
  }

  // ----- Results

  function CallKeys(calls: seq<Call>): (keys: seq<(Text, Text)>)
    ensures |keys| == |calls| && forall i :: 0 <= i < |calls| ==> keys[i] == (calls[i].id, calls[i].name)
  {
    seq(|calls|, i requires 0 <= i < |calls| => (calls[i].id, calls[i].name))
  }

  function ResultKeys(results: seq<ToolResult>): (keys: seq<(Text, Text)>)
    ensures |keys| == |results| && forall i :: 0 <= i < |results| ==> keys[i] == (results[i].id, results[i].name)
  {
    seq(|results|, i requires 0 <= i < |results| => (results[i].id, results[i].name))
  }

  /** The last call of each id. */
  function Expected(calls: seq<Call>): map<Text, Call> {
    if calls == [] then map[] else Expected(calls[..|calls| - 1])[calls[|calls| - 1].id := calls[|calls| - 1]]
  }

  predicate DistinctResults(results: seq<ToolResult>) {
    forall i, j :: 0 <= i < j < |results| ==> results[i].id != results[j].id
  }

  function ResultIds(results: seq<ToolResult>): set<Text> {
    set i | 0 <= i < |results| :: results[i].id
  }

  /** What the checks come to: each result is an expected call's, each call has one, and none has two. */
  predicate Accepted(results: seq<ToolResult>, calls: seq<Call>) {
    && DistinctResults(results) && ResultIds(results) == Expected(calls).Keys
    && forall i :: 0 <= i < |results| ==>
         results[i].id in Expected(calls) && results[i].name == Expected(calls)[results[i].id].name
  }

  lemma {:induction false} ExpectedKeys(calls: seq<Call>)
    ensures forall i :: 0 <= i < |calls| ==> calls[i].id in Expected(calls)
    ensures forall id :: id in Expected(calls) ==>
      exists i :: 0 <= i < |calls| && calls[i].id == id && Expected(calls)[id] == calls[i]
    ensures DistinctIds(calls) ==> forall i :: 0 <= i < |calls| ==> Expected(calls)[calls[i].id] == calls[i]
    ensures calls != [] ==> Expected(calls) != map[]
  {
    if calls != [] {
      var n := |calls| - 1;
      var front := calls[..n];
      ExpectedKeys(front);
      assert forall i :: 0 <= i < n ==> front[i] == calls[i];
      forall id | id in Expected(calls)
        ensures exists i :: 0 <= i < |calls| && calls[i].id == id && Expected(calls)[id] == calls[i]
      {
        if id != calls[n].id {
          assert id in Expected(front);
          var i :| 0 <= i < n && front[i].id == id && Expected(front)[id] == front[i];
          assert calls[i].id == id;
        }
      }
      assert calls[n].id in Expected(calls);
    }
  }

  method BuildExpected(calls: seq<Call>) returns (expected: map<Text, Call>)
    ensures expected == Expected(calls)
  {
    expected := map[];
    for i := 0 to |calls|
      invariant expected == Expected(calls[..i])
    {
      assert calls[..i + 1][..i] == calls[..i];
      expected := expected[calls[i].id := calls[i]];
    }
    assert calls[..|calls|] == calls;
  }

  /** One result for each pending call, matched by id and name; whether the results are accepted as they stand. */
  method RequiredResults(results: seq<ToolResult>, calls: seq<Call>) returns (ok: bool)
    ensures ok == Accepted(results, calls)
  {
    ExpectedKeys(calls);
    if |calls| == 0 {
      assert ResultIds(results) == {} <==> results == [] by {
        if results != [] {
          assert results[0].id in ResultIds(results);
        }
      }
      return |results| == 0;
    }
    if |results| == 0 {
      assert calls[0].id in Expected(calls).Keys && ResultIds(results) == {};
      return false;
    }
    var expected := BuildExpected(calls);
    var seen: set<Text> := {};
    for i := 0 to |results|
      invariant seen == ResultIds(results[..i]) && DistinctResults(results[..i])
      invariant forall k :: 0 <= k < i ==>
        results[k].id in expected && results[k].name == expected[results[k].id].name
    {
      var result := results[i];
      assert forall k :: 0 <= k < i ==> results[..i][k] == results[k];
      if result.id !in expected || result.id in seen || result.name != expected[result.id].name {
        RejectsAt(results, calls, i);
        return false;
      }
      seen := seen + {result.id};
      IdsGrow(results, i);
    }
    assert results[..|results|] == results;
    assert seen <= expected.Keys;
    SameSize(seen, expected.Keys);
    return |seen| == |expected|;
  }

  lemma {:induction false} IdsGrow(results: seq<ToolResult>, i: nat)
    requires i < |results|
    ensures ResultIds(results[..i + 1]) == ResultIds(results[..i]) + {results[i].id}
    ensures DistinctResults(results[..i]) && results[i].id !in ResultIds(results[..i]) ==> DistinctResults(results[..i + 1])
  {
    var front, more := results[..i], results[..i + 1];
    assert forall k :: 0 <= k < i ==> front[k] == more[k];
    assert more[i] == results[i];
    forall id
      ensures id in ResultIds(more) <==> id in ResultIds(front) + {results[i].id}
    {
      if id in ResultIds(more) {
        var k :| 0 <= k < |more| && more[k].id == id;
        assert k < i ==> front[k].id == id;
      }
      if id in ResultIds(front) {
        var k :| 0 <= k < |front| && front[k].id == id;
        assert more[k].id == id;
      }
    }
    assert forall k :: 0 <= k < i ==> front[k].id in ResultIds(front);
  }

  lemma {:induction false} RejectsAt(results: seq<ToolResult>, calls: seq<Call>, i: nat)
    requires i < |results|
    requires var r := results[i];
      r.id !in Expected(calls) || r.id in ResultIds(results[..i]) || r.name != Expected(calls)[r.id].name
    ensures !Accepted(results, calls)
  {
    if results[i].id in ResultIds(results[..i]) {
      var k :| 0 <= k < i && results[..i][k].id == results[i].id;
      assert results[k].id == results[i].id;
    }
  }

  lemma {:induction false} SameSize<T>(a: set<T>, b: set<T>)
    requires a <= b
    ensures |a| == |b| <==> a == b
  {
    assert b == a + (b - a) && |b| == |a| + |b - a|;
  }

  // ----- Exactly the permutations

  lemma {:induction false} DistinctMultiset<T>(s: seq<T>, x: T)
    requires forall i, j :: 0 <= i < j < |s| ==> s[i] != s[j]
    ensures multiset(s)[x] == if x in s then 1 else 0
  {
    if s != [] {
      var n := |s| - 1;
      DistinctMultiset(s[..n], x);
      assert s == s[..n] + [s[n]];
      assert s[n] !in s[..n];
    }
  }

  lemma {:induction false} KeysDistinct(keys: seq<(Text, Text)>)
    requires forall i, j :: 0 <= i < j < |keys| ==> keys[i].0 != keys[j].0
    ensures forall i, j :: 0 <= i < j < |keys| ==> keys[i] != keys[j]
  {
  }

  lemma {:induction false} AcceptedIsPermutation(results: seq<ToolResult>, calls: seq<Call>)
    requires DistinctIds(calls) && Accepted(results, calls)
    ensures multiset(ResultKeys(results)) == multiset(CallKeys(calls))
  {
    var a, b := ResultKeys(results), CallKeys(calls);
    ExpectedKeys(calls);
    forall x
      ensures multiset(a)[x] == multiset(b)[x]
    {
      DistinctMultiset(a, x);
      DistinctMultiset(b, x);
      if x in a {
        var i :| 0 <= i < |a| && a[i] == x;
        var j :| 0 <= j < |calls| && calls[j].id == x.0 && Expected(calls)[x.0] == calls[j];
        assert b[j] == x;
      }
      if x in b {
        var j :| 0 <= j < |b| && b[j] == x;
        assert calls[j].id in ResultIds(results);
        var i :| 0 <= i < |results| && results[i].id == x.0;
        assert a[i] == x;
      }
    }
  }

  lemma {:induction false} PermutationIsAccepted(results: seq<ToolResult>, calls: seq<Call>)
    requires DistinctIds(calls) && multiset(ResultKeys(results)) == multiset(CallKeys(calls))
    ensures Accepted(results, calls)
  {
    var a, b := ResultKeys(results), CallKeys(calls);
    ExpectedKeys(calls);
    forall i | 0 <= i < |results|
      ensures results[i].id in Expected(calls) && results[i].name == Expected(calls)[results[i].id].name
    {
      assert a[i] in multiset(b);
      var j :| 0 <= j < |b| && b[j] == a[i];
      assert Expected(calls)[calls[j].id] == calls[j];
    }
    forall j | 0 <= j < |calls|
      ensures calls[j].id in ResultIds(results)
    {
      assert b[j] in multiset(a);
      var i :| 0 <= i < |a| && a[i] == b[j];
      assert results[i].id == calls[j].id;
    }
    assert ResultIds(results) == Expected(calls).Keys;
    PermutationDistinct(a, b);
    assert forall i :: 0 <= i < |results| ==> a[i].0 == results[i].id;
  }

  lemma {:induction false} PermutationDistinct(a: seq<(Text, Text)>, b: seq<(Text, Text)>)
    requires multiset(a) == multiset(b) && forall i, j :: 0 <= i < j < |b| ==> b[i].0 != b[j].0
    ensures forall i, j :: 0 <= i < j < |a| ==> a[i].0 != a[j].0
  {
    KeysDistinct(b);
    forall i, j | 0 <= i < j < |a|
      ensures a[i].0 != a[j].0
    {
      assert a[i] in multiset(b) && a[j] in multiset(b);
      var k :| 0 <= k < |b| && b[k] == a[i];
      var l :| 0 <= l < |b| && b[l] == a[j];
      if k == l {
        DistinctMultiset(b, a[i]);
        TwiceInMultiset(a, i, j);
      }
    }
  }

  lemma {:induction false} TwiceInMultiset<T>(s: seq<T>, i: nat, j: nat)
    requires i < j < |s| && s[i] == s[j]
    ensures multiset(s)[s[i]] >= 2
  {
    assert s == s[..j] + ([s[j]] + s[j + 1..]);
    assert s[..j][i] == s[i];
    assert multiset(s) == multiset(s[..j]) + (multiset{s[j]} + multiset(s[j + 1..]));
    assert s[i] in multiset(s[..j]);
  }

  /** After a valid response, the next request is accepted with exactly the permutations of its calls by id and name. */
  lemma {:induction false} ResultsArePermutations(results: seq<ToolResult>, calls: seq<Call>, advertised: set<Text>)
    requires AreValid(calls, advertised)
    ensures Accepted(results, calls) <==> multiset(ResultKeys(results)) == multiset(CallKeys(calls))
  {
    if Accepted(results, calls) {
      AcceptedIsPermutation(results, calls);
    }
    if multiset(ResultKeys(results)) == multiset(CallKeys(calls)) {
      PermutationIsAccepted(results, calls);
    }
  }

  // ----- The continuation

  const ID: Text := [0x69, 0x64]
  const NAME: Text := [0x6E, 0x61, 0x6D, 0x65]
  const ARGUMENTS: Text := [0x61, 0x72, 0x67, 0x75, 0x6D, 0x65, 0x6E, 0x74, 0x73]

  function Lookup(members: seq<Entry<Json>>, key: Text): Option<Json> {
    if members == [] then None
    else if members[0].key == key then Some(members[0].value) else Lookup(members[1..], key)
  }

  function LookupOr(members: seq<Entry<Json>>, key: Text): Json {
    match Lookup(members, key) case Some(value) => value case None => Undefined
  }

  /** A call as the continuation holds it. */
  function CallJson(call: Call): Json {
    Object([Entry(ID, String(call.id)), Entry(NAME, String(call.name)), Entry(ARGUMENTS, call.arguments)])
  }

  function CallOf(value: Json): Option<Call> {
    if value.Object? && LookupOr(value.members, ID).String? && LookupOr(value.members, NAME).String? then
      Some(Call(LookupOr(value.members, ID).text, LookupOr(value.members, NAME).text, LookupOr(value.members, ARGUMENTS)))
    else None
  }

  /** Each pending call needs a string id and name; anything but an array is no calls. */
  function CallsFrom(value: Json): Option<seq<Call>> {
    if value.Array? then CallsOf(value.items) else Some([])
  }

  function CallsOf(items: seq<Json>): Option<seq<Call>> {
    if items == [] then Some([])
    else match (CallOf(items[0]), CallsOf(items[1..]))
      case (Some(call), Some(rest)) => Some([call] + rest)
      case _ => None
  }

  function CallsJson(calls: seq<Call>): seq<Json> {
    if calls == [] then [] else [CallJson(calls[0])] + CallsJson(calls[1..])
  }

  lemma {:induction false} CallComesBack(call: Call)
    ensures CallOf(CallJson(call)) == Some(call)
  {
    var members := CallJson(call).members;
    assert members[1..] == [Entry(NAME, String(call.name)), Entry(ARGUMENTS, call.arguments)];
    assert members[1..][1..] == [Entry(ARGUMENTS, call.arguments)];
    assert ID[0] != NAME[0] && ID[0] != ARGUMENTS[0] && NAME[0] != ARGUMENTS[0];
    assert Lookup(members, NAME) == Lookup(members[1..], NAME);
    assert Lookup(members, ARGUMENTS) == Lookup(members[1..], ARGUMENTS) == Lookup(members[1..][1..], ARGUMENTS);
  }

  /** The calls of a response are those read from the continuation it leaves. */
  lemma {:induction false} CallsComeBack(calls: seq<Call>)
    ensures CallsFrom(Array(CallsJson(calls))) == Some(calls)
  {
    if calls != [] {
      CallComesBack(calls[0]);
      CallsComeBack(calls[1..]);
      assert CallsJson(calls)[1..] == CallsJson(calls[1..]);
      assert calls == [calls[0]] + calls[1..];
    }
  }
}
