/** Splitting calls into chunks and gathering the answers as they arrive: `multicall.rs`. */
module Multicall {
  import opened Wrappers

  const CHUNK_SIZE: nat := 50

  /** `slice::chunks`. */
  function Chunks<T>(s: seq<T>): seq<seq<T>> {
    if |s| <= CHUNK_SIZE then (if s == [] then [] else [s])
    else [s[..CHUNK_SIZE]] + Chunks(s[CHUNK_SIZE..])
  }

  function Flatten<T>(ss: seq<seq<T>>): seq<T> {
    if ss == [] then [] else ss[0] + Flatten(ss[1..])
  }

  lemma {:induction false} FlattenChunks<T>(s: seq<T>)
    ensures Flatten(Chunks(s)) == s
    decreases |s|
  {
    if |s| > CHUNK_SIZE {
      FlattenChunks(s[CHUNK_SIZE..]);
      assert Chunks(s)[1..] == Chunks(s[CHUNK_SIZE..]);
      assert s == s[..CHUNK_SIZE] + s[CHUNK_SIZE..];
    } else if s != [] {
      assert Chunks(s)[1..] == [];
    }
  }

  lemma {:induction false} ChunksFit<T>(s: seq<T>)
    ensures forall k :: 0 <= k < |Chunks(s)| ==> 0 < |Chunks(s)[k]| <= 50
    ensures forall k :: 0 <= k < |Chunks(s)| - 1 ==> |Chunks(s)[k]| == 50
    decreases |s|
  {
    if |s| > CHUNK_SIZE {
      ChunksFit(s[CHUNK_SIZE..]);
    }
  }

  /** The task of one chunk has finished, with the chunk's results or an error. */
  datatype Completion<T> = Completion(index: nat, results: Option<seq<T>>)

  ghost predicate Finishes<T>(done: seq<Completion<T>>, k: nat) {
    exists i :: 0 <= i < |done| && done[i].index == k
  }

  /**
    Each chunk's task finishes, in whatever order; when it succeeds it returns one result per call
    of its chunk, `answers` being the answers to the calls.
   */
  ghost predicate IsCompletionOrder<T>(done: seq<Completion<T>>, answers: seq<T>) {
    && (forall i :: 0 <= i < |done| ==>
          && done[i].index < |Chunks(answers)|
          && (done[i].results.Some? ==> done[i].results.value == Chunks(answers)[done[i].index]))
    && forall k :: 0 <= k < |Chunks(answers)| ==> Finishes(done, k)
  }

  /**
    The loop over finished tasks. It fails exactly when a task did; otherwise the flattened output is
    the answers in call order, whatever the order the tasks finished in.
   */
  method Gather<T>(done: seq<Completion<T>>, chunkLen: nat, ghost answers: seq<T>) returns (r: Option<seq<T>>)
    requires chunkLen == |Chunks(answers)| && IsCompletionOrder(done, answers)
    ensures r.None? <==> exists i :: 0 <= i < |done| && done[i].results.None?
    ensures r.Some? ==> r.value == answers
  {
    var output := new seq<T>[chunkLen](_ => []);
    for i := 0 to |done|
      invariant forall j :: 0 <= j < i ==> done[j].results.Some? && output[done[j].index] == Chunks(answers)[done[j].index]
    {
      if done[i].results.None? {
        return None;
      }
      output[done[i].index] := done[i].results.value;
    }
    forall k | 0 <= k < chunkLen ensures output[k] == Chunks(answers)[k] {
      assert Finishes(done, k);
      var i :| 0 <= i < |done| && done[i].index == k;
    }
    assert output[..] == Chunks(answers);
    FlattenChunks(answers);
    r := Some(Flatten(output[..]));
  }
}

/** Handing the flat results back to the pairs whose calls they answer: `get_pairs`. */
module Regrouping {
  import opened Wrappers
  import opened Multicall

  type Address = nat

  datatype PairInput = UniswapV2(address: Address) | UniswapV3(address: Address) {
    /** `calls`: two reads for a v2 pair, four for a v3 pool, all of the pair itself. */
    function Calls(): (r: seq<Address>)
      ensures |r| == if UniswapV2? then 2 else 4
      ensures forall i :: 0 <= i < |r| ==> r[i] == address
    {
      match this
      case UniswapV2(a) => [a, a]
      case UniswapV3(a) => [a, a, a, a]
    }
  }

  /** The targets of all calls, in the order they are collected. */
  function Targets(inputs: seq<PairInput>): seq<Address> {
    if inputs == [] then [] else Targets(inputs[..|inputs| - 1]) + inputs[|inputs| - 1].Calls()
  }

  function Addresses(inputs: seq<PairInput>): set<Address> {
    set i | 0 <= i < |inputs| :: inputs[i].address
  }

  ghost predicate Distinct(inputs: seq<PairInput>) {
    forall i, j :: 0 <= i < j < |inputs| ==> inputs[i].address != inputs[j].address
  }

  /** The results of the calls to `a`, in call order. */
  function Pick<T>(targets: seq<Address>, results: seq<T>, a: Address): seq<T>
    requires |targets| == |results|
  {
    if targets == [] then []
    else
      var n := |targets| - 1;
      Pick(targets[..n], results[..n], a) + if targets[n] == a then [results[n]] else []
  }

  method Regroup<T>(addresses: set<Address>, targets: seq<Address>, results: seq<T>) returns (groups: map<Address, seq<T>>)
    requires |targets| == |results| && forall i :: 0 <= i < |targets| ==> targets[i] in addresses
    ensures groups.Keys == addresses
    ensures forall a :: a in addresses ==> groups[a] == Pick(targets, results, a)
  {
    groups := map a | a in addresses :: [];
    for i := 0 to |targets|
      invariant groups.Keys == addresses
      invariant forall a :: a in addresses ==> groups[a] == Pick(targets[..i], results[..i], a)
    {
      assert targets[..i + 1][..i] == targets[..i] && results[..i + 1][..i] == results[..i];
      groups := groups[targets[i] := groups[targets[i]] + [results[i]]];
    }
    assert targets[..|targets|] == targets && results[..|results|] == results;
  }

  lemma {:induction false} PickSplit<T>(t: seq<Address>, u: seq<Address>, r: seq<T>, q: seq<T>, a: Address)
    requires |t| == |r| && |u| == |q|
    ensures Pick(t + u, r + q, a) == Pick(t, r, a) + Pick(u, q, a)
    decreases |u|
  {
    if u == [] {
      assert t + u == t && r + q == r;
    } else {
      var n := |u| - 1;
      PickSplit(t, u[..n], r, q[..n], a);
      assert (t + u)[..|t| + n] == t + u[..n] && (r + q)[..|t| + n] == r + q[..n];
    }
  }

  lemma {:induction false} PickAll<T>(t: seq<Address>, r: seq<T>, a: Address)
    requires |t| == |r| && forall i :: 0 <= i < |t| ==> t[i] == a
    ensures Pick(t, r, a) == r
    decreases |t|
  {
    if t != [] {
      PickAll(t[..|t| - 1], r[..|t| - 1], a);
      assert r == r[..|t| - 1] + [r[|t| - 1]];
    }
  }

  lemma {:induction false} PickNone<T>(t: seq<Address>, r: seq<T>, a: Address)
    requires |t| == |r| && forall i :: 0 <= i < |t| ==> t[i] != a
    ensures Pick(t, r, a) == []
    decreases |t|
  {
    if t != [] {
      PickNone(t[..|t| - 1], r[..|t| - 1], a);
    }
  }

  lemma {:induction false} NoCallsTo(inputs: seq<PairInput>, a: Address)
    requires forall i :: 0 <= i < |inputs| ==> inputs[i].address != a
    ensures forall k :: 0 <= k < |Targets(inputs)| ==> Targets(inputs)[k] != a
    decreases |inputs|
  {
    if inputs != [] {
      NoCallsTo(inputs[..|inputs| - 1], a);
    }
  }

  /** Where the calls of input `i` begin. */
  function Offset(inputs: seq<PairInput>, i: nat): nat
    requires i <= |inputs|
  {
    |Targets(inputs[..i])|
  }

  lemma OffsetsStep(inputs: seq<PairInput>, i: nat)
    requires i < |inputs|
    ensures Offset(inputs, i + 1) == Offset(inputs, i) + |inputs[i].Calls()|
  {
    assert inputs[..i + 1][..i] == inputs[..i];
  }

  lemma {:induction false} OffsetsWithin(inputs: seq<PairInput>, i: nat)
    requires i <= |inputs|
    ensures Offset(inputs, i) <= |Targets(inputs)|
    decreases |inputs| - i
  {
    if i < |inputs| {
      OffsetsStep(inputs, i);
      OffsetsWithin(inputs, i + 1);
    } else {
      assert inputs[..i] == inputs;
    }
  }

  /** Regrouping hands each pair exactly the results of its own calls, in call order. */
  lemma {:induction false} EachPairGetsItsOwn<T>(inputs: seq<PairInput>, results: seq<T>, i: nat)
    requires Distinct(inputs) && |results| == |Targets(inputs)| && i < |inputs|
    ensures Offset(inputs, i) + |inputs[i].Calls()| <= |results|
    ensures Pick(Targets(inputs), results, inputs[i].address) == results[Offset(inputs, i)..Offset(inputs, i) + |inputs[i].Calls()|]
    decreases |inputs|
  {
    hide Pick, Targets, PairInput.Calls;
    OffsetsStep(inputs, i);
    OffsetsWithin(inputs, i + 1);
    var n := |inputs| - 1;
    var front := inputs[..n];
    var m := |Targets(front)|;
    LastGroup(inputs, results, inputs[i].address);
    if i == n {
      NoCallsTo(front, inputs[i].address);
      PickNone(Targets(front), results[..m], inputs[i].address);
      PickAll(inputs[n].Calls(), results[m..], inputs[i].address);
    } else {
      EachPairGetsItsOwn(front, results[..m], i);
      PickNone(inputs[n].Calls(), results[m..], inputs[i].address);
      OffsetOfPrefix(inputs, n, i);
      var from, to := Offset(inputs, i), Offset(inputs, i) + |inputs[i].Calls()|;
      assert results[..m][from..to] == results[from..to];
    }
  }

  lemma OffsetOfPrefix(inputs: seq<PairInput>, n: nat, i: nat)
    requires i <= n <= |inputs|
    ensures Offset(inputs[..n], i) == Offset(inputs, i)
  {
    assert inputs[..n][..i] == inputs[..i];
  }

  lemma LastGroup<T>(inputs: seq<PairInput>, results: seq<T>, a: Address)
    requires inputs != [] && |results| == |Targets(inputs)|
    ensures var n := |inputs| - 1;
            var m := |Targets(inputs[..n])|;
            && m <= |results| && |results| - m == |inputs[n].Calls()|
            && Pick(Targets(inputs), results, a) ==
                 Pick(Targets(inputs[..n]), results[..m], a) + Pick(inputs[n].Calls(), results[m..], a)
  {
    var n := |inputs| - 1;
    var m := |Targets(inputs[..n])|;
    assert results == results[..m] + results[m..];
    PickSplit(Targets(inputs[..n]), inputs[n].Calls(), results[..m], results[m..], a);
  }

  lemma {:induction false} TargetsAreInputs(inputs: seq<PairInput>)
    ensures forall k :: 0 <= k < |Targets(inputs)| ==> Targets(inputs)[k] in Addresses(inputs)
    decreases |inputs|
  {
    if inputs != [] {
      var n := |inputs| - 1;
      TargetsAreInputs(inputs[..n]);
      forall a | a in Addresses(inputs[..n]) ensures a in Addresses(inputs) {
        var i :| 0 <= i < n && inputs[..n][i].address == a;
        assert inputs[i].address == a;
      }
      assert inputs[n].address in Addresses(inputs);
    }
  }

  /**
    From finished chunk tasks to the results of each pair. A chunk boundary may fall anywhere, also
    between two calls of one pair.
   */
  method GatherByPair<T>(inputs: seq<PairInput>, done: seq<Completion<T>>, chunkLen: nat, ghost answers: seq<T>)
    returns (groups: Option<map<Address, seq<T>>>)
    requires Distinct(inputs) && |answers| == |Targets(inputs)|
    requires chunkLen == |Chunks(answers)| && IsCompletionOrder(done, answers)
    ensures groups.None? <==> exists i :: 0 <= i < |done| && done[i].results.None?
    ensures groups.Some? ==> groups.value.Keys == Addresses(inputs)
    ensures groups.Some? ==> forall i :: 0 <= i < |inputs| ==>
              && inputs[i].address in groups.value
              && Offset(inputs, i) + |inputs[i].Calls()| <= |answers|
              && groups.value[inputs[i].address] == answers[Offset(inputs, i)..Offset(inputs, i) + |inputs[i].Calls()|]
  {
    var results := Gather(done, chunkLen, answers);
    if results.None? { return None; }
    TargetsAreInputs(inputs);
    var byPair := Regroup(Addresses(inputs), Targets(inputs), results.value);
    forall i | 0 <= i < |inputs|
      ensures inputs[i].address in byPair
      ensures Offset(inputs, i) + |inputs[i].Calls()| <= |answers|
      ensures byPair[inputs[i].address] == answers[Offset(inputs, i)..Offset(inputs, i) + |inputs[i].Calls()|]
    {
      EachPairGetsItsOwn(inputs, answers, i);
    }
    groups := Some(byPair);
  }
}
