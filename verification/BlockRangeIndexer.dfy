/** One fetched run of blocks, by number: `block_chunk.rs`. */
module BlockChunk {

  /** The block numbers `lo..hi`. */
  function Numbers(lo: nat, hi: nat): (r: seq<nat>)
    ensures |r| == if lo <= hi then hi - lo else 0
    ensures forall i :: 0 <= i < |r| ==> r[i] == lo + i
  {
    if lo < hi then Numbers(lo, hi - 1) + [hi - 1] else []
  }

  /** Rows of distinct blocks in the queried range, in number order. */
  predicate IsQueryResult(rows: seq<nat>, lo: nat, hi: nat) {
    && (forall i :: 0 <= i < |rows| ==> lo <= rows[i] < hi)
    && forall i, j :: 0 <= i < j < |rows| ==> rows[i] < rows[j]
  }

  /** `fetch`: the database's rows if there are enough of them, else a block for every number. */
  function Fetch(rows: seq<nat>, lo: nat, hi: nat): seq<nat>
    requires lo < hi
  {
    if |rows| == hi - lo then rows else Numbers(lo, hi)
  }

  lemma {:induction false} RowsAdvance(rows: seq<nat>, lo: nat, hi: nat, i: nat)
    requires IsQueryResult(rows, lo, hi) && i < |rows|
    ensures lo + i <= rows[i] && rows[i] + (|rows| - i) <= hi
    decreases |rows| - i
  {
    RowsAbove(rows, lo, hi, i);
    if i + 1 < |rows| {
      RowsAdvance(rows, lo, hi, i + 1);
    }
  }

  lemma {:induction false} RowsAbove(rows: seq<nat>, lo: nat, hi: nat, i: nat)
    requires IsQueryResult(rows, lo, hi) && i < |rows|
    ensures lo + i <= rows[i]
    decreases i
  {
    if i > 0 { RowsAbove(rows, lo, hi, i - 1); }
  }

  /** Passing the count check means being the whole range: every fetch yields every block, in order. */
  lemma FetchIsWholeRange(rows: seq<nat>, lo: nat, hi: nat)
    requires lo < hi && IsQueryResult(rows, lo, hi)
    ensures Fetch(rows, lo, hi) == Numbers(lo, hi)
  {
    if |rows| == hi - lo {
      forall i | 0 <= i < |rows| ensures rows[i] == lo + i {
        RowsAdvance(rows, lo, hi, i);
      }
    }
  }

  lemma NumbersJoin(lo: nat, mid: nat, hi: nat)
    requires lo <= mid <= hi
    ensures Numbers(lo, mid) + Numbers(mid, hi) == Numbers(lo, hi)
  {
  }
}

/** The consumer's reorder buffer: `handle_block_chunk_task`. */
module ReorderBuffer {
  import opened OrderedMaps

  datatype Consumer = Consumer(next: nat, buffer: map<nat, seq<nat>>, processed: seq<nat>)

  /** Processes buffered chunks as long as the earliest is the one looked for. */
  function Drain(c: Consumer): Consumer
    decreases c.buffer.Keys
  {
    if c.buffer.Keys == {} || MinKey(c.buffer) != c.next then c
    else
      var data := c.buffer[c.next];
      var end := if data == [] then c.next else data[|data| - 1];
      Drain(Consumer(end + 1, c.buffer - {c.next}, c.processed + data))
  }

  function Handle(c: Consumer, chunk: seq<nat>): Consumer {
    if chunk == [] then c
    else if chunk[0] == c.next then
      Drain(Consumer(chunk[|chunk| - 1] + 1, c.buffer, c.processed + chunk))
    else c.(buffer := c.buffer[chunk[0] := chunk])
  }

  class BlockConsumer {
    var nextBlockNumber: nat
    var chunkBuffer: map<nat, seq<nat>>
    /** The blocks the strategy was executed for, in order. */
    var processed: seq<nat>

    constructor (start: nat)
      ensures View() == Consumer(start, map[], [])
    {
      nextBlockNumber, chunkBuffer, processed := start, map[], [];
    }

    function View(): Consumer
      reads this
    {
      Consumer(nextBlockNumber, chunkBuffer, processed)
    }

    method Execute(data: seq<nat>)
      modifies this`processed
      ensures processed == old(processed) + data
    {
      for i := 0 to |data|
        invariant processed == old(processed) + data[..i]
      {
        assert data[..i + 1] == data[..i] + [data[i]];
        processed := processed + [data[i]];
      }
      assert data[..|data|] == data;
    }

    method HandleChunk(chunk: seq<nat>)
      modifies this
      ensures View() == Handle(old(View()), chunk)
    {
      if chunk == [] {
        return;
      }
      if chunk[0] == nextBlockNumber {
        Execute(chunk);
        nextBlockNumber := chunk[|chunk| - 1] + 1;
        while chunkBuffer.Keys != {} && MinKey(chunkBuffer) == nextBlockNumber
          invariant Drain(View()) == Handle(old(View()), chunk)
          decreases chunkBuffer.Keys
        {
          var data := chunkBuffer[nextBlockNumber];
          var end := if data == [] then nextBlockNumber else data[|data| - 1];
          chunkBuffer := chunkBuffer - {nextBlockNumber};
          Execute(data);
          nextBlockNumber := end + 1;
        }
      } else {
        chunkBuffer := chunkBuffer[chunk[0] := chunk];
      }
    }
  }
}

/**
  Fifty workers pulling chunk starts from one iterator and one consumer, as a transition system:
  `fetch_block_chunks_task` and `handle_block_chunk_task`.
 */
module BlockRangeIndexer {
  import opened Wrappers
  import opened OrderedMaps
  import opened BlockChunk
  import opened ReorderBuffer

  const CHUNK_SIZE: nat := 100
  const CONCURRENCY: nat := 50
  const CHANNEL_CAPACITY: nat := 360

  /** A failed worker keeps the chunk it could not deliver. */
  datatype Worker = Idle | Fetching(start: nat) | Sending(chunk: seq<nat>) | Finished | Failed(start: nat)

  /** `nextStart` is the state of the shared iterator. */
  datatype State = State(nextStart: nat, workers: seq<Worker>, channel: seq<seq<nat>>, consumer: Consumer)

  datatype Range = Range(start: nat, end: nat)

  function ChunkEnd(range: Range, start: nat): nat {
    if start + CHUNK_SIZE <= range.end then start + CHUNK_SIZE else range.end
  }

  datatype Event =
    | Pull(worker: nat)
    | FetchDone(worker: nat, rows: seq<nat>)
    | FetchFailed(worker: nat)
    | Send(worker: nat)
    | Receive

  function Initial(range: Range): State {
    State(range.start, seq(CONCURRENCY, _ => Idle), [], Consumer(range.start, map[], []))
  }

  predicate Enabled(range: Range, s: State, e: Event) {
    match e
    case Pull(w) => w < |s.workers| && s.workers[w].Idle?
    case FetchDone(w, rows) =>
      && w < |s.workers| && s.workers[w].Fetching?
      && s.workers[w].start <= ChunkEnd(range, s.workers[w].start)
      && IsQueryResult(rows, s.workers[w].start, ChunkEnd(range, s.workers[w].start) + 1)
    case FetchFailed(w) => w < |s.workers| && s.workers[w].Fetching?
    case Send(w) => w < |s.workers| && s.workers[w].Sending? && |s.channel| < CHANNEL_CAPACITY
    case Receive => s.channel != []
  }

  function Step(range: Range, s: State, e: Event): State
    requires Enabled(range, s, e)
  {
    match e
    case Pull(w) =>
      if s.nextStart > range.end then s.(workers := s.workers[w := Finished])
      else s.(nextStart := s.nextStart + CHUNK_SIZE + 1, workers := s.workers[w := Fetching(s.nextStart)])
    case FetchDone(w, rows) =>
      var start := s.workers[w].start;
      s.(workers := s.workers[w := Sending(Fetch(rows, start, ChunkEnd(range, start) + 1))])
    case FetchFailed(w) => s.(workers := s.workers[w := Failed(s.workers[w].start)])
    case Send(w) => s.(workers := s.workers[w := Idle], channel := s.channel + [s.workers[w].chunk])
    case Receive => s.(channel := s.channel[1..], consumer := Handle(s.consumer, s.channel[0]))
  }

  // ---- the invariant ----------------------------------------------------------------------

  predicate IsStart(range: Range, t: nat) {
    range.start <= t <= range.end && (t - range.start) % 101 == 0
  }

  /** The block after a chunk begins the next chunk, or ends the range. */
  predicate IsBoundary(range: Range, t: nat) {
    IsStart(range, t) || t == range.end + 1
  }

  /** A chunk of the tiling: all its blocks, in order. */
  predicate IsChunk(range: Range, chunk: seq<nat>) {
    chunk != [] && IsStart(range, chunk[0]) && chunk == Numbers(chunk[0], ChunkEnd(range, chunk[0]) + 1)
  }

  function StartOf(w: Worker): Option<nat> {
    match w
    case Fetching(start) => Some(start)
    case Sending(chunk) => if chunk == [] then None else Some(chunk[0])
    case Failed(start) => Some(start)
    case _ => None
  }

  function Starts(workers: seq<Worker>): (r: seq<Option<nat>>)
    ensures |r| == |workers| && forall i :: 0 <= i < |r| ==> r[i] == StartOf(workers[i])
  {
    seq(|workers|, i requires 0 <= i < |workers| => StartOf(workers[i]))
  }

  function Heads(channel: seq<seq<nat>>): (r: seq<Option<nat>>)
    ensures |r| == |channel| && forall i :: 0 <= i < |r| ==> r[i] == if channel[i] == [] then None else Some(channel[i][0])
  {
    seq(|channel|, i requires 0 <= i < |channel| => if channel[i] == [] then None else Some(channel[i][0]))
  }

  /** How many workers, channel slots and buffer entries hold the chunk that starts at `t`. */
  function Copies(s: State, t: nat): nat {
    multiset(Starts(s.workers))[Some(t)] + multiset(Heads(s.channel))[Some(t)] + if t in s.consumer.buffer then 1 else 0
  }

  /** Every chunk pulled and not yet processed is in exactly one place, and no other chunk is anywhere. */
  ghost predicate Accounted(range: Range, s: State) {
    forall t: nat :: Copies(s, t) == if IsStart(range, t) && s.consumer.next <= t < s.nextStart then 1 else 0
  }

  ghost predicate ConsumerOk(range: Range, c: Consumer) {
    && range.start <= c.next && IsBoundary(range, c.next)
    && c.processed == Numbers(range.start, c.next)
    && forall k :: k in c.buffer ==> IsChunk(range, c.buffer[k]) && c.buffer[k][0] == k
  }

  predicate WorkerOk(range: Range, nextStart: nat, w: Worker) {
    match w
    case Fetching(t) => IsStart(range, t)
    case Failed(t) => IsStart(range, t)
    case Sending(chunk) => IsChunk(range, chunk)
    case Finished => nextStart > range.end
    case Idle => true
  }

  ghost predicate Invariant(range: Range, s: State) {
    && range.start <= range.end
    && |s.workers| == CONCURRENCY
    && s.nextStart >= range.start && (s.nextStart - range.start) % 101 == 0
    && (forall w :: 0 <= w < |s.workers| ==> WorkerOk(range, s.nextStart, s.workers[w]))
    && (forall i :: 0 <= i < |s.channel| ==> IsChunk(range, s.channel[i]))
    && ConsumerOk(range, s.consumer)
    && s.consumer.next <= s.nextStart
    && (forall k :: k in s.consumer.buffer ==> s.consumer.next < k)
    && Accounted(range, s)
  }

  lemma InitialHolds(range: Range)
    requires range.start <= range.end
    ensures Invariant(range, Initial(range))
  {
  }

  // ---- the tiling -------------------------------------------------------------------------

  lemma StartsApart(range: Range, t: nat, u: nat)
    requires IsStart(range, t) && IsStart(range, u) && t < u
    ensures u >= t + CHUNK_SIZE + 1 && ChunkEnd(range, t) + 1 <= u
  {
    var a, b := (t - range.start) / 101, (u - range.start) / 101;
    assert t == range.start + 101 * a && u == range.start + 101 * b;
    assert a < b;
  }

  lemma ChunkFollowed(range: Range, t: nat)
    requires IsStart(range, t)
    ensures t <= ChunkEnd(range, t) <= range.end && IsBoundary(range, ChunkEnd(range, t) + 1)
    ensures forall u :: IsStart(range, u) && t < u ==> ChunkEnd(range, t) + 1 <= u
  {
    forall u | IsStart(range, u) && t < u ensures ChunkEnd(range, t) + 1 <= u {
      StartsApart(range, t, u);
    }
  }

  lemma LastOfChunk(range: Range, chunk: seq<nat>)
    requires IsChunk(range, chunk)
    ensures chunk[|chunk| - 1] == ChunkEnd(range, chunk[0])
  {
    ChunkFollowed(range, chunk[0]);
  }

  // ---- the consumer -----------------------------------------------------------------------

  /** Processing the chunk looked for moves on to the next boundary, in order. */
  lemma ProcessChunk(range: Range, c: Consumer, chunk: seq<nat>, bound: nat)
    requires ConsumerOk(range, c) && IsChunk(range, chunk) && chunk[0] == c.next
    requires c.next < bound && bound >= range.start && (bound - range.start) % 101 == 0
    ensures ConsumerOk(range, Consumer(chunk[|chunk| - 1] + 1, c.buffer, c.processed + chunk))
    ensures c.next < chunk[|chunk| - 1] + 1 <= bound
    ensures forall t: nat :: IsStart(range, t) && t > c.next ==> t >= chunk[|chunk| - 1] + 1
  {
    LastOfChunk(range, chunk);
    ChunkFollowed(range, c.next);
    NumbersJoin(range.start, c.next, ChunkEnd(range, c.next) + 1);
  }

  ghost predicate BufferedBetween(c: Consumer, lo: nat, hi: nat) {
    forall k :: k in c.buffer ==> lo <= k < hi
  }

  /** Draining processes exactly the buffered chunks up to the next missing one. */
  lemma {:induction false} DrainKeeps(range: Range, c: Consumer, bound: nat)
    requires ConsumerOk(range, c) && BufferedBetween(c, c.next, bound)
    requires c.next <= bound && bound >= range.start && (bound - range.start) % 101 == 0
    ensures var r := Drain(c);
            && ConsumerOk(range, r)
            && c.next <= r.next <= bound
            && BufferedBetween(r, r.next + 1, bound)
            && (forall t :: t in r.buffer <==> t in c.buffer && t >= r.next)
            && forall t: nat :: IsStart(range, t) && c.next <= t < r.next ==> t in c.buffer
    decreases c.buffer.Keys
  {
    hide IsStart;
    hide IsBoundary;
    hide ConsumerOk;
    if c.buffer.Keys != {} && MinKey(c.buffer) == c.next {
      var data := c.buffer[c.next];
      BufferedIsChunk(range, c, c.next);
      ProcessChunk(range, c, data, bound);
      var d := Consumer(data[|data| - 1] + 1, c.buffer - {c.next}, c.processed + data);
      FewerBuffered(range, Consumer(d.next, c.buffer, d.processed), d);
      forall k | k in d.buffer ensures d.next <= k < bound {
        BufferedIsChunk(range, c, k);
      }
      DrainKeeps(range, d, bound);
      assert Drain(c) == Drain(d);
    } else {
      assert Drain(c) == c;
      forall k | k in c.buffer ensures c.next < k {
        assert k in c.buffer.Keys;
      }
    }
  }

  lemma BufferedIsChunk(range: Range, c: Consumer, k: nat)
    requires ConsumerOk(range, c) && k in c.buffer
    ensures IsChunk(range, c.buffer[k]) && c.buffer[k][0] == k && IsStart(range, k)
  {
    hide IsBoundary;
  }

  lemma FewerBuffered(range: Range, a: Consumer, b: Consumer)
    requires ConsumerOk(range, a) && a.next == b.next && a.processed == b.processed
    requires forall k :: k in b.buffer ==> k in a.buffer && b.buffer[k] == a.buffer[k]
    ensures ConsumerOk(range, b)
  {
    hide IsBoundary;
    hide IsChunk;
  }

  // ---- steps ------------------------------------------------------------------------------

  /** What one worker's move does to the number of copies of each chunk. */
  lemma WorkerMoves(s: State, w: nat, x: Worker)
    requires w < |s.workers|
    ensures forall t: nat :: Copies(s.(workers := s.workers[w := x]), t) ==
              Copies(s, t)
              - (if StartOf(s.workers[w]) == Some(t) then 1 else 0)
              + (if StartOf(x) == Some(t) then 1 else 0)
  {
    assert Starts(s.workers[w := x]) == Starts(s.workers)[w := StartOf(x)];
    assert StartOf(s.workers[w]) == Starts(s.workers)[w];
  }

  lemma SameCopies(range: Range, s: State, r: State)
    requires Accounted(range, s) && r.nextStart == s.nextStart && r.consumer.next == s.consumer.next
    requires forall t: nat :: Copies(r, t) == Copies(s, t)
    ensures Accounted(range, r)
  {
    hide Copies;
    hide IsStart;
  }

  lemma PullKeeps(range: Range, s: State, e: Event)
    requires Invariant(range, s) && Enabled(range, s, e) && e.Pull?
    ensures Invariant(range, Step(range, s, e))
  {
    hide Copies;
    hide Accounted;
    hide IsBoundary;
    hide IsChunk;
    var r := Step(range, s, e);
    if s.nextStart <= range.end {
      PulledAccounted(range, s, e.worker);
      assert (r.nextStart - range.start) % 101 == 0;
    } else {
      WorkerMoves(s, e.worker, Finished);
      SameCopies(range, s, r);
    }
  }

  lemma NextPull(range: Range, t: nat, u: nat)
    requires t >= range.start && (t - range.start) % 101 == 0 && IsStart(range, u) && u < t + 101
    ensures u <= t
  {
  }

  lemma PulledAccounted(range: Range, s: State, w: nat)
    requires Invariant(range, s) && w < |s.workers| && s.workers[w].Idle? && s.nextStart <= range.end
    ensures Accounted(range, Step(range, s, Pull(w)))
  {
    hide Copies;
    var r := Step(range, s, Pull(w));
    var p := s.nextStart;
    assert IsStart(range, p);
    WorkerMoves(s, w, Fetching(p));
    forall t: nat ensures Copies(r, t) == if IsStart(range, t) && r.consumer.next <= t < r.nextStart then 1 else 0 {
      hide IsStart;
      assert Copies(r, t) == Copies(s.(workers := s.workers[w := Fetching(p)]), t) by { SamePlaces(r, s.(workers := s.workers[w := Fetching(p)]), t); }
      assert Copies(s, t) == if IsStart(range, t) && s.consumer.next <= t < p then 1 else 0;
      if IsStart(range, t) && t < p + 101 { NextPull(range, p, t); }
    }
  }

  lemma SamePlaces(a: State, b: State, t: nat)
    requires a.workers == b.workers && a.channel == b.channel && a.consumer == b.consumer
    ensures Copies(a, t) == Copies(b, t)
  {
  }

  lemma WorkerStepKeeps(range: Range, s: State, e: Event)
    requires Invariant(range, s) && Enabled(range, s, e) && (e.FetchDone? || e.FetchFailed?)
    ensures Invariant(range, Step(range, s, e))
  {
    hide Copies;
    hide Accounted;
    hide IsStart;
    hide IsBoundary;
    var r := Step(range, s, e);
    assert WorkerOk(range, s.nextStart, s.workers[e.worker]);
    var start := s.workers[e.worker].start;
    ChunkFollowed(range, start);
    if e.FetchDone? {
      FetchIsWholeRange(e.rows, start, ChunkEnd(range, start) + 1);
    }
    WorkerMoves(s, e.worker, r.workers[e.worker]);
    SameCopies(range, s, r);
  }

  lemma SendKeeps(range: Range, s: State, e: Event)
    requires Invariant(range, s) && Enabled(range, s, e) && e.Send?
    ensures Invariant(range, Step(range, s, e))
  {
    hide Accounted;
    hide IsStart;
    hide IsBoundary;
    var r := Step(range, s, e);
    assert WorkerOk(range, s.nextStart, s.workers[e.worker]);
    SentOnce(s, e.worker, s.workers[e.worker].chunk);
    SameCopies(range, s, r);
  }

  lemma SentOnce(s: State, w: nat, chunk: seq<nat>)
    requires w < |s.workers| && s.workers[w] == Sending(chunk) && chunk != []
    ensures var r := s.(workers := s.workers[w := Idle], channel := s.channel + [chunk]);
            forall t: nat :: Copies(r, t) == Copies(s, t)
  {
    var r := s.(workers := s.workers[w := Idle], channel := s.channel + [chunk]);
    assert Heads(r.channel) == Heads(s.channel) + [Some(chunk[0])];
    WorkerMoves(s, w, Idle);
    forall t: nat ensures Copies(r, t) == Copies(s, t) {
      assert Copies(s.(workers := s.workers[w := Idle]), t) == Copies(s, t) - if chunk[0] == t then 1 else 0;
    }
  }

  /** Taking the head off the channel. */
  lemma HeadLeaves(s: State)
    requires s.channel != [] && s.channel[0] != []
    ensures forall t: nat :: Copies(s, t) == Copies(s.(channel := s.channel[1..]), t) + if t == s.channel[0][0] then 1 else 0
  {
    var head := Some(s.channel[0][0]);
    assert Heads(s.channel) == [head] + Heads(s.channel[1..]);
    assert multiset(Heads(s.channel)) == multiset{head} + multiset(Heads(s.channel[1..]));
  }

  /** The received chunk was in the channel only, and was pulled and not yet processed. */
  lemma ReceivedOnce(range: Range, s: State)
    requires Invariant(range, s) && s.channel != []
    ensures var head := s.channel[0][0];
            && s.consumer.next <= head < s.nextStart && IsStart(range, head)
            && head !in s.consumer.buffer
            && Copies(s.(channel := s.channel[1..]), head) == 0
  {
    hide IsStart;
    hide IsBoundary;
    HeadLeaves(s);
    var head := s.channel[0][0];
    assert Copies(s, head) == if IsStart(range, head) && s.consumer.next <= head < s.nextStart then 1 else 0;
    assert Copies(s.(channel := s.channel[1..]), head) >= if head in s.consumer.buffer then 1 else 0;
  }

  /** Copies differ between two consumers exactly by what is buffered. */
  lemma ConsumerSwaps(s: State, c: Consumer, t: nat)
    ensures Copies(s.(consumer := c), t) ==
              Copies(s, t) - (if t in s.consumer.buffer then 1 else 0) + (if t in c.buffer then 1 else 0)
  {
  }

  lemma BufferedKeeps(range: Range, s: State)
    requires Invariant(range, s) && s.channel != [] && s.channel[0][0] != s.consumer.next
    ensures Invariant(range, Step(range, s, Receive))
  {
    hide Copies;
    hide Accounted;
    hide IsStart;
    hide IsBoundary;
    ReceivedOnce(range, s);
    HeadLeaves(s);
    var r := Step(range, s, Receive);
    var rest := s.(channel := s.channel[1..]);
    forall t: nat ensures Copies(r, t) == Copies(s, t) {
      ConsumerSwaps(rest, r.consumer, t);
      assert r == rest.(consumer := r.consumer);
    }
    SameCopies(range, s, r);
  }

  /** A buffered chunk is one that was pulled. */
  lemma BufferedWasPulled(range: Range, s: State, k: nat)
    requires Invariant(range, s) && k in s.consumer.buffer
    ensures IsStart(range, k) && s.consumer.next < k < s.nextStart
  {
    hide IsStart;
    hide IsBoundary;
    assert Copies(s, k) == if IsStart(range, k) && s.consumer.next <= k < s.nextStart then 1 else 0;
  }

  /** The consumer after it processed the chunk it looked for and the buffered ones that follow. */
  lemma ProcessedConsumer(range: Range, s: State)
    requires Invariant(range, s) && s.channel != [] && s.channel[0][0] == s.consumer.next
    ensures var c := s.consumer;
            var r := Step(range, s, Receive).consumer;
            && ConsumerOk(range, r)
            && c.next < r.next <= s.nextStart
            && (forall t :: t in r.buffer <==> t in c.buffer && t >= r.next)
            && (forall t :: t in r.buffer ==> r.next < t)
            && forall t: nat :: IsStart(range, t) && c.next < t < r.next ==> t in c.buffer
  {
    hide Copies, IsStart, IsBoundary, Drain, Accounted, ConsumerOk, WorkerOk;
    ReceivedOnce(range, s);
    var chunk := s.channel[0];
    var c := s.consumer;
    ProcessChunk(range, c, chunk, s.nextStart);
    var d := Consumer(chunk[|chunk| - 1] + 1, c.buffer, c.processed + chunk);
    assert Handle(c, chunk) == Drain(d);
    forall k | k in d.buffer ensures d.next <= k < s.nextStart {
      BufferedWasPulled(range, s, k);
    }
    DrainKeeps(range, d, s.nextStart);
  }

  lemma ProcessedKeeps(range: Range, s: State)
    requires Invariant(range, s) && s.channel != [] && s.channel[0][0] == s.consumer.next
    ensures Invariant(range, Step(range, s, Receive))
  {
    hide Copies, IsStart, IsBoundary, Handle, ConsumerOk;
    ReceivedOnce(range, s);
    HeadLeaves(s);
    ProcessedConsumer(range, s);
    var r := Step(range, s, Receive);
    var c := s.consumer;
    var rest := s.(channel := s.channel[1..]);
    assert r == rest.(consumer := r.consumer);
    forall t: nat ensures Copies(r, t) == if IsStart(range, t) && r.consumer.next <= t < r.nextStart then 1 else 0 {
      assert Copies(s, t) == if IsStart(range, t) && c.next <= t < s.nextStart then 1 else 0;
      ConsumerSwaps(rest, r.consumer, t);
      if t in c.buffer { BufferedWasPulled(range, s, t); }
    }
  }

  lemma StepKeepsInvariant(range: Range, s: State, e: Event)
    requires Invariant(range, s) && Enabled(range, s, e)
    ensures Invariant(range, Step(range, s, e))
  {
    match e
    case Pull(_) => PullKeeps(range, s, e);
    case FetchDone(_, _) => WorkerStepKeeps(range, s, e);
    case FetchFailed(_) => WorkerStepKeeps(range, s, e);
    case Send(_) => SendKeeps(range, s, e);
    case Receive =>
      if s.channel[0][0] == s.consumer.next { ProcessedKeeps(range, s); } else { BufferedKeeps(range, s); }
  }

  // ---- runs -------------------------------------------------------------------------------

  ghost predicate IsRun(range: Range, states: seq<State>, events: seq<Event>) {
    && |states| == |events| + 1
    && states[0] == Initial(range)
    && forall i :: 0 <= i < |events| ==> Enabled(range, states[i], events[i]) && states[i + 1] == Step(range, states[i], events[i])
  }

  lemma {:induction false} EveryRunKeepsInvariant(range: Range, states: seq<State>, events: seq<Event>, i: nat)
    requires range.start <= range.end && IsRun(range, states, events) && i < |states|
    ensures Invariant(range, states[i])
    decreases i
  {
    hide Invariant;
    hide Step;
    InitialHolds(range);
    if i > 0 {
      EveryRunKeepsInvariant(range, states, events, i - 1);
      assert states[i - 1 + 1] == Step(range, states[i - 1], events[i - 1]);
      StepKeepsInvariant(range, states[i - 1], events[i - 1]);
    }
  }

  /**
    Whatever the interleaving and the arrival order, the blocks processed so far are those from the
    start up to the one looked for, in order and once each, and the buffer holds only later chunks.
   */
  lemma ProcessedInOrder(range: Range, states: seq<State>, events: seq<Event>, i: nat)
    requires range.start <= range.end && IsRun(range, states, events) && i < |states|
    ensures var c := states[i].consumer;
            && range.start <= c.next <= range.end + 1
            && c.processed == Numbers(range.start, c.next)
            && forall k :: k in c.buffer ==> c.next < k <= range.end
  {
    EveryRunKeepsInvariant(range, states, events, i);
  }

  lemma StepIsBounded(range: Range, s: State, e: Event)
    requires Enabled(range, s, e) && |s.workers| == 50 && |s.channel| <= 360
    ensures |Step(range, s, e).workers| == 50 && |Step(range, s, e).channel| <= 360
  {
    hide Handle, Fetch;
  }

  /** At most fifty chunks are being fetched or sent, and at most 360 wait to be processed, in every run; a worker with a chunk to send is held up by the 360 alone. */
  lemma {:induction false} InFlightIsBounded(range: Range, states: seq<State>, events: seq<Event>, i: nat)
    requires IsRun(range, states, events) && i < |states|
    ensures |states[i].workers| == 50 && |states[i].channel| <= 360
    ensures forall w: nat :: w < 50 && states[i].workers[w].Sending? ==>
              (Enabled(range, states[i], Send(w)) <==> |states[i].channel| < 360)
    decreases i
  {
    hide Step;
    if i > 0 {
      InFlightIsBounded(range, states, events, i - 1);
      assert states[i - 1 + 1] == Step(range, states[i - 1], events[i - 1]);
      StepIsBounded(range, states[i - 1], events[i - 1]);
    }
  }

  /** Every worker has seen the iterator run out and nothing is left in the channel. */
  ghost predicate AllDelivered(s: State) {
    s.channel == [] && forall w :: 0 <= w < |s.workers| ==> s.workers[w].Finished?
  }

  /** When every chunk is delivered, every block of the range was processed once, and nothing is buffered. */
  lemma EverythingIsProcessed(range: Range, states: seq<State>, events: seq<Event>, i: nat)
    requires range.start <= range.end && IsRun(range, states, events) && i < |states|
    requires AllDelivered(states[i])
    ensures var c := states[i].consumer;
            c.processed == Numbers(range.start, range.end + 1) && c.buffer == map[]
  {
    EveryRunKeepsInvariant(range, states, events, i);
    var s := states[i];
    assert s.workers[0].Finished?;
    NothingPending(range, s);
    assert forall k :: k in s.consumer.buffer ==> k <= range.end;
    assert s.consumer.buffer == map[];
  }

  lemma NothingPending(range: Range, s: State)
    requires Invariant(range, s) && AllDelivered(s)
    ensures s.consumer.next == range.end + 1
  {
    assert s.workers[0].Finished?;
    var t := s.consumer.next;
    assert Copies(s, t) == if IsStart(range, t) && t < s.nextStart then 1 else 0;
    assert forall w :: 0 <= w < |s.workers| ==> Starts(s.workers)[w] == None;
    assert Some(t) !in Starts(s.workers);
  }

  /** The pipeline is never stuck before that, unless a worker failed. */
  lemma NeverStuck(range: Range, states: seq<State>, events: seq<Event>, i: nat)
    requires range.start <= range.end && IsRun(range, states, events) && i < |states|
    requires !AllDelivered(states[i]) && forall w :: 0 <= w < |states[i].workers| ==> !states[i].workers[w].Failed?
    ensures exists e :: Enabled(range, states[i], e)
  {
    EveryRunKeepsInvariant(range, states, events, i);
    var s := states[i];
    if s.channel != [] {
      assert Enabled(range, s, Receive);
    } else {
      var w: nat :| w < |s.workers| && !s.workers[w].Finished?;
      match s.workers[w]
      case Idle => assert Enabled(range, s, Pull(w));
      case Fetching(t) =>
        ChunkFollowed(range, t);
        assert Enabled(range, s, FetchDone(w, []));
      case Sending(_) => assert Enabled(range, s, Send(w));
      case Failed(_) =>
    }
  }

  // ---- and it ends ------------------------------------------------------------------------

  /** How many steps a worker's present chunk can still take, its own end included. */
  function Steps(w: Worker): nat {
    match w
    case Fetching(_) => 4
    case Sending(_) => 3
    case Idle => 1
    case _ => 0
  }

  function AllSteps(workers: seq<Worker>): nat {
    if workers == [] then 0 else AllSteps(workers[..|workers| - 1]) + Steps(workers[|workers| - 1])
  }

  lemma {:induction false} OneWorkerSteps(workers: seq<Worker>, i: nat, w: Worker)
    requires i < |workers|
    ensures AllSteps(workers[i := w]) == AllSteps(workers) - Steps(workers[i]) + Steps(w)
    decreases |workers|
  {
    var n := |workers| - 1;
    if i < n {
      OneWorkerSteps(workers[..n], i, w);
      assert workers[i := w][..n] == workers[..n][i := w];
    } else {
      assert workers[i := w][..n] == workers[..n];
    }
  }

  /** The chunks the iterator has not yielded yet. */
  function ChunksLeft(range: Range, s: State): nat {
    if s.nextStart > range.end then 0 else (range.end - s.nextStart) / (CHUNK_SIZE + 1) + 1
  }

  /** What is left to do: it falls with every step. */
  function Remaining(range: Range, s: State): nat {
    4 * ChunksLeft(range, s) + AllSteps(s.workers) + |s.channel|
  }

  lemma StepsRunOut(range: Range, s: State, e: Event)
    requires Enabled(range, s, e)
    ensures Remaining(range, Step(range, s, e)) < Remaining(range, s)
  {
    hide Handle, Fetch;
    match e
    case Pull(w) => OneWorkerSteps(s.workers, w, Step(range, s, e).workers[w]);
    case FetchDone(w, _) => OneWorkerSteps(s.workers, w, Step(range, s, e).workers[w]);
    case FetchFailed(w) => OneWorkerSteps(s.workers, w, Step(range, s, e).workers[w]);
    case Send(w) => OneWorkerSteps(s.workers, w, Step(range, s, e).workers[w]);
    case Receive =>
  }

  /** No run is longer than what there is to do at its start. */
  lemma {:induction false} EveryRunIsFinite(range: Range, states: seq<State>, events: seq<Event>, i: nat)
    requires IsRun(range, states, events) && i < |states|
    ensures i + Remaining(range, states[i]) <= Remaining(range, Initial(range))
    decreases i
  {
    hide Step;
    hide Remaining;
    if i > 0 {
      EveryRunIsFinite(range, states, events, i - 1);
      assert states[i - 1 + 1] == Step(range, states[i - 1], events[i - 1]);
      StepsRunOut(range, states[i - 1], events[i - 1]);
    }
  }

  /** Nothing can happen any more. */
  ghost predicate Stuck(range: Range, s: State) {
    forall e :: !Enabled(range, s, e)
  }

  /**
    Every run can be continued a bounded number of times only, and one that cannot be continued and
    in which no worker failed has processed the whole range, once and in order.
   */
  lemma EveryMaximalRunDelivers(range: Range, states: seq<State>, events: seq<Event>)
    requires range.start <= range.end && IsRun(range, states, events)
    ensures |events| <= Remaining(range, Initial(range))
    ensures var s := states[|events|];
            Stuck(range, s) && (forall w :: 0 <= w < |s.workers| ==> !s.workers[w].Failed?) ==>
              AllDelivered(s) && s.consumer.processed == Numbers(range.start, range.end + 1) && s.consumer.buffer == map[]
  {
    hide Step;
    hide Remaining;
    hide Enabled;
    EveryRunIsFinite(range, states, events, |events|);
    var s := states[|events|];
    if Stuck(range, s) && forall w :: 0 <= w < |s.workers| ==> !s.workers[w].Failed? {
      if !AllDelivered(s) {
        NeverStuck(range, states, events, |events|);
      }
      EverythingIsProcessed(range, states, events, |events|);
    }
  }
}
