/** The dispatch of trade requests for one block: `strategy_executor.rs`. */
module StrategyExecutor {
  import opened Wrappers
  import opened ResolutionTimestamp
  import opened SeriesInvariants
  import opened InsertOutcome
  import opened TradeLedger
  import S = BarSeries
  import Store = TimePriceBarStore

  datatype Pair = Pair(address: Address, tokenAddress: Address)

  datatype BlockMessage = BlockMessage(number: nat, timestamp: nat, pairs: seq<Pair>)

  /** The strategy is any pair of decisions on a pair's bars. */
  datatype Strategy = Strategy(
    shouldOpen: (S.Series, nat) -> bool,
    shouldClose: (S.Series, nat, nat) -> bool)

  datatype TradeRequest =
    | OpenRequest(number: nat, timestamp: nat, pair: Pair)
    | CloseRequest(number: nat, timestamp: nat, pair: Pair, openTrade: TradeMetadata)

  /** The request for one pair, if any. */
  function Decide(strategy: Strategy, ledger: Ledger, bars: Store.AllBars, message: BlockMessage, pair: Pair): Option<TradeRequest>
    requires pair.address in bars
  {
    var w := Window(message.timestamp);
    var series := bars[pair.address];
    match Entry(ledger, pair.tokenAddress).active
    case None =>
      if strategy.shouldOpen(series, w) then Some(OpenRequest(message.number, message.timestamp, pair)) else None
    case Some(Open(t)) =>
      if strategy.shouldClose(series, w, Window(t.blockTimestamp)) then
        Some(CloseRequest(message.number, message.timestamp, pair, t))
      else None
    case Some(_) => None
  }

  /** The requests for the first `n` pairs of the message, in order. */
  function Decisions(strategy: Strategy, ledger: Ledger, bars: Store.AllBars, message: BlockMessage, n: nat): seq<TradeRequest>
    requires n <= |message.pairs| && forall i :: 0 <= i < n ==> message.pairs[i].address in bars
  {
    if n == 0 then []
    else
      var d := Decide(strategy, ledger, bars, message, message.pairs[n - 1]);
      Decisions(strategy, ledger, bars, message, n - 1) + if d.Some? then [d.value] else []
  }

  /** Every request goes to a token that is free to open, or closes the very trade that is open. */
  lemma {:induction false} RequestsMatchTrades(strategy: Strategy, ledger: Ledger, bars: Store.AllBars, message: BlockMessage, n: nat)
    requires n <= |message.pairs| && forall i :: 0 <= i < n ==> message.pairs[i].address in bars
    ensures forall r :: r in Decisions(strategy, ledger, bars, message, n) ==>
              && r.pair in message.pairs && r.number == message.number && r.timestamp == message.timestamp
              && match r
                 case OpenRequest(_, _, p) => BeginOpen(ledger, p.tokenAddress).Ok?
                 case CloseRequest(_, _, p, t) => BeginClose(ledger, p.tokenAddress).Ok? && BeginClose(ledger, p.tokenAddress).value.1 == t
    decreases n
  {
    if n > 0 {
      RequestsMatchTrades(strategy, ledger, bars, message, n - 1);
      assert message.pairs[n - 1] in message.pairs;
    }
  }

  /**
    A pair is opened exactly when its token has no active trade and the strategy says so, and a trade
    is closed exactly when it is the pair's token's open one and the strategy says so.
   */
  lemma {:induction false} RequestedIffDecided(strategy: Strategy, ledger: Ledger, bars: Store.AllBars, message: BlockMessage, n: nat)
    requires n <= |message.pairs| && forall i :: 0 <= i < n ==> message.pairs[i].address in bars
    ensures var requests := Decisions(strategy, ledger, bars, message, n);
            var w := Window(message.timestamp);
            && |requests| <= n
            && (forall p :: OpenRequest(message.number, message.timestamp, p) in requests <==>
                  && p in message.pairs[..n]
                  && Entry(ledger, p.tokenAddress).active.None?
                  && strategy.shouldOpen(bars[p.address], w))
            && forall p, t :: CloseRequest(message.number, message.timestamp, p, t) in requests <==>
                  && p in message.pairs[..n]
                  && Entry(ledger, p.tokenAddress).active == Some(Open(t))
                  && strategy.shouldClose(bars[p.address], w, Window(t.blockTimestamp))
    decreases n
  {
    if n > 0 {
      RequestedIffDecided(strategy, ledger, bars, message, n - 1);
      assert message.pairs[..n] == message.pairs[..n - 1] + [message.pairs[n - 1]];
    }
  }

  /** Each pair comes once. */
  ghost predicate Distinct(pairs: seq<Pair>) {
    forall i, j :: 0 <= i < j < |pairs| ==> pairs[i].address != pairs[j].address
  }

  /** Each request has a pair of its own, and requests come in the order of their pairs: `at` says where. */
  lemma {:induction false} RequestsInOrder(strategy: Strategy, ledger: Ledger, bars: Store.AllBars, message: BlockMessage, n: nat)
    returns (at: seq<nat>)
    requires n <= |message.pairs| && forall i :: 0 <= i < n ==> message.pairs[i].address in bars
    ensures var requests := Decisions(strategy, ledger, bars, message, n);
            && |at| == |requests|
            && (forall k :: 0 <= k < |at| ==> at[k] < n && requests[k].pair == message.pairs[at[k]])
            && forall k, l :: 0 <= k < l < |at| ==> at[k] < at[l]
    decreases n
  {
    at := [];
    if n > 0 {
      at := RequestsInOrder(strategy, ledger, bars, message, n - 1);
      if Decide(strategy, ledger, bars, message, message.pairs[n - 1]).Some? {
        at := at + [n - 1];
      }
    }
  }

  /** `on_indexed_block_message`; a pair without bars would be a panic. */
  method OnIndexedBlockMessage(strategy: Strategy, ledger: Ledger, bars: Store.AllBars, message: BlockMessage)
    returns (requests: seq<TradeRequest>)
    requires forall i :: 0 <= i < |message.pairs| ==> message.pairs[i].address in bars
    ensures requests == Decisions(strategy, ledger, bars, message, |message.pairs|)
  {
    requests := [];
    for i := 0 to |message.pairs|
      invariant requests == Decisions(strategy, ledger, bars, message, i)
    {
      var pair := message.pairs[i];
      var series := bars[pair.address];
      var w := Window(message.timestamp);
      match Entry(ledger, pair.tokenAddress).active {
        case None =>
          if strategy.shouldOpen(series, w) {
            requests := requests + [OpenRequest(message.number, message.timestamp, pair)];
          }
        case Some(Open(t)) =>
          if strategy.shouldClose(series, w, Window(t.blockTimestamp)) {
            requests := requests + [CloseRequest(message.number, message.timestamp, pair, t)];
          }
        case Some(_) =>
      }
    }
  }

  /** The pair traded in the block, with the token of its tick. */
  predicate PairIn(block: Store.Block, p: Pair) {
    p.address in block.pairTicks && p.tokenAddress == block.pairTicks[p.address].tokenAddress
  }

  /** `BlockMessage::from`: the block's pairs in whatever order the hash map yields them. */
  method ToMessage(block: Store.Block) returns (message: BlockMessage)
    ensures message.number == block.number && message.timestamp == block.timestamp
    ensures forall p :: p in message.pairs <==> PairIn(block, p)
    ensures Distinct(message.pairs)
  {
    var rest := block.pairTicks.Keys;
    var pairs: seq<Pair> := [];
    while rest != {}
      invariant rest <= block.pairTicks.Keys && Distinct(pairs)
      invariant forall p :: p in pairs <==>
                  p.address in block.pairTicks && p.address !in rest && p.tokenAddress == block.pairTicks[p.address].tokenAddress
      decreases rest
    {
      var a :| a in rest;
      pairs := pairs + [Pair(a, block.pairTicks[a].tokenAddress)];
      rest := rest - {a};
    }
    message := BlockMessage(block.number, block.timestamp, pairs);
  }

  /**
    The requests are those decided for the block on these bars, each made once: to open every pair of
    it whose token has no active trade and that the strategy opens, and to close every open trade of
    such a token that the strategy closes.
   */
  ghost predicate Dispatched(strategy: Strategy, ledger: Ledger, bars: Store.AllBars, block: Store.Block, requests: seq<TradeRequest>) {
    var w := Window(block.timestamp);
    && block.pairTicks.Keys <= bars.Keys
    && (forall p :: OpenRequest(block.number, block.timestamp, p) in requests <==>
          && PairIn(block, p)
          && Entry(ledger, p.tokenAddress).active.None?
          && strategy.shouldOpen(bars[p.address], w))
    && (forall p, t :: CloseRequest(block.number, block.timestamp, p, t) in requests <==>
          && PairIn(block, p)
          && Entry(ledger, p.tokenAddress).active == Some(Open(t))
          && strategy.shouldClose(bars[p.address], w, Window(t.blockTimestamp)))
    && (forall r :: r in requests ==> r.number == block.number && r.timestamp == block.timestamp)
    && forall i, j :: 0 <= i < j < |requests| ==> requests[i] != requests[j]
  }

  lemma DecisionsAreDispatched(strategy: Strategy, ledger: Ledger, bars: Store.AllBars, block: Store.Block, message: BlockMessage)
    requires message.number == block.number && message.timestamp == block.timestamp && block.pairTicks.Keys <= bars.Keys
    requires Distinct(message.pairs) && forall p :: p in message.pairs <==> PairIn(block, p)
    requires forall i :: 0 <= i < |message.pairs| ==> message.pairs[i].address in bars
    ensures Dispatched(strategy, ledger, bars, block, Decisions(strategy, ledger, bars, message, |message.pairs|))
  {
    hide Decisions, PairIn;
    var n := |message.pairs|;
    RequestedIffDecided(strategy, ledger, bars, message, n);
    RequestsMatchTrades(strategy, ledger, bars, message, n);
    var requests := Decisions(strategy, ledger, bars, message, n);
    var at := RequestsInOrder(strategy, ledger, bars, message, n);
    assert message.pairs[..n] == message.pairs;
    forall i, j | 0 <= i < j < |requests| ensures requests[i] != requests[j] {
      assert at[i] < at[j];
      assert requests[i].pair.address != requests[j].pair.address;
    }
    assert forall p :: PairIn(block, p) ==> p.address in block.pairTicks by { PairsAreInBlock(block); }
  }

  lemma PairsAreInBlock(block: Store.Block)
    ensures forall p :: PairIn(block, p) ==> p.address in block.pairTicks
  {
  }

  /**
    `execute_strategy_for_block`. Once the block is in, every pair of its message has bars: the
    executor's panic cannot happen. Exactly the requests decided on the bars just stored are
    dispatched, each once.
   */
  method ExecuteStrategyForBlock(store: Store.TimePriceBarStore, strategy: Strategy, ledger: Ledger, block: Store.Block,
                                 header: Option<nat>, ghost t0: nat)
    returns (error: Option<S.Error>, requests: seq<TradeRequest>)
    requires Store.Valid(t0, store.View()) && store.config.computeIndicators
    requires block.timestamp == BlockTime(t0, block.number)
    requires header.Some? ==> header.value >= OFFSET
    modifies store
    ensures var finalized := Store.FinalizedWindow(store.isBacktest, block.timestamp, header);
            && (error.None? <==> Store.InsertBlockOk(store.config, old(store.View()), block, finalized))
            && (error.None? ==> store.View() == Store.AfterBlock(store.config, old(store.View()), block, finalized))
            && (error.Some? ==> Store.Stopped(store.config, old(store.View()), block, finalized, store.View(), error.value))
    ensures error.None? ==> Store.Valid(t0, store.View())
    ensures error.None? ==> forall r :: r in requests ==>
              && r.pair.address in store.timePriceBars
              && EndsIn(t0, store.timePriceBars[r.pair.address].data, block.number)
    ensures error.Some? ==> requests == []
    ensures error.None? ==> Dispatched(strategy, ledger, store.timePriceBars, block, requests)
  {
    requests := [];
    ghost var before := store.View();
    ghost var finalized := Store.FinalizedWindow(store.isBacktest, block.timestamp, header);
    Store.ValidFits(store.config, t0, before, block, finalized);
    error := store.InsertBlock(block, header);
    if error.Some? { return; }
    Store.InsertBlockKeepsValid(store.config, t0, before, block, finalized);
    var message := ToMessage(block);
    forall i | 0 <= i < |message.pairs| ensures message.pairs[i].address in store.timePriceBars {
      assert message.pairs[i] in message.pairs;
    }
    requests := OnIndexedBlockMessage(strategy, ledger, store.timePriceBars, message);
    RequestsMatchTrades(strategy, ledger, store.timePriceBars, message, |message.pairs|);
    DecisionsAreDispatched(strategy, ledger, store.timePriceBars, block, message);
  }
}
