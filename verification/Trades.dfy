/** The per-token trade ledger and its lock-protected steps: `trades.rs` and `trade_controller.rs`. */
module TradeLedger {
  import opened Wrappers

  type Address = nat

  datatype TradeMetadata = TradeMetadata(txHash: nat, blockTimestamp: nat)

  datatype Trade = PendingOpen | Open(metadata: TradeMetadata) | PendingClose

  datatype AddressTrades = AddressTrades(active: Option<Trade>, closed: seq<(TradeMetadata, TradeMetadata)>)

  type Ledger = map<Address, AddressTrades>

  datatype Error = PositionExists | NoOpenTrade | UnexpectedState | MissingTrade

  const NoTrades := AddressTrades(None, [])

  /** The trades of a token, whether or not it has an entry yet. */
  function Entry(ledger: Ledger, a: Address): AddressTrades {
    if a in ledger then ledger[a] else NoTrades
  }

  /** The first step of `open_position`, under the write lock. */
  function BeginOpen(ledger: Ledger, a: Address): Result<Ledger, Error> {
    if Entry(ledger, a).active.Some? then Err(PositionExists)
    else Ok(ledger[a := Entry(ledger, a).(active := Some(PendingOpen))])
  }

  /** The first step of `close_position`, under the write lock; hands out the open trade. */
  function BeginClose(ledger: Ledger, a: Address): Result<(Ledger, TradeMetadata), Error> {
    if a !in ledger then Err(NoOpenTrade)
    else match ledger[a].active
      case Some(Open(t)) => Ok((ledger[a := ledger[a].(active := Some(PendingClose))], t))
      case _ => Err(UnexpectedState)
  }

  function SetActive(ledger: Ledger, a: Address, trade: Option<Trade>): Result<Ledger, Error> {
    if a !in ledger then Err(MissingTrade) else Ok(ledger[a := ledger[a].(active := trade)])
  }

  function Close(ledger: Ledger, a: Address, open: TradeMetadata, committed: TradeMetadata): Result<Ledger, Error> {
    if a !in ledger then Err(MissingTrade)
    else Ok(ledger[a := AddressTrades(None, ledger[a].closed + [(open, committed)])])
  }
}

/** The ledger as the shared map it is. */
module Trades {
  import opened Wrappers
  import opened L = TradeLedger

  /** The map behind the lock. Each method is one critical section. */
  class SharedTrades {
    var trades: Ledger

    constructor ()
      ensures trades == map[]
    {
      trades := map[];
    }

    method SetActive(a: Address, trade: Option<Trade>) returns (error: Option<Error>)
      modifies this
      ensures match L.SetActive(old(trades), a, trade)
              case Ok(l) => error == None && trades == l
              case Err(e) => error == Some(e) && trades == old(trades)
      ensures error == if a in old(trades) then None else Some(MissingTrade)
    {
      if a !in trades { return Some(MissingTrade); }
      trades := trades[a := trades[a].(active := trade)];
      error := None;
    }

    method Close(a: Address, open: TradeMetadata, committed: TradeMetadata) returns (error: Option<Error>)
      modifies this
      ensures match L.Close(old(trades), a, open, committed)
              case Ok(l) => error == None && trades == l
              case Err(e) => error == Some(e) && trades == old(trades)
      ensures error == if a in old(trades) then None else Some(MissingTrade)
    {
      if a !in trades { return Some(MissingTrade); }
      trades := trades[a := AddressTrades(None, trades[a].closed + [(open, committed)])];
      error := None;
    }

    /** Inserts the default entry first, as the source does, and refuses an active one. */
    method BeginOpen(a: Address) returns (error: Option<Error>)
      modifies this
      ensures match L.BeginOpen(old(trades), a)
              case Ok(l) => error == None && trades == l
              case Err(e) => error == Some(e) && trades == old(trades)
      ensures error == if a in old(trades) && old(trades)[a].active.Some? then Some(PositionExists) else None
    {
      if a !in trades {
        trades := trades[a := NoTrades];
      }
      if trades[a].active.Some? { return Some(PositionExists); }
      trades := trades[a := trades[a].(active := Some(PendingOpen))];
      error := None;
    }

    /** Replaces the active trade first and puts it back when it was not an open one. */
    method BeginClose(a: Address) returns (r: Result<TradeMetadata, Error>)
      modifies this
      ensures match L.BeginClose(old(trades), a)
              case Ok((l, t)) => r == Ok(t) && trades == l
              case Err(e) => r == Err(e) && trades == old(trades)
      ensures a !in old(trades) ==> r == Err(NoOpenTrade)
      ensures a in old(trades) ==>
                r == match old(trades)[a].active
                     case Some(Open(t)) => Ok(t)
                     case _ => Err(UnexpectedState)
    {
      if a !in trades { return Err(NoOpenTrade); }
      var existing := trades[a].active;
      trades := trades[a := trades[a].(active := Some(PendingClose))];
      match existing
      case Some(Open(t)) => r := Ok(t);
      case _ =>
        trades := trades[a := trades[a].(active := existing)];
        r := Err(UnexpectedState);
    }
  }
}
