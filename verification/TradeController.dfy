/**
  Any number of open and close requests, interleaved at their lock-protected steps. A request is
  submitted, acquires its token, is traced, is sent, and is confirmed; each of the last three steps
  may fail and then reverts what the first one did.
 */
module TradeController {
  import opened Wrappers
  import opened TradeLedger

  datatype Kind = Opening | Closing

  datatype Stage = Submitted | Tracing | Sending | Confirming | Ended(ok: bool)

  /** `held` is the open trade a closing request took from the ledger. */
  datatype Request = Request(kind: Kind, token: Address, stage: Stage, held: TradeMetadata) {
    predicate InFlight() {
      stage.Tracing? || stage.Sending? || stage.Confirming?
    }

    /** What the token's active trade is while the request owns it. */
    function Pending(): Trade {
      if kind.Opening? then PendingOpen else PendingClose
    }

    /** What the token's active trade was when the request took it. */
    function Before(): Option<Trade> {
      if kind.Opening? then None else Some(Open(held))
    }
  }

  /** Per token, in order, the trades that were confirmed. */
  type Confirmations = map<Address, seq<TradeMetadata>>

  /** `opens` and `closes` record what was confirmed; no step reads them. */
  datatype State = State(ledger: Ledger, requests: map<nat, Request>, opens: Confirmations, closes: Confirmations)

  datatype Event =
    | Submit(id: nat, request: Request)
    | Acquire(id: nat)
    | Traced(id: nat, ok: bool)
    | Sent(id: nat, ok: bool)
    | Confirmed(id: nat, result: Option<TradeMetadata>)

  predicate Enabled(s: State, e: Event) {
    match e
    case Submit(id, r) => id !in s.requests && r.stage.Submitted?
    case Acquire(id) => id in s.requests && s.requests[id].stage.Submitted?
    case Traced(id, _) => id in s.requests && s.requests[id].stage.Tracing?
    case Sent(id, _) => id in s.requests && s.requests[id].stage.Sending?
    case Confirmed(id, _) => id in s.requests && s.requests[id].stage.Confirming?
  }

  function To(s: State, id: nat, stage: Stage): State
    requires id in s.requests
  {
    s.(requests := s.requests[id := s.requests[id].(stage := stage)])
  }

  function OrSame(r: Result<Ledger, Error>, ledger: Ledger): Ledger {
    if r.Ok? then r.value else ledger
  }

  /** A failed step puts the active trade back, and ends the request. */
  function Revert(s: State, id: nat): State
    requires id in s.requests
  {
    var r := s.requests[id];
    To(s, id, Ended(false)).(ledger := OrSame(SetActive(s.ledger, r.token, r.Before()), s.ledger))
  }

  function For(confirmed: Confirmations, a: Address): seq<TradeMetadata> {
    if a in confirmed then confirmed[a] else []
  }

  function Confirm(confirmed: Confirmations, a: Address, trade: TradeMetadata): Confirmations {
    confirmed[a := For(confirmed, a) + [trade]]
  }

  function Step(s: State, e: Event): State
    requires Enabled(s, e)
  {
    match e
    case Submit(id, r) => s.(requests := s.requests[id := r])
    case Acquire(id) =>
      var r := s.requests[id];
      if r.kind.Opening? then
        var begun := BeginOpen(s.ledger, r.token);
        if begun.Err? then To(s, id, Ended(false)) else To(s, id, Tracing).(ledger := begun.value)
      else
        var begun := BeginClose(s.ledger, r.token);
        if begun.Err? then To(s, id, Ended(false))
        else
          s.(ledger := begun.value.0, requests := s.requests[id := r.(stage := Tracing, held := begun.value.1)])
    case Traced(id, ok) => if ok then To(s, id, Sending) else Revert(s, id)
    case Sent(id, ok) => if ok then To(s, id, Confirming) else Revert(s, id)
    case Confirmed(id, result) =>
      var r := s.requests[id];
      if result.None? then Revert(s, id)
      else if r.kind.Opening? then
        To(s, id, Ended(true)).(ledger := OrSame(SetActive(s.ledger, r.token, Some(Open(result.value))), s.ledger),
                                opens := Confirm(s.opens, r.token, result.value))
      else
        To(s, id, Ended(true)).(ledger := OrSame(Close(s.ledger, r.token, r.held, result.value), s.ledger),
                                closes := Confirm(s.closes, r.token, result.value))
  }

  // ---- the invariant ----------------------------------------------------------------------

  function Opens(closed: seq<(TradeMetadata, TradeMetadata)>): (r: seq<TradeMetadata>)
    ensures |r| == |closed|
  {
    seq(|closed|, i requires 0 <= i < |closed| => closed[i].0)
  }

  function Closes(closed: seq<(TradeMetadata, TradeMetadata)>): (r: seq<TradeMetadata>)
    ensures |r| == |closed|
  {
    seq(|closed|, i requires 0 <= i < |closed| => closed[i].1)
  }

  /** The request owns its token: the active trade says so, and no other request in flight has it. */
  ghost predicate Owns(s: State, id: nat) {
    && id in s.requests && s.requests[id].InFlight()
    && var r := s.requests[id];
       && r.token in s.ledger
       && s.ledger[r.token].active == Some(r.Pending())
       && (r.kind.Closing? ==> For(s.opens, r.token) == Opens(s.ledger[r.token].closed) + [r.held])
       && forall other :: other in s.requests && s.requests[other].InFlight() && s.requests[other].token == r.token ==> other == id
  }

  ghost predicate OwnedBy(s: State, a: Address, id: nat) {
    Owns(s, id) && s.requests[id].token == a
  }

  /**
    A token is pending exactly while one request in flight owns it, its confirmed closes are those
    of its closed trades, and its confirmed opens are those of its closed trades followed by the one
    still open, wherever that one is kept.
   */
  ghost predicate TokenOk(s: State, a: Address) {
    var trades := Entry(s.ledger, a);
    && (forall id :: id in s.requests && s.requests[id].InFlight() && s.requests[id].token == a ==> Owns(s, id))
    && For(s.closes, a) == Closes(trades.closed)
    && match trades.active
       case None => For(s.opens, a) == Opens(trades.closed)
       case Some(Open(t)) => For(s.opens, a) == Opens(trades.closed) + [t]
       case Some(PendingOpen) => For(s.opens, a) == Opens(trades.closed) && exists id :: OwnedBy(s, a, id)
       case Some(PendingClose) => exists id :: OwnedBy(s, a, id)
  }

  ghost predicate Invariant(s: State) {
    forall a: Address :: TokenOk(s, a)
  }

  const Initial := State(map[], map[], map[], map[])

  lemma InitialHolds()
    ensures Invariant(Initial)
  {
  }

  /** The token an event is about. */
  function TokenOf(s: State, e: Event): Address
    requires Enabled(s, e)
  {
    if e.Submit? then e.request.token else s.requests[e.id].token
  }

  /** An event touches nothing but its own request and its own token. */
  lemma StepFrame(s: State, e: Event)
    requires Enabled(s, e)
    ensures var t := Step(s, e);
            && (forall id :: id in s.requests && id != e.id ==> id in t.requests && t.requests[id] == s.requests[id])
            && (forall id :: id in t.requests && id != e.id ==> id in s.requests)
            && e.id in t.requests && t.requests[e.id].token == TokenOf(s, e)
  {
    hide SetActive, Close, OrSame, Confirm;
  }

  lemma TokenFrame(s: State, e: Event, a: Address)
    requires Enabled(s, e) && a != TokenOf(s, e)
    ensures var t := Step(s, e);
            && (a in t.ledger <==> a in s.ledger)
            && Entry(t.ledger, a) == Entry(s.ledger, a)
            && For(t.opens, a) == For(s.opens, a)
            && For(t.closes, a) == For(s.closes, a)
  {
  }

  lemma ElsewhereKept(s: State, e: Event, a: Address)
    requires Enabled(s, e) && TokenOk(s, a) && a != TokenOf(s, e)
    ensures TokenOk(Step(s, e), a)
  {
    hide Step;
    StepFrame(s, e);
    TokenFrame(s, e, a);
    var t := Step(s, e);
    forall id | id in s.requests && id != e.id && s.requests[id].token == a && Owns(s, id) ensures Owns(t, id) {
    }
    if id :| OwnedBy(s, a, id) {
      assert OwnedBy(t, a, id);
    }
  }

  // ---- the event's own token --------------------------------------------------------------

  lemma SubmitKept(s: State, e: Event)
    requires Enabled(s, e) && e.Submit? && TokenOk(s, TokenOf(s, e))
    ensures TokenOk(Step(s, e), TokenOf(s, e))
  {
    var t := Step(s, e);
    var a := TokenOf(s, e);
    if id :| OwnedBy(s, a, id) {
      assert OwnedBy(t, a, id);
    }
  }

  lemma AcquireKept(s: State, e: Event)
    requires Enabled(s, e) && e.Acquire? && TokenOk(s, TokenOf(s, e))
    ensures TokenOk(Step(s, e), TokenOf(s, e))
  {
    hide TokenOk;
    if Step(s, e).requests[e.id].InFlight() {
      TakenKept(s, e);
    } else {
      RefusedKept(s, e);
    }
  }

  lemma TakenKept(s: State, e: Event)
    requires Enabled(s, e) && e.Acquire? && TokenOk(s, TokenOf(s, e)) && Step(s, e).requests[e.id].InFlight()
    ensures TokenOk(Step(s, e), TokenOf(s, e))
  {
    hide Opens, Closes;
    assert forall id :: id in s.requests && s.requests[id].InFlight() ==> s.requests[id].token != TokenOf(s, e);
    assert OwnedBy(Step(s, e), TokenOf(s, e), e.id);
  }

  lemma RefusedKept(s: State, e: Event)
    requires Enabled(s, e) && e.Acquire? && TokenOk(s, TokenOf(s, e)) && !Step(s, e).requests[e.id].InFlight()
    ensures TokenOk(Step(s, e), TokenOf(s, e))
  {
    hide Opens, Closes;
    var t := Step(s, e);
    assert t.ledger == s.ledger;
    if id :| OwnedBy(s, TokenOf(s, e), id) {
      assert OwnedBy(t, TokenOf(s, e), id);
    }
  }

  /** A request that only moves on to its next stage still owns its token. */
  lemma AdvanceKept(s: State, e: Event)
    requires Enabled(s, e) && ((e.Traced? && e.ok) || (e.Sent? && e.ok)) && TokenOk(s, TokenOf(s, e))
    ensures TokenOk(Step(s, e), TokenOf(s, e))
  {
    var t := Step(s, e);
    assert Owns(s, e.id);
    assert OwnedBy(t, TokenOf(s, e), e.id);
  }

  lemma RevertKept(s: State, id: nat)
    requires id in s.requests && s.requests[id].InFlight() && TokenOk(s, s.requests[id].token)
    ensures TokenOk(Revert(s, id), s.requests[id].token)
  {
    assert Owns(s, id);
  }

  lemma ConfirmKept(s: State, e: Event)
    requires Enabled(s, e) && e.Confirmed? && e.result.Some? && TokenOk(s, TokenOf(s, e))
    ensures TokenOk(Step(s, e), TokenOf(s, e))
  {
    assert Owns(s, e.id);
    var r := s.requests[e.id];
    if r.kind.Closing? {
      var closed := Step(s, e).ledger[r.token].closed;
      assert Opens(closed) == Opens(s.ledger[r.token].closed) + [r.held];
      assert Closes(closed) == Closes(s.ledger[r.token].closed) + [e.result.value];
    }
  }

  lemma StepKeepsInvariant(s: State, e: Event)
    requires Invariant(s) && Enabled(s, e)
    ensures Invariant(Step(s, e))
  {
    hide TokenOk;
    forall a: Address ensures TokenOk(Step(s, e), a) {
      if a != TokenOf(s, e) {
        ElsewhereKept(s, e, a);
      } else {
        match e
        case Submit(_, _) => SubmitKept(s, e);
        case Acquire(_) => AcquireKept(s, e);
        case Traced(id, ok) => if ok { AdvanceKept(s, e); } else { RevertKept(s, id); }
        case Sent(id, ok) => if ok { AdvanceKept(s, e); } else { RevertKept(s, id); }
        case Confirmed(id, result) => if result.Some? { ConfirmKept(s, e); } else { RevertKept(s, id); }
      }
    }
  }

  // ---- runs -------------------------------------------------------------------------------

  /** The states of a run: one before each event and one after the last. */
  ghost predicate IsRun(states: seq<State>, events: seq<Event>) {
    && |states| == |events| + 1
    && states[0] == Initial
    && forall i :: 0 <= i < |events| ==> Enabled(states[i], events[i]) && states[i + 1] == Step(states[i], events[i])
  }

  lemma {:induction false} EveryRunKeepsInvariant(states: seq<State>, events: seq<Event>, i: nat)
    requires IsRun(states, events) && i < |states|
    ensures Invariant(states[i])
    decreases i
  {
    hide Step;
    hide Invariant;
    InitialHolds();
    if i > 0 {
      EveryRunKeepsInvariant(states, events, i - 1);
      StepKeepsInvariant(states[i - 1], events[i - 1]);
    }
  }

  /** The one open trade of a token that is not closed, and where it is kept. */
  ghost predicate Outstanding(s: State, a: Address, t: TradeMetadata) {
    || Entry(s.ledger, a).active == Some(Open(t))
    || (Entry(s.ledger, a).active == Some(PendingClose)
        && exists id :: OwnedBy(s, a, id) && s.requests[id].kind.Closing? && s.requests[id].held == t)
  }

  /**
    No position is lost, duplicated or closed twice: at every point of every run a token's closed
    trades pair its confirmed opens and closes in order, and at most one further open was confirmed,
    which is still open or held by the closing request in flight.
   */
  lemma PositionsAreConserved(states: seq<State>, events: seq<Event>, i: nat, a: Address)
    requires IsRun(states, events) && i < |states|
    ensures var s := states[i];
            var closed := Entry(s.ledger, a).closed;
            && For(s.closes, a) == Closes(closed)
            && (|| For(s.opens, a) == Opens(closed)
                || exists t :: For(s.opens, a) == Opens(closed) + [t] && Outstanding(s, a, t))
  {
    hide Step;
    EveryRunKeepsInvariant(states, events, i);
    var s := states[i];
    assert TokenOk(s, a);
    match Entry(s.ledger, a).active
    case Some(Open(t)) => assert Outstanding(s, a, t);
    case Some(PendingClose) =>
      var id :| OwnedBy(s, a, id);
      assert Outstanding(s, a, s.requests[id].held);
    case _ =>
  }

  ghost predicate FlightOn(s: State, id: nat, a: Address) {
    id in s.requests && s.requests[id].InFlight() && s.requests[id].token == a
  }

  /** A token is pending exactly when a request in flight is about it, and then only one is. */
  lemma PendingIffOneInFlight(states: seq<State>, events: seq<Event>, i: nat, a: Address)
    requires IsRun(states, events) && i < |states|
    ensures var s := states[i];
            var active := Entry(s.ledger, a).active;
            && (active == Some(PendingOpen) || active == Some(PendingClose) <==>
                  exists id :: FlightOn(s, id, a))
            && forall x, y :: FlightOn(s, x, a) && FlightOn(s, y, a) ==> x == y
  {
    hide Step;
    EveryRunKeepsInvariant(states, events, i);
    var s := states[i];
    assert TokenOk(s, a);
    if id :| OwnedBy(s, a, id) {
      assert FlightOn(s, id, a);
    }
  }

  // ---- failed requests --------------------------------------------------------------------

  /** The request owns its token, whose trades were `before` when it took it. */
  ghost predicate TookFrom(s: State, id: nat, before: AddressTrades) {
    && Owns(s, id)
    && s.requests[id].Before() == before.active
    && s.ledger[s.requests[id].token] == before.(active := Some(s.requests[id].Pending()))
  }

  /** While a request is in flight nobody else changes its token's trades. */
  lemma OwnedTokenIsLeftAlone(s: State, e: Event, id: nat, before: AddressTrades)
    requires Invariant(s) && Enabled(s, e) && TookFrom(s, id, before)
    requires id in Step(s, e).requests && Step(s, e).requests[id].InFlight()
    ensures Step(s, e).requests[id].token == s.requests[id].token
    ensures TookFrom(Step(s, e), id, before)
  {
    hide Opens, Closes;
    var a := s.requests[id].token;
    StepKeepsInvariant(s, e);
    assert TokenOk(s, a) && TokenOk(Step(s, e), Step(s, e).requests[id].token);
    if e.id != id {
      StepFrame(s, e);
      if TokenOf(s, e) != a {
        TokenFrame(s, e, a);
      } else {
        NotOwnerChangesNothing(s, e, id);
      }
    }
  }

  /** A request about an owned token that does not own it cannot change the token's trades. */
  lemma NotOwnerChangesNothing(s: State, e: Event, id: nat)
    requires Enabled(s, e) && Owns(s, id) && e.id != id && TokenOf(s, e) == s.requests[id].token
    ensures Step(s, e).ledger == s.ledger
  {
  }

  /** The request takes its token in this step. */
  ghost predicate Takes(s: State, e: Event, id: nat) {
    Enabled(s, e) && e == Acquire(id) && Step(s, e).requests[id].InFlight()
  }

  lemma TakingRemembers(s: State, e: Event, id: nat)
    requires Invariant(s) && Takes(s, e, id)
    ensures TookFrom(Step(s, e), id, Entry(s.ledger, s.requests[id].token))
  {
    var a := s.requests[id].token;
    assert TokenOk(s, a);
    StepKeepsInvariant(s, e);
    assert TokenOk(Step(s, e), a);
  }

  /** From taking its token up to any later point at which it is in flight, a request's token is as it left it. */
  lemma {:induction false} InFlightKeeps(states: seq<State>, events: seq<Event>, i: nat, j: nat, id: nat)
    requires IsRun(states, events) && i < j < |states|
    requires Takes(states[i], events[i], id)
    requires forall k :: i < k <= j ==> id in states[k].requests && states[k].requests[id].InFlight()
    ensures states[j].requests[id].token == states[i].requests[id].token
    ensures TookFrom(states[j], id, Entry(states[i].ledger, states[i].requests[id].token))
    decreases j
  {
    hide Step;
    hide Invariant;
    EveryRunKeepsInvariant(states, events, i);
    if j == i + 1 {
      TakingRemembers(states[i], events[i], id);
      StepFrame(states[i], events[i]);
    } else {
      InFlightKeeps(states, events, i, j - 1, id);
      EveryRunKeepsInvariant(states, events, j - 1);
      assert states[j - 1 + 1] == Step(states[j - 1], events[j - 1]);
      OwnedTokenIsLeftAlone(states[j - 1], events[j - 1], id, Entry(states[i].ledger, states[i].requests[id].token));
    }
  }

  /**
    A failed request leaves no trace: whichever of its steps fails, under any interleaving, its
    token's trades are then what they were when it took the token.
   */
  lemma FailedRequestLeavesNoTrace(states: seq<State>, events: seq<Event>, i: nat, j: nat, id: nat)
    requires IsRun(states, events) && i < j < |events|
    requires Takes(states[i], events[i], id)
    requires forall k :: i < k <= j ==> id in states[k].requests && states[k].requests[id].InFlight()
    requires id in states[j + 1].requests && states[j + 1].requests[id].stage == Ended(false)
    ensures var a := states[i].requests[id].token;
            Entry(states[j + 1].ledger, a) == Entry(states[i].ledger, a)
  {
    InFlightKeeps(states, events, i, j, id);
    EndingReverts(states[j], events[j], id, Entry(states[i].ledger, states[i].requests[id].token));
  }

  lemma EndingReverts(s: State, e: Event, id: nat, before: AddressTrades)
    requires Enabled(s, e) && TookFrom(s, id, before)
    requires id in Step(s, e).requests && Step(s, e).requests[id].stage == Ended(false)
    ensures var a := s.requests[id].token;
            a in Step(s, e).ledger && Step(s, e).ledger[a] == before
  {
    StepFrame(s, e);
  }

  // ---- successful requests ----------------------------------------------------------------

  /** The steps that take a request to its stage, each one successful, and when they happened. */
  ghost predicate Went(events: seq<Event>, i: nat, id: nat, at: seq<nat>)
    requires i <= |events|
  {
    && (forall k :: 0 <= k < |at| ==> at[k] < i)
    && (forall k, l :: 0 <= k < l < |at| ==> at[k] < at[l])
    && (|at| > 0 ==> events[at[0]] == Acquire(id))
    && (|at| > 1 ==> events[at[1]] == Traced(id, true))
    && (|at| > 2 ==> events[at[2]] == Sent(id, true))
    && (|at| > 3 ==> events[at[3]].Confirmed? && events[at[3]].id == id && events[at[3]].result.Some?)
  }

  /** How many successful steps a request has behind it; one that failed has none that count. */
  function StepsBehind(stage: Stage): nat {
    match stage
    case Submitted => 0
    case Tracing => 1
    case Sending => 2
    case Confirming => 3
    case Ended(ok) => if ok then 4 else 0
  }

  /** A step takes its request one stage on, or ends it without success. */
  lemma OneStageOn(s: State, e: Event)
    requires Enabled(s, e)
    ensures e.id in Step(s, e).requests
    ensures var after := Step(s, e).requests[e.id].stage;
            || (e.Submit? && after.Submitted?)
            || after == Ended(false)
            || (e.id in s.requests && StepsBehind(after) == StepsBehind(s.requests[e.id].stage) + 1
                && (match StepsBehind(after)
                    case 1 => e == Acquire(e.id)
                    case 2 => e == Traced(e.id, true)
                    case 3 => e == Sent(e.id, true)
                    case _ => e.Confirmed? && e.result.Some?))
  {
    hide SetActive, Close, BeginOpen, BeginClose;
  }

  /**
    A request succeeds only by being acquired, traced, sent and confirmed, each successfully and in
    this order: `at` says when.
   */
  lemma {:induction false} SuccessTakesEveryStep(states: seq<State>, events: seq<Event>, i: nat, id: nat) returns (at: seq<nat>)
    requires IsRun(states, events) && i < |states| && id in states[i].requests
    ensures |at| == StepsBehind(states[i].requests[id].stage) && Went(events, i, id, at)
    ensures states[i].requests[id].stage == Ended(true) ==> |at| == 4
    decreases i
  {
    hide Step;
    at := [];
    if i > 0 {
      var s, e := states[i - 1], events[i - 1];
      assert states[i - 1 + 1] == Step(s, e);
      StepFrame(s, e);
      OneStageOn(s, e);
      if e.id != id {
        at := SuccessTakesEveryStep(states, events, i - 1, id);
      } else if StepsBehind(states[i].requests[id].stage) > 0 {
        at := SuccessTakesEveryStep(states, events, i - 1, id);
        at := at + [i - 1];
      }
    }
  }

  /** So does one that is refused its token, and that is when a trade is active, or none is open. */
  lemma RefusedRequestLeavesNoTrace(s: State, id: nat)
    requires Enabled(s, Acquire(id))
    ensures var t := Step(s, Acquire(id));
            var r := s.requests[id];
            var active := Entry(s.ledger, r.token).active;
            && (t.requests[id].stage == Ended(false) <==>
                  if r.kind.Opening? then active.Some? else active.None? || !active.value.Open?)
            && (t.requests[id].stage == Ended(false) ==> t.ledger == s.ledger)
  {
  }

  /** A request in flight always finds its token's entry: the missing-trade errors do not occur. */
  lemma MissingTradeIsUnreachable(states: seq<State>, events: seq<Event>, i: nat, id: nat, trade: Option<Trade>, committed: TradeMetadata)
    requires IsRun(states, events) && i < |states|
    requires id in states[i].requests && states[i].requests[id].InFlight()
    ensures var r := states[i].requests[id];
            && SetActive(states[i].ledger, r.token, trade).Ok?
            && Close(states[i].ledger, r.token, r.held, committed).Ok?
  {
    hide Step;
    EveryRunKeepsInvariant(states, events, i);
    assert TokenOk(states[i], states[i].requests[id].token);
  }
}
