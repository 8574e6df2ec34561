/**
  The single-flight pair cache: `get_pairs` over `AsyncValue`, with any number of concurrent calls.
  Multicalls succeed and no entry is evicted.
 */
module PairCache {
  import opened Wrappers
  import opened OrderedMaps

  type Address = nat

  type Pair = nat

  /** What a fetch of one address decodes to: a pair, or nothing. */
  type Decoded = Option<Pair>

  datatype Phase = Submitted | Running | Done

  /**
    One call. `owned` are the addresses it fetches itself, `known` those it read from the cache, and
    `inbox` its receivers: what each has been sent, if anything.
   */
  datatype Caller = Caller(
    phase: Phase, inputs: set<Address>, ticket: nat,
    owned: set<Address>, known: map<Address, Decoded>, inbox: map<Address, Option<Decoded>>,
    fetched: bool, result: map<Address, Pair>)

  /** Which call claimed an address, and when it took the lock to do so. */
  datatype Claim = Claim(id: nat, ticket: nat)

  /** An entry without a value is being fetched by the call that claimed it. */
  datatype State = State(cache: map<Address, Option<Decoded>>, owner: map<Address, Claim>, tickets: nat, callers: map<nat, Caller>)

  datatype Event =
    | Call(id: nat, inputs: set<Address>)
    | Lock(id: nat)
    | MulticallDone(id: nat)
    | Publish(id: nat, decoded: map<Address, Decoded>)

  const Initial := State(map[], map[], 0, map[])

  /** Every receiver of the call has been sent its value. */
  predicate AllReceived(c: Caller) {
    forall a :: a in c.inbox ==> c.inbox[a].Some?
  }

  predicate Enabled(s: State, e: Event) {
    match e
    case Call(id, _) => id !in s.callers
    case Lock(id) => id in s.callers && s.callers[id].phase.Submitted?
    case MulticallDone(id) => id in s.callers && s.callers[id].phase.Running? && !s.callers[id].fetched
    case Publish(id, decoded) =>
      && id in s.callers && s.callers[id].phase.Running? && s.callers[id].fetched
      && AllReceived(s.callers[id]) && decoded.Keys == s.callers[id].owned
  }

  /** Under the lock: read, subscribe to, or claim each address. */
  function Locked(s: State, id: nat): Caller
    requires id in s.callers
  {
    var c := s.callers[id];
    c.(phase := Running, ticket := s.tickets,
       owned := (set a | a in c.inputs && a !in s.cache),
       known := (map a | a in c.inputs && a in s.cache && s.cache[a].Some? :: s.cache[a].value),
       inbox := (map a | a in c.inputs && a in s.cache && s.cache[a].None? :: None),
       fetched := false)
  }

  /** A broadcast reaches every receiver that has not been sent a value. */
  function Notified(c: Caller, decoded: map<Address, Decoded>): Caller {
    c.(inbox := map a | a in c.inbox :: if a in decoded && c.inbox[a].None? then Some(decoded[a]) else c.inbox[a])
  }

  /** What the call returns: the pairs among everything fetched, known and received. */
  function ResultOf(c: Caller, decoded: map<Address, Decoded>): map<Address, Pair> {
    var all := decoded + c.known + map a | a in c.inbox && c.inbox[a].Some? :: c.inbox[a].value;
    map a | a in all && all[a].Some? :: all[a].value
  }

  function Step(s: State, e: Event): State
    requires Enabled(s, e)
  {
    match e
    case Call(id, inputs) =>
      s.(callers := s.callers[id := Caller(Submitted, inputs, 0, {}, map[], map[], false, map[])])
    case Lock(id) =>
      var c := Locked(s, id);
      State(s.cache + map a | a in c.owned :: None, s.owner + map a | a in c.owned :: Claim(id, s.tickets), s.tickets + 1, s.callers[id := c])
    case MulticallDone(id) => s.(callers := s.callers[id := s.callers[id].(fetched := true)])
    case Publish(id, decoded) =>
      var done := s.callers[id].(phase := Done, result := ResultOf(s.callers[id], decoded));
      s.(cache := s.cache + map a | a in decoded :: Some(decoded[a]),
         callers := (map x | x in s.callers :: Notified(s.callers[x], decoded))[id := done])
  }

  // ---- the invariant ----------------------------------------------------------------------

  /** The entry of an address has a value exactly when its fetching call is done. */
  ghost predicate EntryOk(s: State, a: Address)
    requires a in s.cache
  {
    && a in s.owner && s.owner[a].id in s.callers
    && var c := s.callers[s.owner[a].id];
       && a in c.owned && !c.phase.Submitted? && c.ticket == s.owner[a].ticket
       && (s.cache[a].Some? <==> c.phase.Done?)
  }

  /** What the call has from the cache is what the cache holds, or is waited for from an earlier call. */
  ghost predicate ViewOk(s: State, id: nat, c: Caller) {
    && c.ticket < s.tickets
    && c.inputs == c.owned + c.known.Keys + c.inbox.Keys
    && (forall a :: a in c.owned ==> a in s.cache && a in s.owner && s.owner[a] == Claim(id, c.ticket))
    && (forall a :: a in c.known ==> a in s.cache && s.cache[a] == Some(c.known[a]))
    && (forall a :: a in c.inbox ==>
          a in s.cache && a in s.owner && s.owner[a].ticket < c.ticket && c.inbox[a] == s.cache[a])
  }

  /** The result is the pairs the cache holds for the inputs. */
  ghost predicate ResultOk(s: State, c: Caller) {
    && (forall a :: a in c.inputs ==> a in s.cache && s.cache[a].Some?)
    && (forall a :: a in c.result <==> a in c.inputs && a in s.cache && s.cache[a].Some? && s.cache[a].value.Some?)
    && (forall a :: a in c.result ==> s.cache[a] == Some(Some(c.result[a])))
  }

  ghost predicate CallerOk(s: State, id: nat, c: Caller) {
    && (if c.phase.Submitted? then c.owned == {} else ViewOk(s, id, c))
    && (c.phase.Done? ==> ResultOk(s, c))
  }

  ghost predicate Invariant(s: State) {
    && s.owner.Keys == s.cache.Keys
    && (forall a :: a in s.cache ==> EntryOk(s, a))
    && (forall id :: id in s.callers ==> CallerOk(s, id, s.callers[id]))
  }

  lemma InitialHolds()
    ensures Invariant(Initial)
  {
  }

  lemma CallKeeps(s: State, e: Event)
    requires Invariant(s) && Enabled(s, e) && e.Call?
    ensures Invariant(Step(s, e))
  {
    hide EntryOk, ViewOk;
    var t := Step(s, e);
    forall id | id in t.callers ensures CallerOk(t, id, t.callers[id]) {
      if id != e.id { ViewCarries(s, t, id, s.callers[id]); }
    }
    forall a | a in t.cache ensures EntryOk(t, a) {
      OwnerIsCaller(s, a);
      EntryCarries(s, t, a);
    }
  }

  lemma OwnerIsCaller(s: State, a: Address)
    requires Invariant(s) && a in s.cache
    ensures EntryOk(s, a) && a in s.owner && s.owner[a].id in s.callers && !s.callers[s.owner[a].id].phase.Submitted?
  {
  }

  /** A call keeps its view when the cache only gains entries. */
  lemma ViewCarries(s: State, t: State, id: nat, c: Caller)
    requires CallerOk(s, id, c) && s.tickets <= t.tickets && s.owner.Keys == s.cache.Keys
    requires forall a :: a in s.cache ==> a in t.cache && t.cache[a] == s.cache[a]
    requires forall a :: a in s.owner ==> a in t.owner && t.owner[a] == s.owner[a]
    ensures CallerOk(t, id, c)
  {
  }

  lemma LockKeeps(s: State, e: Event)
    requires Invariant(s) && Enabled(s, e) && e.Lock?
    ensures Invariant(Step(s, e))
  {
    hide CallerOk, ViewOk, EntryOk;
    var t := Step(s, e);
    var c := Locked(s, e.id);
    forall a | a in s.cache ensures a in t.cache && t.cache[a] == s.cache[a] && a in t.owner && t.owner[a] == s.owner[a] && EntryOk(t, a) {
      OwnerIsCaller(s, a);
      EntryCarries(s, t, a);
    }
    forall a | a in t.cache && a !in s.cache ensures EntryOk(t, a) {
      ClaimIsOk(s, e.id, a);
    }
    forall id | id in t.callers && id != e.id ensures CallerOk(t, id, t.callers[id]) {
      ViewCarries(s, t, id, s.callers[id]);
    }
    LockedView(s, e.id);
    LockedCaller(t, e.id, c);
  }

  lemma LockedCaller(t: State, id: nat, c: Caller)
    requires ViewOk(t, id, c) && c.phase.Running?
    ensures CallerOk(t, id, c)
  {
  }

  lemma ClaimIsOk(s: State, id: nat, a: Address)
    requires Enabled(s, Lock(id)) && a in Locked(s, id).owned
    ensures a in Step(s, Lock(id)).cache && EntryOk(Step(s, Lock(id)), a)
  {
  }

  /** Every entry was claimed under a ticket already drawn. */
  lemma ClaimsAreOld(s: State, a: Address)
    requires Invariant(s) && a in s.cache
    ensures a in s.owner && s.owner[a].ticket < s.tickets
  {
    assert EntryOk(s, a);
    assert CallerOk(s, s.owner[a].id, s.callers[s.owner[a].id]);
  }

  lemma LockedView(s: State, id: nat)
    requires Invariant(s) && Enabled(s, Lock(id))
    ensures ViewOk(Step(s, Lock(id)), id, Locked(s, id))
  {
    hide Invariant;
    var t := Step(s, Lock(id));
    var c := Locked(s, id);
    forall a | a in s.cache ensures a in s.owner && s.owner[a].ticket < s.tickets {
      ClaimsAreOld(s, a);
    }
    LockedCovers(s, id);
  }

  lemma LockedCovers(s: State, id: nat)
    requires id in s.callers
    ensures var c := Locked(s, id); c.inputs == c.owned + c.known.Keys + c.inbox.Keys
  {
  }

  lemma MulticallDoneKeeps(s: State, e: Event)
    requires Invariant(s) && Enabled(s, e) && e.MulticallDone?
    ensures Invariant(Step(s, e))
  {
    hide CallerOk, EntryOk;
    var t := Step(s, e);
    forall id | id in t.callers ensures CallerOk(t, id, t.callers[id]) {
      assert CallerOk(s, id, s.callers[id]);
      FetchedCarries(s, t, id, s.callers[id], t.callers[id]);
    }
    forall a | a in t.cache ensures EntryOk(t, a) {
      EntryCarries(s, t, a);
    }
  }

  lemma FetchedCarries(s: State, t: State, id: nat, c: Caller, d: Caller)
    requires CallerOk(s, id, c) && t.cache == s.cache && t.owner == s.owner && t.tickets == s.tickets
    requires d == c.(fetched := d.fetched)
    ensures CallerOk(t, id, d)
  {
  }

  /** An entry is sound as long as its fetching call keeps what it claimed and is as far as it was. */
  lemma EntryCarries(s: State, t: State, a: Address)
    requires a in s.cache && EntryOk(s, a)
    requires a in t.cache && t.cache[a] == s.cache[a] && a in t.owner && t.owner[a] == s.owner[a]
    requires var id := s.owner[a].id;
             id in s.callers ==>
               && id in t.callers && t.callers[id].owned == s.callers[id].owned
               && t.callers[id].phase == s.callers[id].phase && t.callers[id].ticket == s.callers[id].ticket
    ensures EntryOk(t, a)
  {
  }

  /** The addresses a publishing call sets are exactly the unset ones it claimed. */
  lemma PublishedEntries(s: State, e: Event)
    requires Invariant(s) && Enabled(s, e) && e.Publish?
    ensures e.decoded.Keys <= s.cache.Keys
    ensures forall a :: a in s.cache ==> a in s.owner && (a in e.decoded <==> s.owner[a].id == e.id)
    ensures forall a :: a in e.decoded ==> s.cache[a].None?
  {
    assert CallerOk(s, e.id, s.callers[e.id]);
    forall a | a in s.cache ensures a in s.owner && (a in e.decoded <==> s.owner[a].id == e.id) && (a in e.decoded ==> s.cache[a].None?) {
      assert EntryOk(s, a);
    }
  }

  /** The cache after some unset entries were given values. */
  ghost predicate Publishes(s: State, t: State, decoded: map<Address, Decoded>) {
    && t.owner == s.owner && t.tickets == s.tickets && t.cache.Keys == s.cache.Keys
    && (forall a :: a in decoded ==> a in s.cache && s.cache[a].None?)
    && forall a :: a in s.cache ==> t.cache[a] == if a in decoded then Some(decoded[a]) else s.cache[a]
  }

  lemma StepPublishes(s: State, e: Event)
    requires Enabled(s, e) && e.Publish?
    requires e.decoded.Keys <= s.cache.Keys && forall a :: a in e.decoded ==> s.cache[a].None?
    ensures Publishes(s, Step(s, e), e.decoded)
  {
    hide Notified, ResultOf, AllReceived;
    assert Step(s, e).cache.Keys == s.cache.Keys;
  }

  lemma PublishedEntry(s: State, e: Event, a: Address)
    requires Enabled(s, e) && e.Publish?
    requires Publishes(s, Step(s, e), e.decoded) && a in s.cache && EntryOk(s, a)
    requires a in e.decoded <==> s.owner[a].id == e.id
    ensures EntryOk(Step(s, e), a)
  {
    hide ResultOf, AllReceived;
  }

  /** A call that goes on is told exactly what the cache is told. */
  lemma NotifiedView(s: State, t: State, decoded: map<Address, Decoded>, id: nat, c: Caller)
    requires Publishes(s, t, decoded) && CallerOk(s, id, c)
    ensures CallerOk(t, id, Notified(c, decoded))
  {
    hide ViewOk, ResultOk;
    if !c.phase.Submitted? { ViewIsTold(s, t, decoded, id, c); }
    if c.phase.Done? { ResultStays(s, t, decoded, c); }
  }

  lemma ViewIsTold(s: State, t: State, decoded: map<Address, Decoded>, id: nat, c: Caller)
    requires Publishes(s, t, decoded) && ViewOk(s, id, c)
    ensures ViewOk(t, id, Notified(c, decoded))
  {
    assert Notified(c, decoded).inbox.Keys == c.inbox.Keys;
  }

  lemma ResultStays(s: State, t: State, decoded: map<Address, Decoded>, c: Caller)
    requires Publishes(s, t, decoded) && ResultOk(s, c)
    ensures ResultOk(t, Notified(c, decoded))
  {
  }

  lemma PublishedResult(s: State, t: State, decoded: map<Address, Decoded>, id: nat, c: Caller)
    requires Publishes(s, t, decoded) && CallerOk(s, id, c) && c.phase.Running?
    requires AllReceived(c) && decoded.Keys == c.owned
    ensures CallerOk(t, id, c.(phase := Done, result := ResultOf(c, decoded)))
  {
    hide ResultOf;
    PublisherView(s, t, decoded, id, c, ResultOf(c, decoded));
    PublisherResult(s, t, decoded, id, c);
  }

  lemma PublisherView(s: State, t: State, decoded: map<Address, Decoded>, id: nat, c: Caller, result: map<Address, Pair>)
    requires Publishes(s, t, decoded) && ViewOk(s, id, c) && AllReceived(c)
    ensures ViewOk(t, id, c.(phase := Done, result := result))
  {
  }

  lemma PublisherResult(s: State, t: State, decoded: map<Address, Decoded>, id: nat, c: Caller)
    requires Publishes(s, t, decoded) && ViewOk(s, id, c) && AllReceived(c) && decoded.Keys == c.owned
    ensures ResultOk(t, c.(phase := Done, result := ResultOf(c, decoded)))
  {
    var result := ResultOf(c, decoded);
    forall a | a in c.inputs
      ensures a in t.cache && t.cache[a].Some?
      ensures a in result <==> t.cache[a].value.Some?
      ensures a in result ==> t.cache[a] == Some(Some(result[a]))
    {
      assert a in c.owned || a in c.known || a in c.inbox;
    }
    assert forall a :: a in result ==> a in c.inputs;
  }

  lemma PublishKeeps(s: State, e: Event)
    requires Invariant(s) && Enabled(s, e) && e.Publish?
    ensures Invariant(Step(s, e))
  {
    hide CallerOk, Publishes, Notified, ResultOf, AllReceived, EntryOk;
    var t := Step(s, e);
    PublishedEntries(s, e);
    StepPublishes(s, e);
    assert t.owner == s.owner && t.cache.Keys == s.cache.Keys;
    forall a | a in t.cache ensures EntryOk(t, a) {
      PublishedEntry(s, e, a);
    }
    forall id | id in t.callers ensures CallerOk(t, id, t.callers[id]) {
      assert CallerOk(s, id, s.callers[id]);
      if id == e.id {
        PublishedResult(s, t, e.decoded, id, s.callers[id]);
      } else {
        NotifiedView(s, t, e.decoded, id, s.callers[id]);
      }
    }
  }

  lemma StepKeepsInvariant(s: State, e: Event)
    requires Invariant(s) && Enabled(s, e)
    ensures Invariant(Step(s, e))
  {
    hide Invariant;
    hide Step;
    match e
    case Call(_, _) => CallKeeps(s, e);
    case Lock(_) => LockKeeps(s, e);
    case MulticallDone(_) => MulticallDoneKeeps(s, e);
    case Publish(_, _) => PublishKeeps(s, e);
  }

  // ---- runs -------------------------------------------------------------------------------

  ghost predicate IsRun(states: seq<State>, events: seq<Event>) {
    && |states| == |events| + 1
    && states[0] == Initial
    && forall i :: 0 <= i < |events| ==> Enabled(states[i], events[i]) && states[i + 1] == Step(states[i], events[i])
  }

  lemma {:induction false} EveryRunKeepsInvariant(states: seq<State>, events: seq<Event>, i: nat)
    requires IsRun(states, events) && i < |states|
    ensures Invariant(states[i])
    decreases i
  {
    hide Step;
    hide Invariant;
    InitialHolds();
    if i > 0 {
      EveryRunKeepsInvariant(states, events, i - 1);
      assert states[i - 1 + 1] == Step(states[i - 1], events[i - 1]);
      StepKeepsInvariant(states[i - 1], events[i - 1]);
    }
  }

  /** The call still waits for this address. */
  ghost predicate WaitsFor(s: State, id: nat, a: Address) {
    id in s.callers && s.callers[id].phase.Running? && a in s.callers[id].inbox && s.callers[id].inbox[a].None?
  }

  /**
    A call waits only for calls that took the lock before it, so no cycle of waiting can form; and
    the call it waits for is still running, so no wake-up was lost.
   */
  lemma WaitsOnlyForEarlierRunning(states: seq<State>, events: seq<Event>, i: nat, id: nat, a: Address)
    requires IsRun(states, events) && i < |states| && WaitsFor(states[i], id, a)
    ensures var s := states[i];
            && a in s.owner && s.owner[a].id in s.callers
            && var other := s.callers[s.owner[a].id];
               other.phase.Running? && a in other.owned && other.ticket < s.callers[id].ticket
  {
    hide Step;
    EveryRunKeepsInvariant(states, events, i);
    var s := states[i];
    assert CallerOk(s, id, s.callers[id]);
    assert EntryOk(s, a);
  }

  lemma EarliestRunning(s: State, id: nat) returns (first: nat)
    requires id in s.callers && s.callers[id].phase.Running?
    ensures first in s.callers && s.callers[first].phase.Running?
    ensures forall x :: x in s.callers && s.callers[x].phase.Running? ==> s.callers[first].ticket <= s.callers[x].ticket
  {
    var tickets := set x | x in s.callers && s.callers[x].phase.Running? :: s.callers[x].ticket;
    assert s.callers[id].ticket in tickets;
    var earliest := Min(tickets);
    first :| first in s.callers && s.callers[first].phase.Running? && s.callers[first].ticket == earliest;
    forall x | x in s.callers && s.callers[x].phase.Running? ensures earliest <= s.callers[x].ticket {
      assert s.callers[x].ticket in tickets;
    }
  }

  /** While any call is running, one of the running calls can take its next step: there is no deadlock. */
  lemma NoDeadlock(states: seq<State>, events: seq<Event>, i: nat, id: nat)
    requires IsRun(states, events) && i < |states| && id in states[i].callers && states[i].callers[id].phase.Running?
    ensures exists e :: Enabled(states[i], e) && (e.MulticallDone? || e.Publish?)
  {
    hide Step;
    hide Invariant;
    var s := states[i];
    var first := EarliestRunning(s, id);
    var c := s.callers[first];
    if !c.fetched {
      assert Enabled(s, MulticallDone(first));
    } else {
      forall a | a in c.inbox ensures c.inbox[a].Some? {
        if c.inbox[a].None? {
          WaitsOnlyForEarlierRunning(states, events, i, first, a);
        }
      }
      var decoded: map<Address, Decoded> := map a | a in c.owned :: None;
      assert Enabled(s, Publish(first, decoded));
    }
  }

  // ---- every call returns -----------------------------------------------------------------

  /** How many steps a call has left. */
  function StepsLeft(c: Caller): nat {
    match c.phase
    case Submitted => 3
    case Running => if c.fetched then 1 else 2
    case Done => 0
  }

  function StepsOf(callers: map<nat, Caller>): (r: map<nat, nat>)
    ensures r.Keys == callers.Keys && forall id :: id in r ==> r[id] == StepsLeft(callers[id])
  {
    map id | id in callers :: StepsLeft(callers[id])
  }

  function Total(m: map<nat, nat>): nat
    decreases m.Keys
  {
    if m.Keys == {} then 0
    else
      var k := MaxKey(m);
      Total(m - {k}) + m[k]
  }

  /** One entry can be taken out of the sum. */
  lemma {:induction false} TotalWithout(m: map<nat, nat>, k: nat)
    requires k in m
    ensures Total(m) == Total(m - {k}) + m[k]
    decreases m.Keys
  {
    assert k in m.Keys;
    var top := MaxKey(m);
    if k != top {
      TotalWithout(m - {top}, k);
      var rest := m - {k};
      assert top in rest.Keys;
      assert MaxKey(rest) == top;
      assert m - {top} - {k} == rest - {top};
    }
  }

  lemma TotalUpdated(m: map<nat, nat>, k: nat, v: nat)
    ensures Total(m[k := v]) == Total(m - {k}) + v
    ensures k !in m ==> m - {k} == m
    ensures k in m ==> Total(m) == Total(m - {k}) + m[k]
  {
    TotalWithout(m[k := v], k);
    assert m[k := v] - {k} == m - {k};
    if k in m { TotalWithout(m, k); }
  }

  /** What all calls submitted so far have left. */
  function Left(s: State): nat {
    Total(StepsOf(s.callers))
  }

  /** A call adds three steps, and every other event takes one. */
  lemma EveryStepCounts(s: State, e: Event)
    requires Enabled(s, e)
    ensures Left(Step(s, e)) == if e.Call? then Left(s) + 3 else Left(s) - 1
  {
    hide Step, Total;
    OneCallMoves(s, e);
    TotalUpdated(StepsOf(s.callers), e.id, StepsOf(Step(s, e).callers)[e.id]);
  }

  lemma OneCallMoves(s: State, e: Event)
    requires Enabled(s, e)
    ensures var t := Step(s, e);
            && e.id in t.callers
            && StepsOf(t.callers) == StepsOf(s.callers)[e.id := StepsLeft(t.callers[e.id])]
            && (e.Call? ==> e.id !in s.callers && StepsLeft(t.callers[e.id]) == 3)
            && (!e.Call? ==> e.id in s.callers && StepsLeft(t.callers[e.id]) == StepsLeft(s.callers[e.id]) - 1)
  {
    hide Step, StepsLeft;
    CallerTakesStep(s, e);
    forall id: nat | id != e.id
      ensures id in Step(s, e).callers <==> id in s.callers
      ensures id in s.callers ==> StepsLeft(Step(s, e).callers[id]) == StepsLeft(s.callers[id])
    {
      OtherCallStays(s, e, id);
    }
    assert StepsOf(Step(s, e).callers).Keys == StepsOf(s.callers)[e.id := 0].Keys;
  }

  lemma CallerTakesStep(s: State, e: Event)
    requires Enabled(s, e)
    ensures e.id in Step(s, e).callers
    ensures e.Call? ==> e.id !in s.callers && StepsLeft(Step(s, e).callers[e.id]) == 3
    ensures !e.Call? ==> e.id in s.callers && StepsLeft(Step(s, e).callers[e.id]) == StepsLeft(s.callers[e.id]) - 1
  {
    hide ResultOf, AllReceived, Notified;
  }

  lemma OtherCallStays(s: State, e: Event, id: nat)
    requires Enabled(s, e) && id != e.id
    ensures id in Step(s, e).callers <==> id in s.callers
    ensures id in s.callers ==> StepsLeft(Step(s, e).callers[id]) == StepsLeft(s.callers[id])
  {
    hide ResultOf, AllReceived, Locked;
  }

  function Calls(events: seq<Event>): nat {
    if events == [] then 0 else Calls(events[..|events| - 1]) + if events[|events| - 1].Call? then 1 else 0
  }

  /** In every run, the steps taken and the steps left are three for each call. */
  lemma {:induction false} EveryRunCounts(states: seq<State>, events: seq<Event>, i: nat)
    requires IsRun(states, events) && i <= |events|
    ensures i - Calls(events[..i]) + Left(states[i]) == 3 * Calls(events[..i])
    decreases i
  {
    hide Step;
    hide Left;
    if i == 0 {
      NothingLeft();
    } else {
      EveryRunCounts(states, events, i - 1);
      assert states[i - 1 + 1] == Step(states[i - 1], events[i - 1]);
      assert events[..i][..i - 1] == events[..i - 1];
      EveryStepCounts(states[i - 1], events[i - 1]);
    }
  }

  lemma NothingLeft()
    ensures Left(Initial) == 0
  {
  }

  /** No call can take a step. */
  ghost predicate Quiet(s: State) {
    forall e :: Enabled(s, e) ==> e.Call?
  }

  /**
    No run takes more than four steps for each call, the call itself included, and one in which no call
    can take another step has every call returned.
   */
  lemma EveryCallReturns(states: seq<State>, events: seq<Event>)
    requires IsRun(states, events)
    ensures |events| <= 4 * Calls(events)
    ensures var s := states[|events|];
            Quiet(s) ==> forall id :: id in s.callers ==> s.callers[id].phase.Done?
  {
    hide Step;
    EveryRunCounts(states, events, |events|);
    assert events[..|events|] == events;
    var s := states[|events|];
    if Quiet(s) {
      forall id | id in s.callers ensures s.callers[id].phase.Done? {
        if s.callers[id].phase.Running? {
          NoDeadlock(states, events, |events|, id);
        }
        assert s.callers[id].phase.Submitted? ==> Enabled(s, Lock(id));
      }
    }
  }

  /** Over the whole run each address is fetched by one call only. */
  lemma FetchedOnce(states: seq<State>, events: seq<Event>, i: nat, x: nat, y: nat, a: Address)
    requires IsRun(states, events) && i < |states|
    requires x in states[i].callers && y in states[i].callers
    requires a in states[i].callers[x].owned && a in states[i].callers[y].owned
    ensures x == y
  {
    hide Step;
    EveryRunKeepsInvariant(states, events, i);
    var s := states[i];
    assert CallerOk(s, x, s.callers[x]) && CallerOk(s, y, s.callers[y]);
  }

  /** A call that has returned stays as it is. */
  ghost predicate StillDone(c: Caller, d: Caller) {
    c.phase.Done? ==> d.phase.Done? && d.result == c.result && d.inputs == c.inputs
  }

  lemma StepForgetsNoCall(s: State, e: Event, id: nat)
    requires Enabled(s, e) && id in s.callers
    ensures id in Step(s, e).callers && StillDone(s.callers[id], Step(s, e).callers[id])
  {
  }

  lemma {:induction false} RunForgetsNoCall(states: seq<State>, events: seq<Event>, i: nat, j: nat, id: nat)
    requires IsRun(states, events) && i <= j < |states| && id in states[i].callers
    ensures id in states[j].callers && StillDone(states[i].callers[id], states[j].callers[id])
    decreases j
  {
    hide Step;
    if i < j {
      RunForgetsNoCall(states, events, i, j - 1, id);
      assert states[j - 1 + 1] == Step(states[j - 1], events[j - 1]);
      StepForgetsNoCall(states[j - 1], events[j - 1], id);
    }
  }

  /** Two calls that have returned, at whatever times, agree on every address both asked for. */
  lemma AllCallersAgree(states: seq<State>, events: seq<Event>, i: nat, j: nat, x: nat, y: nat, a: Address)
    requires IsRun(states, events) && i <= j < |states|
    requires x in states[i].callers && states[i].callers[x].phase.Done? && a in states[i].callers[x].inputs
    requires y in states[j].callers && states[j].callers[y].phase.Done? && a in states[j].callers[y].inputs
    ensures a in states[i].callers[x].result <==> a in states[j].callers[y].result
    ensures a in states[i].callers[x].result ==> states[i].callers[x].result[a] == states[j].callers[y].result[a]
  {
    hide Step;
    RunForgetsNoCall(states, events, i, j, x);
    EveryRunKeepsInvariant(states, events, j);
    var s := states[j];
    assert CallerOk(s, x, s.callers[x]) && CallerOk(s, y, s.callers[y]);
  }

  /** A call returns pairs for its inputs only, and the one that fetched an address returns what it decoded. */
  lemma FetcherReturnsWhatItDecoded(states: seq<State>, events: seq<Event>, i: nat, a: Address)
    requires IsRun(states, events) && i < |events| && events[i].Publish? && a in events[i].decoded
    ensures var c := states[i + 1].callers[events[i].id];
            && c.phase.Done? && a in c.inputs
            && (a in c.result <==> events[i].decoded[a].Some?)
            && (a in c.result ==> c.result[a] == events[i].decoded[a].value)
            && c.result.Keys <= c.inputs
  {
    hide Invariant, Step;
    EveryRunKeepsInvariant(states, events, i);
    EveryRunKeepsInvariant(states, events, i + 1);
    PublishingReturns(states[i], events[i], a);
  }

  lemma PublishingReturns(s: State, e: Event, a: Address)
    requires Invariant(s) && Enabled(s, e) && e.Publish? && a in e.decoded && Invariant(Step(s, e))
    ensures var c := Step(s, e).callers[e.id];
            && c.phase.Done? && a in c.inputs
            && (a in c.result <==> e.decoded[a].Some?)
            && (a in c.result ==> c.result[a] == e.decoded[a].value)
            && c.result.Keys <= c.inputs
  {
    hide EntryOk, Notified, ResultOf, AllReceived;
    var t := Step(s, e);
    assert CallerOk(s, e.id, s.callers[e.id]);
    assert CallerOk(t, e.id, t.callers[e.id]);
    PublishedEntries(s, e);
    assert t.cache[a] == Some(e.decoded[a]);
  }

  // ---- the struct -------------------------------------------------------------------------

  /** `AsyncValue`: a value set once, and the receivers subscribed before it was. */
  class AsyncValue {
    var value: Option<Decoded>
    /** What each receiver has been sent. */
    var receivers: seq<Option<Decoded>>

    constructor ()
      ensures value == None && receivers == []
    {
      value, receivers := None, [];
    }

    /** The value if there is one, else the index of a new receiver. */
    method GetReceiverOrValue() returns (r: Result<Decoded, nat>)
      modifies this`receivers
      ensures old(value).Some? ==> r == Ok(old(value).value) && receivers == old(receivers)
      ensures old(value).None? ==> r == Err(|old(receivers)|) && receivers == old(receivers) + [None]
    {
      if value.Some? { return Ok(value.value); }
      receivers := receivers + [None];
      r := Err(|receivers| - 1);
    }

    /** Every receiver subscribed so far is sent the value; none is skipped. */
    method Set(v: Decoded)
      modifies this
      ensures value == Some(v)
      ensures |receivers| == |old(receivers)|
      ensures forall i :: 0 <= i < |receivers| ==> receivers[i] == if old(receivers)[i].None? then Some(v) else old(receivers)[i]
    {
      value := Some(v);
      for i := 0 to |receivers|
        invariant value == Some(v) && |receivers| == |old(receivers)|
        invariant forall j :: 0 <= j < |receivers| ==>
                    receivers[j] == if j < i && old(receivers)[j].None? then Some(v) else old(receivers)[j]
      {
        if receivers[i].None? {
          receivers := receivers[i := Some(v)];
        }
      }
    }
  }
}

/** The loop of `get_pairs` under the cache lock. */
module GetPairs {
  import opened Wrappers
  import opened Regrouping
  import C = PairCache

  /**
    Each address is looked up once, however often it is asked for. Those not in the cache are claimed
    and their calls collected; those in it are known or waited for, as `PairCache.Locked` says.
   */
  method Classify(inputs: seq<PairInput>, cache: map<Address, Option<C.Decoded>>)
    returns (known: map<Address, C.Decoded>, waiting: set<Address>, toFetch: seq<PairInput>, targets: seq<Address>)
    ensures known == map a | a in Addresses(inputs) && a in cache && cache[a].Some? :: cache[a].value
    ensures waiting == set a | a in Addresses(inputs) && a in cache && cache[a].None?
    ensures Addresses(toFetch) == set a | a in Addresses(inputs) && a !in cache
    ensures Distinct(toFetch) && targets == Targets(toFetch)
  {
    hide Addresses, Distinct, Targets;
    known, waiting, toFetch, targets := map[], {}, [], [];
    NothingYet(inputs[..0]);
    for i := 0 to |inputs|
      invariant forall a :: a in known <==> a in Addresses(inputs[..i]) && a in cache && cache[a].Some?
      invariant forall a :: a in known ==> known[a] == cache[a].value
      invariant forall a :: a in waiting <==> a in Addresses(inputs[..i]) && a in cache && cache[a].None?
      invariant forall a :: a in Addresses(toFetch) <==> a in Addresses(inputs[..i]) && a !in cache
      invariant Distinct(toFetch) && targets == Targets(toFetch)
    {
      var a := inputs[i].address;
      AddressesSnoc(inputs[..i], inputs[i]);
      assert inputs[..i + 1] == inputs[..i] + [inputs[i]];
      if a in known || a in waiting || a in Addresses(toFetch) {
        continue;
      }
      if a in cache {
        if cache[a].Some? {
          known := known[a := cache[a].value];
        } else {
          waiting := waiting + {a};
        }
      } else {
        OneMoreToFetch(toFetch, inputs[i]);
        targets := targets + inputs[i].Calls();
        toFetch := toFetch + [inputs[i]];
      }
    }
    assert inputs[..|inputs|] == inputs;
  }

  lemma NothingYet(inputs: seq<PairInput>)
    requires inputs == []
    ensures Addresses(inputs) == {} && Distinct(inputs) && Targets(inputs) == []
  {
  }

  lemma OneMoreToFetch(toFetch: seq<PairInput>, input: PairInput)
    requires Distinct(toFetch) && input.address !in Addresses(toFetch)
    ensures Distinct(toFetch + [input])
    ensures Targets(toFetch + [input]) == Targets(toFetch) + input.Calls()
    ensures Addresses(toFetch + [input]) == Addresses(toFetch) + {input.address}
  {
    AddressesSnoc(toFetch, input);
    assert (toFetch + [input])[..|toFetch|] == toFetch;
    forall i | 0 <= i < |toFetch| ensures toFetch[i].address != input.address {
      assert toFetch[i].address in Addresses(toFetch);
    }
  }

  lemma AddressesSnoc(inputs: seq<PairInput>, input: PairInput)
    ensures Addresses(inputs + [input]) == Addresses(inputs) + {input.address}
  {
    var all := inputs + [input];
    forall a: Address | a in Addresses(inputs) + {input.address} ensures a in Addresses(all) {
      if a in Addresses(inputs) {
        var i :| 0 <= i < |inputs| && inputs[i].address == a;
        assert all[i].address == a;
      } else {
        assert all[|inputs|].address == a;
      }
    }
  }

  /** What one receiver yields: a value, or nothing when its sender is gone. */
  datatype Arrival = Arrival(address: Address, value: Option<C.Decoded>)

  function PairsOf(m: map<Address, C.Decoded>): map<Address, C.Pair> {
    map a | a in m && m[a].Some? :: m[a].value
  }

  /** Every receiver yields what it was sent, once and in whatever order. */
  ghost predicate AreArrivals(arrivals: seq<Arrival>, inbox: map<Address, Option<C.Decoded>>) {
    && (forall i :: 0 <= i < |arrivals| ==> arrivals[i].address in inbox && inbox[arrivals[i].address] == arrivals[i].value)
    && forall a :: a in inbox ==> exists i :: 0 <= i < |arrivals| && arrivals[i].address == a
  }

  /** The arrivals before `n` that bring a pair are in the output, over the known pairs. */
  ghost predicate Resolved(output: map<Address, C.Pair>, known: map<Address, C.Decoded>, arrivals: seq<Arrival>, n: nat)
    requires n <= |arrivals|
  {
    && (forall i :: 0 <= i < n && arrivals[i].value.Some? && arrivals[i].value.value.Some? ==>
          arrivals[i].address in output && output[arrivals[i].address] == arrivals[i].value.value.value)
    && (forall a :: a in PairsOf(known) ==> a in output && output[a] == known[a].value)
    && forall a :: a in output ==>
         || a in PairsOf(known)
         || exists i :: 0 <= i < n && arrivals[i].address == a && arrivals[i].value.Some? && arrivals[i].value.value.Some?
  }

  /**
    `resolve_map`: fails exactly when a sender is gone. Otherwise, in whatever order the receivers
    resolve, the output is the pairs among the known values and the values sent.
   */
  method ResolveMap(known: map<Address, C.Decoded>, arrivals: seq<Arrival>, ghost inbox: map<Address, Option<C.Decoded>>)
    returns (r: Option<map<Address, C.Pair>>)
    requires AreArrivals(arrivals, inbox) && known.Keys !! inbox.Keys
    ensures r.None? <==> exists a :: a in inbox && inbox[a].None?
    ensures r.Some? ==> r.value == PairsOf(known + map a | a in inbox && inbox[a].Some? :: inbox[a].value)
  {
    var output: map<Address, C.Pair> := PairsOf(known);
    for i := 0 to |arrivals|
      invariant forall j :: 0 <= j < i ==> arrivals[j].value.Some?
      invariant Resolved(output, known, arrivals, i)
    {
      var arrival := arrivals[i];
      match arrival.value {
        case None => return None;
        case Some(None) =>
        case Some(Some(pair)) =>
          assert arrival.address !in known;
          output := output[arrival.address := pair];
      }
    }
    ResolvedIsPairs(output, known, arrivals, inbox);
    r := Some(output);
  }

  lemma ResolvedIsPairs(output: map<Address, C.Pair>, known: map<Address, C.Decoded>, arrivals: seq<Arrival>,
                        inbox: map<Address, Option<C.Decoded>>)
    requires AreArrivals(arrivals, inbox) && known.Keys !! inbox.Keys
    requires Resolved(output, known, arrivals, |arrivals|) && forall j :: 0 <= j < |arrivals| ==> arrivals[j].value.Some?
    ensures forall a :: a in inbox ==> inbox[a].Some?
    ensures output == PairsOf(known + map a | a in inbox && inbox[a].Some? :: inbox[a].value)
  {
    var all := known + map a | a in inbox && inbox[a].Some? :: inbox[a].value;
    forall a | a in inbox ensures inbox[a].Some? && (inbox[a].value.Some? ==> a in output && output[a] == inbox[a].value.value) {
      var i :| 0 <= i < |arrivals| && arrivals[i].address == a;
    }
    forall a | a in output ensures a in PairsOf(all) && output[a] == PairsOf(all)[a] {
      if a !in PairsOf(known) {
        var i :| 0 <= i < |arrivals| && arrivals[i].address == a && arrivals[i].value.Some? && arrivals[i].value.value.Some?;
      }
    }
    forall a | a in PairsOf(all) ensures a in output {
    }
  }

  /** The end of `get_pairs`: what was fetched and what was resolved, as `PairCache.ResultOf` says. */
  method FinishCall(c: C.Caller, decoded: map<Address, C.Decoded>, arrivals: seq<Arrival>) returns (result: map<Address, C.Pair>)
    requires C.AllReceived(c) && AreArrivals(arrivals, c.inbox) && decoded.Keys !! c.known.Keys !! c.inbox.Keys
    ensures result == C.ResultOf(c, decoded)
  {
    var resolved := ResolveMap(c.known, arrivals, c.inbox);
    result := PairsOf(decoded) + resolved.value;
  }
}
