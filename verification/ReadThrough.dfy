/** One fetch per key at a time in front of an expiring cache, as interleaved atomic steps (internal/cache/readthrough.go). */
module ReadThrough {
  import opened Common
  import opened Lru

  /** How a fetch ends: with a value, with an error, or in a panic the leader recovers. */
  datatype Outcome = Fetched(value: Value) | FetchError(error: string) | Panicked

  datatype Err = Failure(error: string) | PanicError

  /** Where a flight's leader stands: fetching, holding the result, published, retired, and closed to its waiters. */
  datatype Phase = Fetching | Holding(outcome: Outcome) | Published | Retired | Closed

  /** `val` and `err` are what waiters read once the flight is closed; `outcome` is how its fetch ended. */
  datatype Flight = Flight(key: Key, phase: Phase, outcome: Option<Outcome>, val: Value, err: Option<Err>)

  datatype Answer = Hit(value: Value) | FromFlight(val: Value, err: Option<Err>) | ContextError

  datatype Progress = Called | Missed | Waiting(flight: nat) | Done(answer: Answer, from: Option<nat>)

  datatype Caller = Caller(key: Key, progress: Progress)

  datatype Config = Config(ttl: int, maxEntries: nat)

  const ZERO: Value := 0

  /** Everything the read-through shares: the cache, the flights in progress by key, and every flight ever started. */
  datatype Shared = Shared(cache: Lru.State, flights: map<Key, nat>, table: seq<Flight>)

  /** `fetched` is specification state: every value a fetch of a key ever returned without error. */
  datatype World = World(clock: Time, shared: Shared, callers: seq<Caller>, fetched: set<(Key, Value)>)

  datatype Step =
    | Call(key: Key)
    | LookUp(caller: nat)
    | Join(caller: nat)
    | Receive(caller: nat)
    | GiveUp(caller: nat)
    | FetchReturns(flight: nat, outcome: Outcome)
    | Publish(flight: nat)
    | Retire(flight: nat)
    | Close(flight: nat)
    | Tick(elapsed: nat)
    // another user of the cache deletes or touches an entry
    | Delete(key: Key)
    | Touch(key: Key)

  // ---- The atomic steps on what is shared ----

  function JoinShared(s: Shared, key: Key): (Shared, nat) {
    if key in s.flights then (s, s.flights[key])
    else (s.(flights := s.flights[key := |s.table|],
             table := s.table + [Flight(key, Fetching, None, ZERO, None)]), |s.table|)
  }

  function HoldShared(s: Shared, f: nat, o: Outcome): Shared
    requires f < |s.table|
  {
    s.(table := s.table[f := s.table[f].(phase := Holding(o), outcome := Some(o))])
  }

  /** The cache is filled before the flight is retired. */
  function PublishShared(s: Shared, f: nat, now: Time, cfg: Config): Shared
    requires f < |s.table| && s.table[f].phase.Holding?
  {
    var fl := s.table[f];
    match fl.phase.outcome
    case Fetched(v) =>
      s.(cache := AfterSet(s.cache, fl.key, v, now, cfg.maxEntries),
         table := s.table[f := fl.(phase := Published, val := v, err := None)])
    case FetchError(e) => s.(table := s.table[f := fl.(phase := Published, err := Some(Failure(e)))])
    case Panicked => s.(table := s.table[f := fl.(phase := Published, err := Some(PanicError))])
  }

  function RetireShared(s: Shared, f: nat): Shared
    requires f < |s.table|
  {
    s.(flights := s.flights - {s.table[f].key}, table := s.table[f := s.table[f].(phase := Retired)])
  }

  function CloseShared(s: Shared, f: nat): Shared
    requires f < |s.table|
  {
    s.(table := s.table[f := s.table[f].(phase := Closed)])
  }

  ghost predicate Enabled(w: World, step: Step) {
    var s := w.shared;
    match step
    case Call(_) => true
    case LookUp(c) => c < |w.callers| && w.callers[c].progress.Called?
    case Join(c) => c < |w.callers| && w.callers[c].progress.Missed?
    case Receive(c) =>
      && c < |w.callers| && w.callers[c].progress.Waiting? && w.callers[c].progress.flight < |s.table|
      && s.table[w.callers[c].progress.flight].phase.Closed?
    case GiveUp(c) => c < |w.callers| && w.callers[c].progress.Waiting?
    case FetchReturns(f, _) => f < |s.table| && s.table[f].phase.Fetching?
    case Publish(f) => f < |s.table| && s.table[f].phase.Holding?
    case Retire(f) => f < |s.table| && s.table[f].phase.Published?
    case Close(f) => f < |s.table| && s.table[f].phase.Retired?
    case Tick(_) => true
    case Delete(_) => true
    case Touch(_) => true
  }

  function Advance(w: World, c: nat, p: Progress): World
    requires c < |w.callers|
  {
    w.(callers := w.callers[c := w.callers[c].(progress := p)])
  }

  function Next(w: World, step: Step, cfg: Config): World
    requires Enabled(w, step)
  {
    var s := w.shared;
    match step
    case Call(key) => w.(callers := w.callers + [Caller(key, Called)])
    case LookUp(c) =>
      var key := w.callers[c].key;
      var v := Lookup(s.cache, key, w.clock, cfg.ttl);
      Advance(w, c, if v.Some? then Done(Hit(v.value), None) else Missed)
      .(shared := s.(cache := AfterGet(s.cache, key, w.clock, cfg.ttl)))
    case Join(c) =>
      var (s', f) := JoinShared(s, w.callers[c].key);
      Advance(w, c, Waiting(f)).(shared := s')
    case Receive(c) =>
      var f := w.callers[c].progress.flight;
      Advance(w, c, Done(FromFlight(s.table[f].val, s.table[f].err), Some(f)))
    case GiveUp(c) => Advance(w, c, Done(ContextError, Some(w.callers[c].progress.flight)))
    case FetchReturns(f, o) =>
      w.(shared := HoldShared(s, f, o),
         fetched := if o.Fetched? then w.fetched + {(s.table[f].key, o.value)} else w.fetched)
    case Publish(f) => w.(shared := PublishShared(s, f, w.clock, cfg))
    case Retire(f) => w.(shared := RetireShared(s, f))
    case Close(f) => w.(shared := CloseShared(s, f))
    case Tick(d) => w.(clock := w.clock + d)
    case Delete(key) => w.(shared := s.(cache := AfterDelete(s.cache, key)))
    case Touch(key) => w.(shared := s.(cache := AfterGet(s.cache, key, w.clock, cfg.ttl)))
  }

  // ---- Invariants ----

  /** The leader is still to retire the flight. */
  predicate Live(p: Phase) {
    p.Fetching? || p.Holding? || p.Published?
  }

  /** The flights registered by key are exactly the live ones. */
  ghost predicate FlightsInv(s: Shared) {
    && (forall k :: k in s.flights ==>
          s.flights[k] < |s.table| && s.table[s.flights[k]].key == k && Live(s.table[s.flights[k]].phase))
    && (forall f :: 0 <= f < |s.table| && Live(s.table[f].phase) ==>
          s.table[f].key in s.flights && s.flights[s.table[f].key] == f)
  }

  /** What waiters of a flight are to read. */
  predicate Carries(fl: Flight, o: Outcome) {
    match o
    case Fetched(v) => fl.val == v && fl.err == None
    case FetchError(e) => fl.val == ZERO && fl.err == Some(Failure(e))
    case Panicked => fl.val == ZERO && fl.err == Some(PanicError)
  }

  ghost predicate FlightInv(fl: Flight, fetched: set<(Key, Value)>) {
    && (fl.phase.Fetching? <==> fl.outcome.None?)
    && (fl.phase.Fetching? || fl.phase.Holding? ==> fl.val == ZERO && fl.err == None)
    && (fl.phase.Holding? ==> fl.outcome == Some(fl.phase.outcome))
    && (fl.outcome.Some? && fl.outcome.value.Fetched? ==> (fl.key, fl.outcome.value.value) in fetched)
    && (fl.phase.Published? || fl.phase.Retired? || fl.phase.Closed? ==> Carries(fl, fl.outcome.value))
  }

  ghost predicate CallerInv(c: Caller, table: seq<Flight>, fetched: set<(Key, Value)>) {
    match c.progress
    case Called => true
    case Missed => true
    case Waiting(f) => f < |table| && table[f].key == c.key
    case Done(answer, from) =>
      && (from.Some? ==> from.value < |table| && table[from.value].key == c.key)
      && match answer
         case Hit(v) => (c.key, v) in fetched
         case FromFlight(v, err) =>
           && from.Some? && table[from.value].phase.Closed?
           && v == table[from.value].val && err == table[from.value].err
         case ContextError => from.Some?
  }

  ghost predicate CacheInv(cache: Lru.State, fetched: set<(Key, Value)>, cfg: Config) {
    && Agrees(cache, cfg.maxEntries)
    && forall k :: k in cache.entries ==> (k, cache.entries[k].value) in fetched
  }

  ghost predicate Inv(w: World, cfg: Config) {
    && cfg.maxEntries >= 1
    && FlightsInv(w.shared)
    && CacheInv(w.shared.cache, w.fetched, cfg)
    && (forall f :: 0 <= f < |w.shared.table| ==> FlightInv(w.shared.table[f], w.fetched))
    && (forall c :: 0 <= c < |w.callers| ==> CallerInv(w.callers[c], w.shared.table, w.fetched))
  }

  ghost predicate Initial(w: World) {
    w.shared == Shared(Lru.State([], map[]), map[], []) && w.callers == [] && w.fetched == {}
  }

  lemma InitialInv(w: World, cfg: Config)
    requires Initial(w) && cfg.maxEntries >= 1
    ensures Inv(w, cfg)
  {
  }

  lemma CacheStepKeepsInv(cache: Lru.State, key: Key, now: Time, fetched: set<(Key, Value)>, cfg: Config)
    requires CacheInv(cache, fetched, cfg) && cfg.maxEntries >= 1
    ensures CacheInv(AfterGet(cache, key, now, cfg.ttl), fetched, cfg)
    ensures CacheInv(AfterDelete(cache, key), fetched, cfg)
    ensures forall v :: (key, v) in fetched ==> CacheInv(AfterSet(cache, key, v, now, cfg.maxEntries), fetched, cfg)
  {
    GetKeepsAgreement(cache, key, now, cfg.ttl, cfg.maxEntries);
    DeleteKeepsAgreement(cache, key, cfg.maxEntries);
    forall v | (key, v) in fetched ensures CacheInv(AfterSet(cache, key, v, now, cfg.maxEntries), fetched, cfg) {
      SetKeepsAgreement(cache, key, v, now, cfg.maxEntries);
    }
  }

  /** A caller's invariant survives whatever a leader does to flights. */
  lemma CallersKeep(callers: seq<Caller>, table: seq<Flight>, table': seq<Flight>, fetched: set<(Key, Value)>,
                    fetched': set<(Key, Value)>)
    requires forall c :: 0 <= c < |callers| ==> CallerInv(callers[c], table, fetched)
    requires |table| <= |table'| && fetched <= fetched'
    requires forall f :: 0 <= f < |table| ==> table'[f].key == table[f].key
    requires forall f :: 0 <= f < |table| && table[f].phase.Closed? ==> table'[f] == table[f]
    ensures forall c :: 0 <= c < |callers| ==> CallerInv(callers[c], table', fetched')
  {
  }

  lemma JoinKeepsFlights(s: Shared, key: Key)
    requires FlightsInv(s)
    ensures var (s', f) := JoinShared(s, key);
            FlightsInv(s') && s'.cache == s.cache && f < |s'.table| && s'.table[f].key == key
    ensures var (s', f) := JoinShared(s, key);
            s'.table == s.table || s'.table == s.table + [Flight(key, Fetching, None, ZERO, None)]
  {
  }

  lemma JoinKeepsInv(w: World, step: Step, cfg: Config)
    requires Inv(w, cfg) && Enabled(w, step) && step.Join?
    ensures Inv(Next(w, step, cfg), cfg)
  {
    var key := w.callers[step.caller].key;
    var (s', f) := JoinShared(w.shared, key);
    JoinKeepsFlights(w.shared, key);
    CallersKeep(w.callers, w.shared.table, s'.table, w.fetched, w.fetched);
    assert Inv(w.(shared := s'), cfg);
    AdvanceKeepsInv(w.(shared := s'), step.caller, Waiting(f), s'.cache, cfg);
  }

  /** A caller's own progress, whatever it did to the cache. */
  lemma AdvanceKeepsInv(w: World, c: nat, p: Progress, cache: Lru.State, cfg: Config)
    requires Inv(w, cfg) && c < |w.callers|
    requires CallerInv(w.callers[c].(progress := p), w.shared.table, w.fetched)
    requires CacheInv(cache, w.fetched, cfg)
    ensures Inv(Advance(w, c, p).(shared := w.shared.(cache := cache)), cfg)
  {
  }

  lemma CallerStepKeepsInv(w: World, step: Step, cfg: Config)
    requires Inv(w, cfg) && Enabled(w, step)
    requires step.LookUp? || step.Join? || step.Receive? || step.GiveUp?
    ensures Inv(Next(w, step, cfg), cfg)
  {
    if step.Join? {
      JoinKeepsInv(w, step, cfg);
    } else {
      var c, s := step.caller, w.shared;
      var key := w.callers[c].key;
      assert CallerInv(w.callers[c], s.table, w.fetched);
      if step.LookUp? {
        CacheStepKeepsInv(s.cache, key, w.clock, w.fetched, cfg);
        var v := Lookup(s.cache, key, w.clock, cfg.ttl);
        AdvanceKeepsInv(w, c, if v.Some? then Done(Hit(v.value), None) else Missed, AfterGet(s.cache, key, w.clock, cfg.ttl), cfg);
      } else if step.Receive? {
        var f := w.callers[c].progress.flight;
        AdvanceKeepsInv(w, c, Done(FromFlight(s.table[f].val, s.table[f].err), Some(f)), s.cache, cfg);
      } else {
        AdvanceKeepsInv(w, c, Done(ContextError, Some(w.callers[c].progress.flight)), s.cache, cfg);
      }
    }
  }

  /** What any leader step does to one flight leaves the others, and so their registration and callers, alone. */
  ghost predicate OnlyFlight(s: Shared, s': Shared, f: nat) {
    && f < |s.table| == |s'.table| && s'.table[f].key == s.table[f].key
    && !s.table[f].phase.Closed?
    && forall g :: 0 <= g < |s.table| && g != f ==> s'.table[g] == s.table[g]
  }

  lemma LeaderKeepsInv(w: World, w': World, f: nat, cfg: Config)
    requires Inv(w, cfg) && OnlyFlight(w.shared, w'.shared, f)
    requires w'.callers == w.callers && w.fetched <= w'.fetched
    requires CacheInv(w'.shared.cache, w'.fetched, cfg)
    requires FlightInv(w'.shared.table[f], w'.fetched)
    requires FlightsInv(w'.shared)
    ensures Inv(w', cfg)
  {
    CallersKeep(w.callers, w.shared.table, w'.shared.table, w.fetched, w'.fetched);
  }

  lemma LeaderStepKeepsInv(w: World, step: Step, cfg: Config)
    requires Inv(w, cfg) && Enabled(w, step)
    requires step.FetchReturns? || step.Publish? || step.Retire? || step.Close?
    ensures Inv(Next(w, step, cfg), cfg)
  {
    var f := step.flight;
    var w' := Next(w, step, cfg);
    var fl := w.shared.table[f];
    assert FlightInv(fl, w.fetched);
    LeaderKeepsFlights(w, step, cfg);
    CacheStepKeepsInv(w.shared.cache, fl.key, w.clock, w.fetched, cfg);
    LeaderKeepsInv(w, w', f, cfg);
  }

  lemma LeaderKeepsFlights(w: World, step: Step, cfg: Config)
    requires Inv(w, cfg) && Enabled(w, step)
    requires step.FetchReturns? || step.Publish? || step.Retire? || step.Close?
    ensures OnlyFlight(w.shared, Next(w, step, cfg).shared, step.flight)
    ensures FlightsInv(Next(w, step, cfg).shared)
  {
    var s, s' := w.shared, Next(w, step, cfg).shared;
    if step.Retire? {
      RetireKeepsFlights(s, step.flight);
    } else {
      PhaseKeepsFlights(s, s', step.flight);
    }
  }

  lemma PhaseKeepsFlights(s: Shared, s': Shared, f: nat)
    requires FlightsInv(s) && OnlyFlight(s, s', f) && s'.flights == s.flights
    requires Live(s.table[f].phase) <==> Live(s'.table[f].phase)
    ensures FlightsInv(s')
  {
  }

  lemma RetireKeepsFlights(s: Shared, f: nat)
    requires FlightsInv(s) && f < |s.table| && Live(s.table[f].phase)
    ensures FlightsInv(RetireShared(s, f))
  {
  }

  /** Every step of every caller, leader and other user of the cache keeps the invariant. */
  lemma StepKeepsInv(w: World, step: Step, cfg: Config)
    requires Inv(w, cfg) && Enabled(w, step)
    ensures Inv(Next(w, step, cfg), cfg)
  {
    match step
    case Call(_) =>
    case LookUp(_) => CallerStepKeepsInv(w, step, cfg);
    case Join(_) => CallerStepKeepsInv(w, step, cfg);
    case Receive(_) => CallerStepKeepsInv(w, step, cfg);
    case GiveUp(_) => CallerStepKeepsInv(w, step, cfg);
    case FetchReturns(_, _) => LeaderStepKeepsInv(w, step, cfg);
    case Publish(_) => LeaderStepKeepsInv(w, step, cfg);
    case Retire(_) => LeaderStepKeepsInv(w, step, cfg);
    case Close(_) => LeaderStepKeepsInv(w, step, cfg);
    case Tick(_) =>
    case Delete(key) => CacheStepKeepsInv(w.shared.cache, key, w.clock, w.fetched, cfg);
    case Touch(key) => CacheStepKeepsInv(w.shared.cache, key, w.clock, w.fetched, cfg);
  }

  // ---- What holds in every reachable state ----

  type Run = seq<Step>

  /** `w'` is reached from `w` by `run`, every step enabled when it is taken. */
  ghost predicate Reaches(w: World, run: Run, w': World, cfg: Config)
    decreases |run|
  {
    if run == [] then w' == w
    else Enabled(w, run[0]) && Reaches(Next(w, run[0], cfg), run[1..], w', cfg)
  }

  lemma {:induction false} RunKeepsInv(w: World, run: Run, w': World, cfg: Config)
    requires Inv(w, cfg) && Reaches(w, run, w', cfg)
    ensures Inv(w', cfg)
    decreases |run|
  {
    if run != [] {
      StepKeepsInv(w, run[0], cfg);
      RunKeepsInv(Next(w, run[0], cfg), run[1..], w', cfg);
    }
  }

  /** At most one fetch of a key runs at a time. */
  lemma OneFetchPerKey(w: World, run: Run, w': World, cfg: Config, f: nat, g: nat)
    requires Initial(w) && cfg.maxEntries >= 1 && Reaches(w, run, w', cfg)
    requires f < |w'.shared.table| && g < |w'.shared.table| && f != g
    requires w'.shared.table[f].phase.Fetching? && w'.shared.table[g].phase.Fetching?
    ensures w'.shared.table[f].key != w'.shared.table[g].key
  {
    InitialInv(w, cfg);
    RunKeepsInv(w, run, w', cfg);
  }

  /** Whatever a caller was answered is its key's: a value once fetched for it, or its own flight's own result. */
  lemma AnswersAreTheKeys(w: World, run: Run, w': World, cfg: Config, c: nat)
    requires Initial(w) && cfg.maxEntries >= 1 && Reaches(w, run, w', cfg)
    requires c < |w'.callers| && w'.callers[c].progress.Done?
    ensures var Done(answer, from) := w'.callers[c].progress;
            && (answer.Hit? ==> (w'.callers[c].key, answer.value) in w'.fetched)
            && (answer.FromFlight? ==>
                  && from.Some? && from.value < |w'.shared.table|
                  && var fl := w'.shared.table[from.value];
                     && fl.key == w'.callers[c].key && fl.phase.Closed? && fl.outcome.Some?
                     && match fl.outcome.value
                        case Fetched(v) => answer.err == None && answer.val == v && (fl.key, v) in w'.fetched
                        case FetchError(e) => answer.err == Some(Failure(e))
                        case Panicked => answer.err == Some(PanicError))
  {
    InitialInv(w, cfg);
    RunKeepsInv(w, run, w', cfg);
    assert CallerInv(w'.callers[c], w'.shared.table, w'.fetched);
  }

  /** A cached value always came from a fetch of that key that did not fail. */
  lemma CachedWasFetched(w: World, run: Run, w': World, cfg: Config, key: Key)
    requires Initial(w) && cfg.maxEntries >= 1 && Reaches(w, run, w', cfg)
    requires key in w'.shared.cache.entries
    ensures (key, w'.shared.cache.entries[key].value) in w'.fetched
  {
    InitialInv(w, cfg);
    RunKeepsInv(w, run, w', cfg);
  }

  // ---- Flights end ----

  function Rank(p: Phase): nat {
    match p
    case Fetching => 0
    case Holding(_) => 1
    case Published => 2
    case Retired => 3
    case Closed => 4
  }

  /** The step a flight's leader takes next; how the fetch ends is not its choice. */
  function LeaderStep(p: Phase, f: nat, o: Outcome): Step
    requires !p.Closed?
  {
    match p
    case Fetching => FetchReturns(f, o)
    case Holding(_) => Publish(f)
    case Published => Retire(f)
    case Retired => Close(f)
  }

  /** No step of anyone sends a flight back or takes its leader's next step away. */
  lemma FlightsAdvance(w: World, step: Step, cfg: Config, f: nat)
    requires Enabled(w, step) && f < |w.shared.table|
    ensures f < |Next(w, step, cfg).shared.table|
    ensures Rank(Next(w, step, cfg).shared.table[f].phase) >= Rank(w.shared.table[f].phase)
  {
  }

  /**
   * A flight, its fetch failed or panicked included, is always one leader step closer to being closed, and is
   * registered for its key exactly until it is retired, so the next caller after that fetches anew.
   */
  lemma LeaderAlwaysAdvances(w: World, cfg: Config, f: nat, o: Outcome)
    requires Inv(w, cfg) && f < |w.shared.table| && !w.shared.table[f].phase.Closed?
    ensures var step := LeaderStep(w.shared.table[f].phase, f, o);
            && Enabled(w, step)
            && Rank(Next(w, step, cfg).shared.table[f].phase) == Rank(w.shared.table[f].phase) + 1
    ensures var key := w.shared.table[f].key;
            (key in w.shared.flights && w.shared.flights[key] == f) <==> Rank(w.shared.table[f].phase) <= 2
  {
  }

  // ---- When a fetch starts ----

  /** Joining starts a fetch exactly when no flight of the key is still to be retired. */
  lemma JoinStartsFetchExactly(w: World, cfg: Config, c: nat)
    requires Inv(w, cfg) && Enabled(w, Join(c))
    ensures |Next(w, Join(c), cfg).shared.table| > |w.shared.table| <==>
            forall f :: 0 <= f < |w.shared.table| && w.shared.table[f].key == w.callers[c].key ==>
              !Live(w.shared.table[f].phase)
  {
  }

  /** `key` is fresh in the cache in every state of the run. */
  ghost predicate StaysFresh(w: World, run: Run, key: Key, cfg: Config)
    decreases |run|
  {
    && Fresh(w.shared.cache, key, w.clock, cfg.ttl)
    && (run != [] ==> Enabled(w, run[0]) && StaysFresh(Next(w, run[0], cfg), run[1..], key, cfg))
  }

  /** Callers of `key` from number `n` on were all served from the cache, or have not looked yet. */
  ghost predicate ServedFromCache(callers: seq<Caller>, n: nat, key: Key) {
    forall c :: n <= c < |callers| && callers[c].key == key ==>
      callers[c].progress.Called? || (callers[c].progress.Done? && callers[c].progress.answer.Hit?)
  }

  /** While a stored value stays fresh and unevicted, no caller that starts after it was stored starts or joins a fetch. */
  lemma {:induction false} LaterCallersHit(w: World, run: Run, w': World, cfg: Config, n: nat, key: Key)
    requires n <= |w.callers| && ServedFromCache(w.callers, n, key)
    requires StaysFresh(w, run, key, cfg) && Reaches(w, run, w', cfg)
    ensures ServedFromCache(w'.callers, n, key)
    decreases |run|
  {
    if run != [] {
      var w1 := Next(w, run[0], cfg);
      assert |w.callers| <= |w1.callers|;
      assert ServedFromCache(w1.callers, n, key);
      LaterCallersHit(w1, run[1..], w', cfg, n, key);
    }
  }

  // ---- A caller that missed before the value was stored ----

  const KEY: Key := "k"
  const CFG := Config(60, 8)

  function FlightAt(p: Phase, o: Option<Outcome>, val: Value): Flight {
    Flight(KEY, p, o, val, None)
  }

  /** Two callers of one key, the cache filled or not, and the flights registered and ever started. */
  function TwoCallers(filled: bool, flights: map<Key, nat>, table: seq<Flight>, first: Progress, second: Progress,
                      known: bool): World {
    World(0, Shared(if filled then Lru.State([KEY], map[KEY := Entry(7, 0)]) else Lru.State([], map[]), flights, table),
          [Caller(KEY, first), Caller(KEY, second)], if known then {(KEY, 7)} else {})
  }

  function Start(): World {
    TwoCallers(false, map[], [], Called, Called, false)
  }

  function Fetched7(): World {
    TwoCallers(false, map[KEY := 0], [FlightAt(Holding(Fetched(7)), Some(Fetched(7)), ZERO)], Waiting(0), Missed, true)
  }

  function Ended(): World {
    TwoCallers(true, map[], [FlightAt(Closed, Some(Fetched(7)), 7)], Waiting(0), Missed, true)
  }

  function Refetching(): World {
    TwoCallers(true, map[KEY := 1], [FlightAt(Closed, Some(Fetched(7)), 7), FlightAt(Fetching, None, ZERO)],
               Waiting(0), Waiting(1), true)
  }

  lemma Prepend(w: World, step: Step, run: Run, w': World, cfg: Config)
    requires Enabled(w, step) && Reaches(Next(w, step, cfg), run, w', cfg)
    ensures Reaches(w, [step] + run, w', cfg)
  {
    assert ([step] + run)[1..] == run;
  }

  /** Both callers miss, and the first one's flight is fetched. */
  lemma FirstHalf(run: Run, w': World)
    requires Reaches(Fetched7(), run, w', CFG)
    ensures Reaches(Start(), [LookUp(0)] + ([LookUp(1)] + ([Join(0)] + ([FetchReturns(0, Fetched(7))] + run))), w', CFG)
  {
    var w1 := TwoCallers(false, map[], [], Missed, Called, false);
    var w2 := TwoCallers(false, map[], [], Missed, Missed, false);
    var w3 := TwoCallers(false, map[KEY := 0], [FlightAt(Fetching, None, ZERO)], Waiting(0), Missed, false);
    assert Next(w3, FetchReturns(0, Fetched(7)), CFG) == Fetched7();
    Prepend(w3, FetchReturns(0, Fetched(7)), run, w', CFG);
    assert Next(w2, Join(0), CFG) == w3;
    Prepend(w2, Join(0), [FetchReturns(0, Fetched(7))] + run, w', CFG);
    assert Next(w1, LookUp(1), CFG) == w2;
    Prepend(w1, LookUp(1), [Join(0)] + ([FetchReturns(0, Fetched(7))] + run), w', CFG);
    assert Next(Start(), LookUp(0), CFG) == w1;
    Prepend(Start(), LookUp(0), [LookUp(1)] + ([Join(0)] + ([FetchReturns(0, Fetched(7))] + run)), w', CFG);
  }

  /** The flight is published, retired and closed. */
  lemma SecondHalf(run: Run, w': World)
    requires Reaches(Ended(), run, w', CFG)
    ensures Reaches(Fetched7(), [Publish(0)] + ([Retire(0)] + ([Close(0)] + run)), w', CFG)
  {
    var w5 := TwoCallers(true, map[KEY := 0], [FlightAt(Published, Some(Fetched(7)), 7)], Waiting(0), Missed, true);
    var w6 := TwoCallers(true, map[], [FlightAt(Retired, Some(Fetched(7)), 7)], Waiting(0), Missed, true);
    assert Next(w6, Close(0), CFG) == Ended();
    Prepend(w6, Close(0), run, w', CFG);
    assert Next(w5, Retire(0), CFG) == w6;
    Prepend(w5, Retire(0), [Close(0)] + run, w', CFG);
    assert Next(Fetched7(), Publish(0), CFG) == w5;
    Prepend(Fetched7(), Publish(0), [Retire(0)] + ([Close(0)] + run), w', CFG);
  }

  /** Both callers miss, then the first one's flight runs from start to close before the second joins. */
  function SecondJoins(): Run {
    [LookUp(0)] + ([LookUp(1)] + ([Join(0)] + ([FetchReturns(0, Fetched(7))] +
      ([Publish(0)] + ([Retire(0)] + ([Close(0)] + ([Join(1)] + [])))))))
  }

  /**
   * Waiting for the fetch one's miss overlapped is not promised to every caller: one that looked before the value was
   * stored and joins after the flight was retired fetches the key again, though the value it wants is cached and fresh.
   */
  lemma MissedCallerMayFetchAgain()
    ensures Reaches(Start(), SecondJoins(), Refetching(), CFG)
    ensures var w := Refetching();
            Fresh(w.shared.cache, KEY, w.clock, CFG.ttl) && w.shared.table[1].phase.Fetching? &&
            w.callers[1].progress == Waiting(1)
  {
    assert Next(Ended(), Join(1), CFG) == Refetching();
    Prepend(Ended(), Join(1), [], Refetching(), CFG);
    SecondHalf([Join(1)] + [], Refetching());
    FirstHalf([Publish(0)] + ([Retire(0)] + ([Close(0)] + ([Join(1)] + []))), Refetching());
  }

  // ---- The read-through ----

  class ReadThrough {
    const entries: Cache
    var flights: map<Key, nat>
    var table: seq<Flight>

    ghost function Model(): Shared
      reads this, entries
    {
      Shared(entries.Model(), flights, table)
    }

    ghost function Settings(): Config {
      Config(entries.ttl, entries.maxEntries)
    }

    ghost predicate Valid()
      reads this, entries
    {
      entries.Valid() && FlightsInv(Model())
    }

    constructor (entries: Cache)
      requires entries.Valid()
      ensures Valid() && this.entries == entries && flights == map[] && table == []
    {
      this.entries := entries;
      flights, table := map[], [];
    }

    /** The cached value, or a flight to wait for: the two sections of Get, each atomic. */
    method LookUpEntry(key: Key, now: Time) returns (v: Option<Value>)
      requires Valid()
      modifies entries
      ensures Valid() && v == Lookup(old(Model()).cache, key, now, entries.ttl)
      ensures Model() == old(Model()).(cache := AfterGet(old(Model()).cache, key, now, entries.ttl))
    {
      v := entries.Get(key, now);
    }

    method JoinFlight(key: Key) returns (f: nat)
      requires Valid()
      modifies this
      ensures Valid() && (Model(), f) == JoinShared(old(Model()), key)
      ensures f < |table| && table[f].key == key && Live(table[f].phase)
    {
      if key in flights {
        return flights[key];
      }
      f := |table|;
      table := table + [Flight(key, Fetching, None, ZERO, None)];
      flights := flights[key := f];
    }

    /** The leader's fetch has ended; a panic is recovered into an error. */
    method EndFetch(f: nat, o: Outcome)
      requires Valid() && f < |table| && table[f].phase.Fetching?
      modifies this
      ensures Valid() && Model() == HoldShared(old(Model()), f, o)
    {
      table := table[f := table[f].(phase := Holding(o), outcome := Some(o))];
    }

    /** Fills the cache from a fetch that did not fail, then the flight, while callers can still join it. */
    method PublishResult(f: nat, now: Time)
      requires Valid() && f < |table| && table[f].phase.Holding?
      modifies this, entries
      ensures Valid() && Model() == PublishShared(old(Model()), f, now, Settings())
    {
      var fl := table[f];
      match fl.phase.outcome {
        case Fetched(v) =>
          entries.Set(fl.key, v, now);
          table := table[f := fl.(phase := Published, val := v, err := None)];
        case FetchError(e) =>
          table := table[f := fl.(phase := Published, err := Some(Failure(e)))];
        case Panicked =>
          table := table[f := fl.(phase := Published, err := Some(PanicError))];
      }
    }

    method RetireFlight(f: nat)
      requires Valid() && f < |table| && table[f].phase.Published?
      modifies this
      ensures Valid() && Model() == RetireShared(old(Model()), f)
    {
      flights := flights - {table[f].key};
      table := table[f := table[f].(phase := Retired)];
    }

    method CloseFlight(f: nat)
      requires Valid() && f < |table| && table[f].phase.Retired?
      modifies this
      ensures Valid() && Model() == CloseShared(old(Model()), f)
    {
      table := table[f := table[f].(phase := Closed)];
    }

    /** A leader's whole run over one flight, no other step in between. */
    method Lead(f: nat, o: Outcome, now: Time)
      requires Valid() && f < |table| && table[f].phase.Fetching?
      modifies this, entries
      ensures Valid() && |table| == |old(table)|
      ensures table[f].phase.Closed? && table[f].key == old(table)[f].key && table[f].outcome == Some(o)
      ensures flights == old(flights) - {old(table)[f].key}
      ensures o.Fetched? && entries.ttl >= 0 ==> Lookup(entries.Model(), table[f].key, now, entries.ttl) == Some(o.value)
      ensures !o.Fetched? ==> entries.Model() == old(entries.Model())
    {
      EndFetch(f, o);
      if o.Fetched? {
        FrontIsKept(entries.Model(), table[f].key, o.value, now, entries.maxEntries);
      }
      PublishResult(f, now);
      RetireFlight(f);
      CloseFlight(f);
    }
  }
}
