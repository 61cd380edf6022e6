/**
 Single flight: a map from a key to the flight that runs for it, under a mutex. A step is one
 critical section, one poll or one move of a flight's task; a run is any interleaving of them.
 */
module SingleFlight {
  type Key = string
  type FlightId = nat
  type CallId = nat

  /** What every caller of a flight gets: the value, the shared error, or a panic. */
  datatype Outcome = Value(text: string) | Failed(error: string) | Panicked

  /** `Boarding` is inserted and not polled yet; `Landed` has left the map with its outcome not
      yet visible; a caller can see the outcome of a `Done` flight only. */
  datatype Phase = Boarding | Running | Landed(outcome: Outcome) | Done(outcome: Outcome)

  datatype Flight = Flight(key: Key, phase: Phase)

  datatype Call = Joined(flight: FlightId) | Got(flight: FlightId, outcome: Outcome) | Dropped(flight: FlightId)

  /** `works` counts how often each flight's work was spawned. */
  datatype State = State(
    board: map<Key, FlightId>,
    flights: map<FlightId, Flight>,
    calls: map<CallId, Call>,
    works: map<FlightId, nat>)

  const INIT := State(map[], map[], map[], map[])

  datatype Step =
    | Run(c: CallId, key: Key, id: FlightId)       // look up `key`, insert a new flight `id` if absent
    | Poll(c: CallId)                              // first poll of a flight spawns its task
    | Land(f: FlightId, outcome: Outcome)          // the task ends and its guard removes its key
    | Publish(f: FlightId)                         // the task's output reaches its handle
    | Deliver(c: CallId)
    | Drop(c: CallId)

  predicate Unlanded(p: Phase) {
    p.Boarding? || p.Running?
  }

  predicate Waits(s: State, c: CallId) {
    c in s.calls && s.calls[c].Joined? && s.calls[c].flight in s.flights
  }

  predicate Enabled(s: State, st: Step) {
    match st
    case Run(c, k, id) => c !in s.calls && (k in s.board || id !in s.flights)
    case Poll(c) => Waits(s, c)
    case Land(f, _) => f in s.flights && s.flights[f].phase.Running?
    case Publish(f) => f in s.flights && s.flights[f].phase.Landed?
    case Deliver(c) => Waits(s, c) && s.flights[s.calls[c].flight].phase.Done?
    // `run` polls in the same breath as it joins, so a caller goes away only after its first poll.
    case Drop(c) => Waits(s, c) && !s.flights[s.calls[c].flight].phase.Boarding?
  }

  function Apply(s: State, st: Step): State
    requires Enabled(s, st)
  {
    match st
    case Run(c, k, id) =>
      if k in s.board then s.(calls := s.calls[c := Joined(s.board[k])])
      else s.(board := s.board[k := id], flights := s.flights[id := Flight(k, Boarding)],
              calls := s.calls[c := Joined(id)], works := s.works[id := 0])
    case Poll(c) =>
      var f := s.calls[c].flight;
      if s.flights[f].phase.Boarding?
      then s.(flights := s.flights[f := s.flights[f].(phase := Running)],
              works := s.works[f := 1 + if f in s.works then s.works[f] else 0])
      else s
    case Land(f, o) =>
      s.(board := s.board - {s.flights[f].key}, flights := s.flights[f := s.flights[f].(phase := Phase.Landed(o))])
    case Publish(f) =>
      s.(flights := s.flights[f := s.flights[f].(phase := Done(s.flights[f].phase.outcome))])
    case Deliver(c) =>
      var f := s.calls[c].flight;
      s.(calls := s.calls[c := Got(f, s.flights[f].phase.outcome)])
    case Drop(c) => s.(calls := s.calls[c := Dropped(s.calls[c].flight)])
  }

  ghost predicate Legal(s: State, steps: seq<Step>)
    decreases |steps|
  {
    steps == [] || (Enabled(s, steps[0]) && Legal(Apply(s, steps[0]), steps[1..]))
  }

  ghost function RunAll(s: State, steps: seq<Step>): State
    requires Legal(s, steps)
    decreases |steps|
  {
    if steps == [] then s else RunAll(Apply(s, steps[0]), steps[1..])
  }

  /** The map entry for a key is that key's only unlanded flight. */
  predicate MapExact(s: State) {
    && (forall k :: k in s.board ==>
          s.board[k] in s.flights && s.flights[s.board[k]].key == k && Unlanded(s.flights[s.board[k]].phase))
    && (forall f :: f in s.flights && Unlanded(s.flights[f].phase) ==>
          s.flights[f].key in s.board && s.board[s.flights[f].key] == f)
  }

  predicate Inv(s: State) {
    && MapExact(s)
    && (forall c :: c in s.calls ==> s.calls[c].flight in s.flights)
    && (forall c :: c in s.calls && s.calls[c].Got? ==>
          s.flights[s.calls[c].flight].phase == Done(s.calls[c].outcome))
    && (forall f :: f in s.flights ==> f in s.works && s.works[f] == if s.flights[f].phase.Boarding? then 0 else 1)
  }

  lemma InvStep(s: State, st: Step)
    requires Inv(s) && Enabled(s, st)
    ensures Inv(Apply(s, st))
  {
  }

  lemma {:induction false} InvRun(s: State, steps: seq<Step>)
    requires Inv(s) && Legal(s, steps)
    ensures Inv(RunAll(s, steps))
    decreases |steps|
  {
    if steps != [] {
      InvStep(s, steps[0]);
      InvRun(Apply(s, steps[0]), steps[1..]);
    }
  }

  /** Landing removes by key; it removes its own flight's entry and leaves every other one. */
  lemma LandingRemovesItself(steps: seq<Step>, f: FlightId, o: Outcome)
    requires Legal(INIT, steps) && Enabled(RunAll(INIT, steps), Land(f, o))
    ensures var s := RunAll(INIT, steps);
            var s' := Apply(s, Land(f, o));
            && (forall k :: k in s.board && s.board[k] == f <==> k == s.flights[f].key)
            && (forall k :: k in s'.board <==> k in s.board && s.board[k] != f)
            && (forall k :: k in s'.board ==> s'.board[k] == s.board[k])
  {
    InvRun(INIT, steps);
  }

  /** Concurrent callers of one key share one flight, and its work runs at most once. */
  lemma WorkRunsOnce(steps: seq<Step>, f: FlightId, g: FlightId)
    requires Legal(INIT, steps) && f in RunAll(INIT, steps).flights && g in RunAll(INIT, steps).flights
    ensures var s := RunAll(INIT, steps);
            && f in s.works && s.works[f] <= 1
            && ((Unlanded(s.flights[f].phase) && Unlanded(s.flights[g].phase)
                 && s.flights[f].key == s.flights[g].key) ==> f == g)
  {
    InvRun(INIT, steps);
  }

  predicate Before(p: Phase, q: Phase) {
    match p
    case Boarding => true
    case Running => !q.Boarding?
    case Landed(o) => q == Phase.Landed(o) || q == Done(o)
    case Done(o) => q == Done(o)
  }

  /** A flight keeps its key and only moves forward, and a finished call keeps its result. */
  lemma {:induction false} Forward(s: State, steps: seq<Step>, f: FlightId, c: CallId)
    requires Inv(s) && Legal(s, steps) && f in s.flights
    ensures var s' := RunAll(s, steps);
            && f in s'.flights && s'.flights[f].key == s.flights[f].key
            && Before(s.flights[f].phase, s'.flights[f].phase)
            && (c in s.calls && !s.calls[c].Joined? ==> c in s'.calls && s'.calls[c] == s.calls[c])
            && (c in s.calls ==> c in s'.calls && s'.calls[c].flight == s.calls[c].flight)
    decreases |steps|
  {
    if steps != [] {
      InvStep(s, steps[0]);
      Forward(Apply(s, steps[0]), steps[1..], f, c);
    }
  }

  /** Every caller that a flight ever answers gets that flight's one outcome. */
  lemma SameOutcome(steps: seq<Step>, c: CallId, d: CallId)
    requires Legal(INIT, steps)
    requires var calls := RunAll(INIT, steps).calls;
             c in calls && d in calls && calls[c].Got? && calls[d].Got? && calls[c].flight == calls[d].flight
    ensures RunAll(INIT, steps).calls[c] == RunAll(INIT, steps).calls[d]
  {
    InvRun(INIT, steps);
  }

  /** Once a flight has answered anyone, no later call joins it, however the run goes on. */
  lemma CallAfterDeliveryIsNew(steps: seq<Step>, later: seq<Step>, c: CallId, again: CallId, key: Key, id: FlightId)
    requires Legal(INIT, steps)
    requires var s := RunAll(INIT, steps); c in s.calls && s.calls[c].Got? && Legal(s, later)
    requires Enabled(RunAll(RunAll(INIT, steps), later), Run(again, key, id))
    ensures var s := RunAll(INIT, steps);
            Apply(RunAll(s, later), Run(again, key, id)).calls[again].flight != s.calls[c].flight
  {
    InvRun(INIT, steps);
    var s := RunAll(INIT, steps);
    InvRun(s, later);
    Forward(s, later, s.calls[c].flight, c);
  }

  /** Every new call is taken at once: it waits on a flight of its key, and that is a new one exactly
      when none of that key is unlanded. */
  lemma {:induction false} CallJoinsOrStarts(steps: seq<Step>, c: CallId, key: Key, id: FlightId)
    requires Legal(INIT, steps) && c !in RunAll(INIT, steps).calls && id !in RunAll(INIT, steps).flights
    ensures var s := RunAll(INIT, steps);
            && Enabled(s, Run(c, key, id))
            && var s' := Apply(s, Run(c, key, id));
               && Waits(s', c) && s'.flights[s'.calls[c].flight].key == key
               && (s'.calls[c].flight == id <==>
                     forall f :: f in s.flights && Unlanded(s.flights[f].phase) ==> s.flights[f].key != key)
               && (s'.calls[c].flight != id ==> s'.flights == s.flights && s'.board == s.board)
  {
    InvRun(INIT, steps);
  }

  // ---- Dropped callers and whose outcome it is ----

  /** A caller that goes away changes nothing but its own call: every flight runs on, under the same
      key and map entry, and every other caller waits on. */
  lemma DropTouchesOnlyItsCall(s: State, c: CallId)
    requires Enabled(s, Drop(c))
    ensures var s' := Apply(s, Drop(c));
            && s'.board == s.board && s'.flights == s.flights && s'.works == s.works
            && s'.calls.Keys == s.calls.Keys && (forall d :: d in s.calls && d != c ==> s'.calls[d] == s.calls[d])
            && s'.calls[c] == Dropped(s.calls[c].flight)
  {
  }

  ghost predicate LandedWith(steps: seq<Step>, f: FlightId, o: Outcome) {
    exists i :: 0 <= i < |steps| && steps[i] == Land(f, o)
  }

  /** Whoever has an outcome has it from a task that ended with it. */
  ghost predicate Accounted(s: State, steps: seq<Step>) {
    && (forall f :: f in s.flights && !Unlanded(s.flights[f].phase) ==>
          LandedWith(steps, f, s.flights[f].phase.outcome))
    && (forall c :: c in s.calls && s.calls[c].Got? ==> LandedWith(steps, s.calls[c].flight, s.calls[c].outcome))
    && (forall c :: c in s.calls ==>
          s.calls[c].flight in s.flights && CalledFor(steps, c, s.flights[s.calls[c].flight].key))
  }

  /** The caller `c` came for this key. */
  ghost predicate CalledFor(steps: seq<Step>, c: CallId, key: Key) {
    exists i :: 0 <= i < |steps| && steps[i].Run? && steps[i].c == c && steps[i].key == key
  }

  lemma HistoryGrows(steps: seq<Step>, st: Step)
    ensures forall f, o :: LandedWith(steps, f, o) ==> LandedWith(steps + [st], f, o)
    ensures forall c, k :: CalledFor(steps, c, k) ==> CalledFor(steps + [st], c, k)
    ensures st.Land? ==> LandedWith(steps + [st], st.f, st.outcome)
    ensures st.Run? ==> CalledFor(steps + [st], st.c, st.key)
  {
    var all := steps + [st];
    assert all[|steps|] == st && forall i :: 0 <= i < |steps| ==> all[i] == steps[i];
    forall f, o | LandedWith(steps, f, o) ensures LandedWith(all, f, o) {
      var i :| 0 <= i < |steps| && steps[i] == Land(f, o);
      assert all[i] == Land(f, o);
    }
    forall c, k | CalledFor(steps, c, k) ensures CalledFor(all, c, k) {
      var i :| 0 <= i < |steps| && steps[i].Run? && steps[i].c == c && steps[i].key == k;
      assert all[i].Run?;
    }
  }

  lemma AccountedStep(s: State, steps: seq<Step>, st: Step)
    requires Inv(s) && Accounted(s, steps) && Enabled(s, st)
    ensures Accounted(Apply(s, st), steps + [st])
  {
    HistoryGrows(steps, st);
  }

  lemma {:induction false} AccountedRun(s: State, past: seq<Step>, steps: seq<Step>)
    requires Inv(s) && Accounted(s, past) && Legal(s, steps)
    ensures Accounted(RunAll(s, steps), past + steps)
    decreases |steps|
  {
    if steps == [] {
      assert past + [] == past;
    } else {
      AccountedStep(s, past, steps[0]);
      InvStep(s, steps[0]);
      AccountedRun(Apply(s, steps[0]), past + [steps[0]], steps[1..]);
      assert past + [steps[0]] + steps[1..] == past + steps;
    }
  }

  /** Over every run, whoever dropped in it: an outcome that a caller got is one that the flight's own
      task ended with, and the flight is of the key that the caller came for. */
  lemma {:induction false} OutcomesComeFromTheWork(steps: seq<Step>, c: CallId)
    requires Legal(INIT, steps) && c in RunAll(INIT, steps).calls
    ensures var s := RunAll(INIT, steps);
            var call := s.calls[c];
            && call.flight in s.flights && CalledFor(steps, c, s.flights[call.flight].key)
            && (call.Got? ==> LandedWith(steps, call.flight, call.outcome))
  {
    AccountedRun(INIT, [], steps);
    assert [] + steps == steps;
  }

  /** The rest of the way for one waiting caller: its own poll, its flight's task, its delivery. */
  function WayHome(s: State, c: CallId, o: Outcome): seq<Step>
    requires Waits(s, c)
  {
    var f := s.calls[c].flight;
    match s.flights[f].phase
    case Boarding => [Poll(c), Land(f, o), Publish(f), Deliver(c)]
    case Running => [Land(f, o), Publish(f), Deliver(c)]
    case Landed(_) => [Publish(f), Deliver(c)]
    case Done(_) => [Deliver(c)]
  }

  function FinalOutcome(p: Phase, o: Outcome): Outcome {
    if Unlanded(p) then o else p.outcome
  }

  /** Nobody is stranded: whatever happened to the caller that started the flight, a waiting
      caller's own poll and the flight's task alone bring it that flight's outcome. */
  lemma {:induction false} WaiterIsAnswered(s: State, c: CallId, o: Outcome)
    requires Inv(s) && Waits(s, c)
    ensures Legal(s, WayHome(s, c, o))
    ensures var f := s.calls[c].flight;
            var s' := RunAll(s, WayHome(s, c, o));
            c in s'.calls && s'.calls[c] == Got(f, FinalOutcome(s.flights[f].phase, o))
    decreases |WayHome(s, c, o)|
  {
    var way := WayHome(s, c, o);
    assert Enabled(s, way[0]);
    var s1 := Apply(s, way[0]);
    if |way| > 1 {
      InvStep(s, way[0]);
      assert WayHome(s1, c, o) == way[1..];
      WaiterIsAnswered(s1, c, o);
    } else {
      assert way[1..] == [];
    }
  }

  lemma {:induction false} RunsOn(s: State, steps: seq<Step>, more: seq<Step>)
    requires Legal(s, steps) && Legal(RunAll(s, steps), more)
    ensures Legal(s, steps + more) && RunAll(s, steps + more) == RunAll(RunAll(s, steps), more)
    decreases |steps|
  {
    if steps == [] {
      assert [] + more == more;
    } else {
      RunsOn(Apply(s, steps[0]), steps[1..], more);
      assert (steps + more)[1..] == steps[1..] + more;
    }
  }

  /** After every run, dropped starters included: a caller that still waits is brought an outcome that
      its flight's own task ended with, which is `o` if the task is still to end and ends with `o`. */
  lemma {:induction false} WaiterGetsTheWork(steps: seq<Step>, c: CallId, o: Outcome)
    requires Legal(INIT, steps) && Waits(RunAll(INIT, steps), c)
    ensures var s := RunAll(INIT, steps);
            var f, way := s.calls[c].flight, WayHome(s, c, o);
            && Legal(INIT, steps + way) && c in RunAll(INIT, steps + way).calls
            && (var got := RunAll(INIT, steps + way).calls[c];
                && got.Got? && got.flight == f && LandedWith(steps + way, f, got.outcome)
                && (Unlanded(s.flights[f].phase) ==> got.outcome == o))
  {
    InvRun(INIT, steps);
    var s := RunAll(INIT, steps);
    var way := WayHome(s, c, o);
    WaiterIsAnswered(s, c, o);
    RunsOn(INIT, steps, way);
    OutcomesComeFromTheWork(steps + way, c);
  }

  /** The object that callers and tasks share. `world` is the run so far; the map is all that the
      mutex guards. */
  class SingleFlightMap {
    var flights: map<Key, FlightId>
    ghost var world: State

    ghost predicate Valid()
      reads this
    {
      Inv(world) && flights == world.board
    }

    constructor ()
      ensures Valid() && world == INIT
    {
      flights := map[];
      world := INIT;
    }

    /** `SingleFlight::run` up to its await: join the flight for `key`, or insert a new one. */
    method Join(c: CallId, key: Key, id: FlightId) returns (flight: FlightId, started: bool)
      requires Valid() && c !in world.calls && id !in world.flights
      modifies this
      ensures Valid() && world == Apply(old(world), Run(c, key, id))
      ensures world.calls[c] == Joined(flight)
      ensures started <==> forall f :: f in old(world).flights && Unlanded(old(world).flights[f].phase) ==>
                                         old(world).flights[f].key != key
    {
      world := Apply(world, Run(c, key, id));
      if key in flights {
        flight, started := flights[key], false;
      } else {
        flights := flights[key := id];
        flight, started := id, true;
      }
    }

    /** The drop of a task's guard: forget the key. */
    method Forget(key: Key, ghost f: FlightId, ghost o: Outcome)
      requires Valid() && Enabled(world, Land(f, o)) && world.flights[f].key == key
      modifies this
      ensures Valid() && world == Apply(old(world), Land(f, o))
      ensures forall k :: k in flights <==> k in old(flights) && old(flights)[k] != f
    {
      world := Apply(world, Land(f, o));
      flights := flights - {key};
    }
  }
}
