/**
 The daemon's accept, idle and drain loop, with one task per connection, as a state machine. The
 open counter and the close notification are shared atomics, so a task's two last moves, the
 decrement and the notification, are separate steps. Time is in milliseconds.
 */
module ServeLoop {
  import opened Common

  type TaskId = nat

  datatype Config = Config(idle: nat, drain: nat)

  /** `Ending` left its connection; `Uncounted` has decremented and is about to notify. */
  datatype Task = Serving | Ending | Uncounted

  datatype Timer = Armed(since: nat) | Unarmed

  /** `Top` starts an iteration; `Waiting` has built its idle future and sits in the select. */
  datatype Phase =
    | Top
    | Waiting(timer: Timer)
    | Draining(since: nat)
    | Cutting(since: nat)
    | Returned

  /** `permit` is the notification's one stored permit. `busyAt` is the last instant at which a
      connection was open, `accepted` every connection so far, `served` those that were served to
      their end, and `cuts` those that were cut, each with the time its drain had lasted by then. */
  datatype State = State(
    now: nat, phase: Phase, tasks: map<TaskId, Task>, open: int, permit: bool,
    busyAt: nat, accepted: set<TaskId>, served: set<TaskId>, cuts: map<TaskId, nat>)

  const INIT := State(0, Top, map[], 0, false, 0, {}, {}, map[])

  datatype Step =
    | Tick(ms: nat)
    | BuildIdle
    | Accept(t: TaskId)
    | AcceptAborted
    | Notified
    | IdleExit
    | Stop                  // a signal, a shutdown request, or a failed accept
    | Served(t: TaskId)
    | Cut(t: TaskId)
    | Decrement(t: TaskId)
    | Notify(t: TaskId)
    | DrainTimeout
    | AllTasksDone

  predicate InLoop(p: Phase) {
    p.Top? || p.Waiting?
  }

  /** The connections a task still counts for. */
  function Counted(s: State): set<TaskId> {
    set t | t in s.tasks && !s.tasks[t].Uncounted?
  }

  predicate Enabled(c: Config, s: State, st: Step) {
    match st
    case Tick(ms) => ms > 0
    case BuildIdle => s.phase.Top?
    case Accept(t) => InLoop(s.phase) && t !in s.accepted && t !in s.tasks
    case AcceptAborted => InLoop(s.phase)
    case Notified => InLoop(s.phase) && s.permit
    case IdleExit => s.phase.Waiting? && s.phase.timer.Armed? && s.now >= s.phase.timer.since + c.idle
    case Stop => InLoop(s.phase)
    case Served(t) => t in s.tasks && s.tasks[t].Serving?
    case Cut(t) => t in s.tasks && s.tasks[t].Serving? && s.phase.Cutting?
    case Decrement(t) => t in s.tasks && s.tasks[t].Ending?
    case Notify(t) => t in s.tasks && s.tasks[t].Uncounted?
    case DrainTimeout => s.phase.Draining? && s.now >= s.phase.since + c.drain
    case AllTasksDone => (s.phase.Draining? || s.phase.Cutting?) && s.tasks == map[]
  }

  function Apply(c: Config, s: State, st: Step): State
    requires Enabled(c, s, st)
  {
    match st
    case Tick(ms) => s.(now := s.now + ms, busyAt := if Counted(s) == {} then s.busyAt else s.now + ms)
    case BuildIdle => s.(phase := Waiting(if s.open == 0 && c.idle != 0 then Armed(s.now) else Unarmed))
    case Accept(t) =>
      s.(phase := Top, tasks := s.tasks[t := Serving], open := s.open + 1, busyAt := s.now,
         accepted := s.accepted + {t})
    case AcceptAborted => s.(phase := Top)
    case Notified => s.(phase := Top, permit := false)
    case IdleExit => s.(phase := Draining(s.now))
    case Stop => s.(phase := Draining(s.now))
    case Served(t) => s.(tasks := s.tasks[t := Ending], served := s.served + {t})
    case Cut(t) => s.(tasks := s.tasks[t := Ending], cuts := s.cuts[t := SatSub(s.now, s.phase.since)])
    case Decrement(t) => s.(tasks := s.tasks[t := Uncounted], open := s.open - 1)
    case Notify(t) => s.(tasks := s.tasks - {t}, permit := true)
    case DrainTimeout => s.(phase := Cutting(s.phase.since))
    case AllTasksDone => s.(phase := Returned)
  }

  ghost predicate Legal(c: Config, s: State, steps: seq<Step>)
    decreases |steps|
  {
    steps == [] || (Enabled(c, s, steps[0]) && Legal(c, Apply(c, s, steps[0]), steps[1..]))
  }

  ghost function Run(c: Config, s: State, steps: seq<Step>): State
    requires Legal(c, s, steps)
    decreases |steps|
  {
    if steps == [] then s else Run(c, Apply(c, s, steps[0]), steps[1..])
  }

  /** A close is announced: its permit is stored, or its task is about to store it. */
  predicate WakeupComing(s: State) {
    s.permit || exists t :: t in s.tasks && s.tasks[t].Uncounted?
  }

  /** The counter counts, and `busyAt` is kept. */
  predicate CountInv(s: State) {
    s.open == |Counted(s)| && s.busyAt <= s.now && (Counted(s) != {} ==> s.busyAt == s.now)
  }

  /** A loop that waits unarmed while nothing is open will be woken. */
  predicate WakeupInv(c: Config, s: State) {
    s.phase == Waiting(Unarmed) && c.idle != 0 && s.open == 0 ==> WakeupComing(s)
  }

  predicate PhaseInv(c: Config, s: State) {
    && (s.phase.Waiting? && s.phase.timer.Armed? ==>
          c.idle != 0 && s.open == 0 && s.busyAt <= s.phase.timer.since <= s.now)
    && (s.phase.Draining? ==> s.phase.since <= s.now)
    && (s.phase.Cutting? ==> s.phase.since + c.drain <= s.now)
    && (forall t :: t in s.cuts ==> c.drain <= s.cuts[t])
    && (s.phase.Returned? ==> s.tasks == map[])
  }

  /** The connections being served. */
  function Live(s: State): set<TaskId> {
    set t | t in s.tasks && s.tasks[t].Serving?
  }

  /** Every connection accepted is being served, was served, or was cut; just one of these. */
  predicate FateInv(s: State) {
    && s.tasks.Keys <= s.accepted
    && s.accepted == Live(s) + s.served + s.cuts.Keys
    && Live(s) !! s.served && Live(s) !! s.cuts.Keys && s.served !! s.cuts.Keys
  }

  predicate Inv(c: Config, s: State) {
    CountInv(s) && WakeupInv(c, s) && PhaseInv(c, s) && FateInv(s)
  }

  /** Only an accept adds a counted connection, only a decrement takes one away. */
  lemma CountStep(c: Config, s: State, st: Step)
    requires Enabled(c, s, st)
    ensures var s' := Apply(c, s, st);
            Counted(s') == if st.Accept? then Counted(s) + {st.t}
                           else if st.Decrement? then Counted(s) - {st.t} else Counted(s)
    ensures st.Accept? ==> st.t !in Counted(s)
    ensures st.Decrement? ==> st.t in Counted(s)
  {
  }

  lemma CountInvStep(c: Config, s: State, st: Step)
    requires CountInv(s) && Enabled(c, s, st)
    ensures CountInv(Apply(c, s, st))
    ensures var n := Apply(c, s, st).open;
            n == if st.Accept? then s.open + 1 else if st.Decrement? then s.open - 1 else s.open
  {
    CountStep(c, s, st);
    if st.Decrement? { assert |Counted(s) - {st.t}| == |Counted(s)| - 1; }
  }

  /** The counter can only reach zero by a decrement, whose notification is then still to come. */
  lemma WakeupInvStep(c: Config, s: State, st: Step)
    requires CountInv(s) && WakeupInv(c, s) && Enabled(c, s, st)
    ensures WakeupInv(c, Apply(c, s, st))
  {
    var s' := Apply(c, s, st);
    CountInvStep(c, s, st);
    if s'.phase == Waiting(Unarmed) && c.idle != 0 && s'.open == 0 {
      if st.Decrement? {
        assert st.t in s'.tasks && s'.tasks[st.t].Uncounted?;
      } else if !s'.permit {
        var t :| t in s.tasks && s.tasks[t].Uncounted?;
        assert t in s'.tasks && s'.tasks[t].Uncounted?;
      }
    }
  }

  lemma PhaseInvStep(c: Config, s: State, st: Step)
    requires CountInv(s) && PhaseInv(c, s) && Enabled(c, s, st)
    ensures PhaseInv(c, Apply(c, s, st))
  {
    CountInvStep(c, s, st);
    if s.open == 0 { assert Counted(s) == {}; }
  }

  lemma FateInvStep(c: Config, s: State, st: Step)
    requires FateInv(s) && Enabled(c, s, st)
    ensures FateInv(Apply(c, s, st))
  {
    var s' := Apply(c, s, st);
    assert Live(s') == if st.Accept? then Live(s) + {st.t}
                       else if st.Served? || st.Cut? then Live(s) - {st.t} else Live(s);
  }

  lemma InvStep(c: Config, s: State, st: Step)
    requires Inv(c, s) && Enabled(c, s, st)
    ensures Inv(c, Apply(c, s, st))
  {
    CountInvStep(c, s, st);
    WakeupInvStep(c, s, st);
    PhaseInvStep(c, s, st);
    FateInvStep(c, s, st);
  }

  lemma {:induction false} InvRun(c: Config, s: State, steps: seq<Step>)
    requires Inv(c, s) && Legal(c, s, steps)
    ensures Inv(c, Run(c, s, steps))
    decreases |steps|
  {
    if steps != [] {
      InvStep(c, s, steps[0]);
      InvRun(c, Apply(c, s, steps[0]), steps[1..]);
    }
  }

  lemma Reachable(c: Config, steps: seq<Step>)
    requires Legal(c, INIT, steps)
    ensures Inv(c, Run(c, INIT, steps))
  {
    assert Counted(INIT) == {};
    InvRun(c, INIT, steps);
  }

  /** No lost wakeup: a loop that waits with its timer unarmed and no connection open has a close
      notification stored or about to be. */
  lemma NoLostWakeup(c: Config, steps: seq<Step>)
    requires Legal(c, INIT, steps) && c.idle != 0
    requires var s := Run(c, INIT, steps); s.phase == Waiting(Unarmed) && Counted(s) == {}
    ensures WakeupComing(Run(c, INIT, steps))
  {
    Reachable(c, steps);
  }

  /** An idle exit happens only with no connection open, and none for the whole timeout before it. */
  lemma IdleExitMeansIdle(c: Config, steps: seq<Step>)
    requires Legal(c, INIT, steps) && Enabled(c, Run(c, INIT, steps), IdleExit)
    ensures var s := Run(c, INIT, steps);
            c.idle > 0 && Counted(s) == {} && s.busyAt + c.idle <= s.now
  {
    Reachable(c, steps);
  }

  // ---- The drain ----

  predicate Drains(p: Phase) {
    p.Draining? || p.Cutting? || p.Returned?
  }

  /** A move of the loop or of a task. */
  predicate Own(st: Step) {
    st.Served? || st.Cut? || st.Decrement? || st.Notify? || st.DrainTimeout? || st.AllTasksDone?
  }

  /** The moves that a drain still has before it. */
  function Work(s: State): nat {
    |s.tasks.Keys| + |Counted(s)| + |Live(s)| + match s.phase case Draining(_) => 2 case Cutting(_) => 1 case _ => 0
  }

  lemma LiveStep(c: Config, s: State, st: Step)
    requires Enabled(c, s, st) && Drains(s.phase)
    ensures Live(Apply(c, s, st)) == if st.Served? || st.Cut? then Live(s) - {st.t} else Live(s)
    ensures st.Served? || st.Cut? ==> st.t in Live(s)
  {
  }

  lemma TasksStep(c: Config, s: State, st: Step)
    requires Enabled(c, s, st) && Drains(s.phase)
    ensures Apply(c, s, st).tasks.Keys == if st.Notify? then s.tasks.Keys - {st.t} else s.tasks.Keys
    ensures st.Notify? ==> st.t in s.tasks.Keys
  {
  }

  /** In a drain nothing but its own moves and time goes on, and each of its own moves is one less. */
  lemma WorkStep(c: Config, s: State, st: Step)
    requires PhaseInv(c, s) && Drains(s.phase) && Enabled(c, s, st)
    ensures Own(st) || st.Tick?
    ensures var s' := Apply(c, s, st);
            Drains(s'.phase) && s'.accepted == s.accepted && Work(s') <= Work(s) - (if Own(st) then 1 else 0)
  {
    LiveStep(c, s, st);
    TasksStep(c, s, st);
    CountStep(c, s, st);
  }

  function CountOwn(steps: seq<Step>): nat {
    if steps == [] then 0 else (if Own(steps[0]) then 1 else 0) + CountOwn(steps[1..])
  }

  /** A drain cannot go on for ever: whatever the order, its moves are bounded, only time passes
      between them, and no connection joins. */
  lemma {:induction false} DrainIsBounded(c: Config, s: State, steps: seq<Step>)
    requires Inv(c, s) && Drains(s.phase) && Legal(c, s, steps)
    ensures CountOwn(steps) + Work(Run(c, s, steps)) <= Work(s)
    ensures Drains(Run(c, s, steps).phase) && Run(c, s, steps).accepted == s.accepted
    ensures forall k :: 0 <= k < |steps| ==> Own(steps[k]) || steps[k].Tick?
    decreases |steps|
  {
    if steps != [] {
      WorkStep(c, s, steps[0]);
      InvStep(c, s, steps[0]);
      DrainIsBounded(c, Apply(c, s, steps[0]), steps[1..]);
    }
  }

  /** The next move of a drain that needs no client: time up to the drain timeout, the cut, and
      what each task does once it is cut. */
  lemma NextMove(c: Config, s: State) returns (st: Step)
    requires PhaseInv(c, s) && Drains(s.phase) && !s.phase.Returned?
    ensures Enabled(c, s, st) && !st.Served?
    ensures Own(st) || (st.Tick? && s.phase.Draining? && s.now < s.phase.since + c.drain <= s.now + st.ms)
  {
    if s.tasks == map[] {
      st := AllTasksDone;
    } else if s.phase.Draining? {
      st := if s.now >= s.phase.since + c.drain then DrainTimeout else Tick(c.drain);
    } else {
      var t :| t in s.tasks;
      st := match s.tasks[t] case Serving => Cut(t) case Ending => Decrement(t) case Uncounted => Notify(t);
    }
  }

  lemma {:induction false} MoveFirst(c: Config, s: State, st: Step, rest: seq<Step>)
    requires Enabled(c, s, st) && Legal(c, Apply(c, s, st), rest)
    ensures Legal(c, s, [st] + rest) && Run(c, s, [st] + rest) == Run(c, Apply(c, s, st), rest)
  {
    assert ([st] + rest)[1..] == rest;
  }

  predicate Early(c: Config, s: State) {
    s.phase.Draining? && s.now < s.phase.since + c.drain
  }

  /** The rest of a drain without the help of any client. */
  lemma {:induction false} Unaided(c: Config, s: State) returns (rest: seq<Step>)
    requires Inv(c, s) && Drains(s.phase)
    ensures Legal(c, s, rest) && Run(c, s, rest).phase.Returned?
    ensures forall k :: 0 <= k < |rest| ==> !rest[k].Served?
    decreases Work(s), if Early(c, s) then 1 else 0
  {
    rest := [];
    if !s.phase.Returned? {
      var st := NextMove(c, s);
      WorkStep(c, s, st);
      InvStep(c, s, st);
      var more := Unaided(c, Apply(c, s, st));
      MoveFirst(c, s, st, more);
      rest := [st] + more;
    }
  }

  /** The end of a drain: no task is live, every connection ever accepted was either served to its
      end or cut, and those that were cut had the whole drain timeout. */
  predicate Settled(c: Config, s: State) {
    && s.tasks == map[]
    && s.accepted == s.served + s.cuts.Keys && s.served !! s.cuts.Keys
    && forall t :: t in s.cuts ==> c.drain <= s.cuts[t]
  }

  lemma InvSettles(c: Config, s: State)
    requires Inv(c, s) && s.phase.Returned?
    ensures Settled(c, s)
  {
    assert Live(s) == {};
  }

  /** Every loop that returns has settled. */
  lemma {:induction false} ReturnIsSettled(c: Config, steps: seq<Step>)
    requires Legal(c, INIT, steps) && Run(c, INIT, steps).phase.Returned?
    ensures Settled(c, Run(c, INIT, steps))
  {
    Reachable(c, steps);
    InvSettles(c, Run(c, INIT, steps));
  }

  /** Every drain ends: from each reachable draining or cutting state the tasks' own moves, the
      drain timeout and the cut, with no client's help, lead to a return that has settled the same
      connections; and no run has more moves than `Work` before it does. */
  lemma {:induction false} DrainEnds(c: Config, steps: seq<Step>) returns (rest: seq<Step>)
    requires Legal(c, INIT, steps) && Drains(Run(c, INIT, steps).phase)
    ensures var s := Run(c, INIT, steps);
            && Legal(c, s, rest) && (forall k :: 0 <= k < |rest| ==> !rest[k].Served?)
            && CountOwn(rest) <= Work(s) && (forall t :: t in s.cuts ==> c.drain <= s.cuts[t])
            && Run(c, s, rest).phase.Returned?
            && Settled(c, Run(c, s, rest)) && Run(c, s, rest).accepted == s.accepted
  {
    Reachable(c, steps);
    var s := Run(c, INIT, steps);
    rest := Unaided(c, s);
    DrainIsBounded(c, s, rest);
    InvRun(c, s, rest);
    InvSettles(c, Run(c, s, rest));
  }

  // ---- One connection ----

  /** The moves of one connection that is served to its end. */
  function OneConnection(t: TaskId): seq<Step> {
    [Accept(t)] + ([Served(t)] + ([Decrement(t)] + ([Notify(t)] + [])))
  }

  lemma ConnectionMoves(c: Config, s: State, t: TaskId) returns (s1: State, s2: State, s3: State, s4: State)
    requires InLoop(s.phase) && t !in s.accepted && t !in s.tasks
    ensures Enabled(c, s, Accept(t)) && s1 == Apply(c, s, Accept(t))
    ensures Enabled(c, s1, Served(t)) && s2 == Apply(c, s1, Served(t))
    ensures Enabled(c, s2, Decrement(t)) && s3 == Apply(c, s2, Decrement(t))
    ensures Enabled(c, s3, Notify(t)) && s4 == Apply(c, s3, Notify(t))
    ensures s4.phase.Top? && s4.permit && s4.tasks == s.tasks && s4.open == s.open && s4.cuts == s.cuts
    ensures s4.accepted == s.accepted + {t} && s4.served == s.served + {t}
  {
    s1 := Apply(c, s, Accept(t));
    s2 := Apply(c, s1, Served(t));
    s3 := Apply(c, s2, Decrement(t));
    s4 := Apply(c, s3, Notify(t));
  }

  lemma {:induction false} ConnectionRuns(c: Config, s: State, t: TaskId)
    requires InLoop(s.phase) && t !in s.accepted && t !in s.tasks
    ensures Legal(c, s, OneConnection(t))
    ensures var end := Run(c, s, OneConnection(t));
            && end.phase.Top? && end.permit && end.tasks == s.tasks && end.open == s.open && end.cuts == s.cuts
            && end.accepted == s.accepted + {t} && end.served == s.served + {t}
  {
    var s1, s2, s3, s4 := ConnectionMoves(c, s, t);
    MoveFirst(c, s3, Notify(t), []);
    MoveFirst(c, s2, Decrement(t), [Notify(t)] + []);
    MoveFirst(c, s1, Served(t), [Decrement(t)] + ([Notify(t)] + []));
    MoveFirst(c, s, Accept(t), [Served(t)] + ([Decrement(t)] + ([Notify(t)] + [])));
  }

  /** From every reachable state of the loop, whatever its timer, a new connection can be accepted,
      served to its end and closed; the tasks and the count are then as before, and the loop has a
      notification to look again. */
  lemma {:induction false} ConnectionRunsThrough(c: Config, steps: seq<Step>, t: TaskId)
    requires Legal(c, INIT, steps)
    requires var s := Run(c, INIT, steps); InLoop(s.phase) && t !in s.accepted
    ensures var s := Run(c, INIT, steps);
            && Legal(c, s, OneConnection(t))
            && var end := Run(c, s, OneConnection(t));
               && end.phase.Top? && end.permit && end.tasks == s.tasks && end.open == s.open && end.cuts == s.cuts
               && end.accepted == s.accepted + {t} && end.served == s.served + {t}
  {
    Reachable(c, steps);
    ConnectionRuns(c, Run(c, INIT, steps), t);
  }

  // ---- Stopping ----

  /** Only a stop or the idle timeout ends the accept loop. */
  lemma OnlyStopsEndTheLoop(c: Config, s: State, st: Step)
    requires Enabled(c, s, st) && InLoop(s.phase)
    ensures Drains(Apply(c, s, st).phase) <==> st.Stop? || st.IdleExit?
    ensures InLoop(Apply(c, s, st).phase) <==> !(st.Stop? || st.IdleExit?)
  {
  }

  /** Once a stop or the idle timeout was taken, no connection is ever accepted again: nothing is left
      but the drain's own moves and time. */
  lemma {:induction false} StopIsFinal(c: Config, s: State, steps: seq<Step>, i: nat, j: nat)
    requires Inv(c, s) && Legal(c, s, steps) && i < j < |steps| && (steps[i].Stop? || steps[i].IdleExit?)
    ensures !steps[j].Accept? && (Own(steps[j]) || steps[j].Tick?)
    decreases |steps|
  {
    var next := Apply(c, s, steps[0]);
    InvStep(c, s, steps[0]);
    if i == 0 {
      OnlyStopsEndTheLoop(c, s, steps[0]);
      DrainIsBounded(c, next, steps[1..]);
      assert steps[j] == steps[1..][j - 1];
    } else {
      StopIsFinal(c, next, steps[1..], i - 1, j - 1);
    }
  }

  lemma {:induction false} NothingAfterAStop(c: Config, steps: seq<Step>, i: nat, j: nat)
    requires Legal(c, INIT, steps) && i < j < |steps| && steps[i].Stop?
    ensures !steps[j].Accept?
  {
    Reachable(c, []);
    StopIsFinal(c, INIT, steps, i, j);
  }

  /** A stop is heeded: from every reachable state of the loop it is possible, and it leads, by the
      loop's, the tasks' and the clock's own steps and with no client's help, to a return that has
      settled the connections accepted by then and no others. */
  lemma {:induction false} StopEnds(c: Config, steps: seq<Step>) returns (rest: seq<Step>)
    requires Legal(c, INIT, steps) && InLoop(Run(c, INIT, steps).phase)
    ensures var s := Run(c, INIT, steps);
            && Legal(c, s, [Stop] + rest)
            && (forall k :: 0 <= k < |rest| ==> !rest[k].Served? && (Own(rest[k]) || rest[k].Tick?))
            && (var end := Run(c, s, [Stop] + rest);
                end.phase.Returned? && Settled(c, end) && end.accepted == s.accepted)
  {
    Reachable(c, steps);
    var s := Run(c, INIT, steps);
    var next := Apply(c, s, Stop);
    InvStep(c, s, Stop);
    OnlyStopsEndTheLoop(c, s, Stop);
    rest := Unaided(c, next);
    DrainIsBounded(c, next, rest);
    InvRun(c, next, rest);
    InvSettles(c, Run(c, next, rest));
    MoveFirst(c, s, Stop, rest);
  }

  // ---- What happened, and when ----

  function Elapsed(steps: seq<Step>): nat {
    if steps == [] then 0 else (if steps[0].Tick? then steps[0].ms else 0) + Elapsed(steps[1..])
  }

  /** The record is of what happened: exactly the accepted connections were accepted, exactly the
      served ones served to their end, exactly the cut ones cut, and the time is the time elapsed. */
  lemma {:induction false} RecordIsTrue(c: Config, s: State, steps: seq<Step>, t: TaskId)
    requires Legal(c, s, steps)
    ensures var e := Run(c, s, steps);
            && (t in e.accepted <==> t in s.accepted || Accept(t) in steps)
            && (t in e.served <==> t in s.served || Served(t) in steps)
            && (t in e.cuts <==> t in s.cuts || Cut(t) in steps)
            && e.now == s.now + Elapsed(steps)
    decreases |steps|
  {
    if steps != [] {
      RecordIsTrue(c, Apply(c, s, steps[0]), steps[1..], t);
      assert steps == [steps[0]] + steps[1..];
    }
  }

  lemma {:induction false} Split(c: Config, s: State, steps: seq<Step>, k: nat)
    requires Legal(c, s, steps) && k <= |steps|
    ensures Legal(c, s, steps[..k]) && Legal(c, Run(c, s, steps[..k]), steps[k..])
    ensures Run(c, s, steps) == Run(c, Run(c, s, steps[..k]), steps[k..])
    decreases |steps|
  {
    if k == 0 {
      assert steps[..0] == [] && steps[0..] == steps;
    } else {
      Split(c, Apply(c, s, steps[0]), steps[1..], k - 1);
      assert steps[..k][1..] == steps[1..][..k - 1] && steps[1..][k - 1..] == steps[k..];
    }
  }

  lemma {:induction false} BusyGrows(c: Config, s: State, steps: seq<Step>)
    requires Inv(c, s) && Legal(c, s, steps)
    ensures s.busyAt <= Run(c, s, steps).busyAt && s.now <= Run(c, s, steps).now
    decreases |steps|
  {
    if steps != [] {
      InvStep(c, s, steps[0]);
      BusyGrows(c, Apply(c, s, steps[0]), steps[1..]);
    }
  }

  /** At an idle exit no connection was open at any point of the run within the timeout before it. */
  lemma {:induction false} IdleForTheTimeout(c: Config, steps: seq<Step>, k: nat)
    requires Legal(c, INIT, steps) && Enabled(c, Run(c, INIT, steps), IdleExit) && k <= |steps|
    ensures c.idle > 0 && Legal(c, INIT, steps[..k])
    ensures Run(c, INIT, steps[..k]).now + c.idle > Run(c, INIT, steps).now ==> Counted(Run(c, INIT, steps[..k])) == {}
  {
    IdleExitMeansIdle(c, steps);
    Split(c, INIT, steps, k);
    Reachable(c, steps[..k]);
    BusyGrows(c, Run(c, INIT, steps[..k]), steps[k..]);
  }

  predicate SinceAfter(p: Phase, start: nat) {
    (p.Draining? || p.Cutting?) ==> p.since >= start
  }

  /** A drain counts its timeout from when the loop ended. */
  lemma {:induction false} DrainCountsFromItsStart(c: Config, s: State, steps: seq<Step>, start: nat)
    requires Legal(c, s, steps) && SinceAfter(s.phase, start) && start <= s.now
    ensures SinceAfter(Run(c, s, steps).phase, start)
    decreases |steps|
  {
    if steps != [] { DrainCountsFromItsStart(c, Apply(c, s, steps[0]), steps[1..], start); }
  }

  /** A connection is cut no earlier than the drain timeout after the last point of the run at which
      the loop still accepted. */
  lemma {:induction false} CutsComeAfterTheDrain(c: Config, steps: seq<Step>, k: nat, t: TaskId)
    requires Legal(c, INIT, steps) && Enabled(c, Run(c, INIT, steps), Cut(t)) && k <= |steps|
    ensures Legal(c, INIT, steps[..k])
    ensures InLoop(Run(c, INIT, steps[..k]).phase) ==>
              Run(c, INIT, steps[..k]).now + c.drain <= Run(c, INIT, steps).now
  {
    Split(c, INIT, steps, k);
    var s := Run(c, INIT, steps[..k]);
    Reachable(c, steps);
    if InLoop(s.phase) { DrainCountsFromItsStart(c, s, steps[k..], s.now); }
  }

  // ---- An idle daemon ----

  /** How a loop with no connection gets from `s` to its return without another accept. */
  function QuietEnd(c: Config, s: State): seq<Step>
    requires InLoop(s.phase)
  {
    if s.phase == Waiting(Unarmed) then [Notified, BuildIdle, Tick(c.idle), IdleExit, AllTasksDone]
    else if s.phase.Top? then [BuildIdle, Tick(c.idle), IdleExit, AllTasksDone]
    else [Tick(c.idle), IdleExit, AllTasksDone]
  }

  lemma {:induction false} QuietEndReturns(c: Config, s: State)
    requires Inv(c, s) && c.idle != 0 && InLoop(s.phase) && s.tasks == map[]
    ensures Legal(c, s, QuietEnd(c, s))
    ensures var s' := Run(c, s, QuietEnd(c, s)); s'.phase.Returned? && s'.now == s.now + c.idle
    decreases |QuietEnd(c, s)|
  {
    var end := QuietEnd(c, s);
    assert Counted(s) == {};
    assert Enabled(c, s, end[0]);
    var s1 := Apply(c, s, end[0]);
    if end[0].Tick? {
      assert end[1..] == [IdleExit, AllTasksDone] && end[1..][1..] == [AllTasksDone] && [AllTasksDone][1..] == [];
      var s2 := Apply(c, s1, IdleExit);
      assert Legal(c, s2, [AllTasksDone]) && Run(c, s2, [AllTasksDone]) == Apply(c, s2, AllTasksDone);
    } else {
      InvStep(c, s, end[0]);
      assert end[1..] == QuietEnd(c, s1);
      QuietEndReturns(c, s1);
    }
  }

  /** A daemon that nobody connects to does exit: from every reachable state of the loop with no
      task left, one idle timeout and the loop's own steps end it. */
  lemma IdleDaemonExits(c: Config, steps: seq<Step>)
    requires Legal(c, INIT, steps) && c.idle != 0
    requires var s := Run(c, INIT, steps); InLoop(s.phase) && s.tasks == map[]
    ensures var s := Run(c, INIT, steps);
            && Legal(c, s, QuietEnd(c, s))
            && Run(c, s, QuietEnd(c, s)).phase.Returned?
            && Run(c, s, QuietEnd(c, s)).now == s.now + c.idle
  {
    Reachable(c, steps);
    QuietEndReturns(c, Run(c, INIT, steps));
  }
}
