/**
  The supervisor (`main`): it renders the broker's properties, discovers the
  ZooKeeper ensemble, starts the broker, and then, once per loop, stops if the
  broker has died, rediscovers the ensemble and, when the ensemble has grown or
  changed, takes the ensemble's restart lock and restarts the broker against it.

  Everything `main` learns from the outside world within one loop is a `Tick`: the
  broker's `returncode` after `poll()`, the result of fetching the cluster list, and
  whether taking the restart lock succeeded. A run is driven by a finite script of
  ticks; a run whose script is exhausted before the loop ends is `Interrupted`.
  The observable effects of a run (brokers started, locks requested, brokers
  stopped) are recorded in the state.
 */
module Supervisor {
  import opened Wrappers
  import opened Strings
  import opened Discovery
  import opened Template

  datatype LockOutcome = Acquired | Failed

  /** What one pass of the loop observes. */
  datatype Tick = Tick(returncode: Option<int>, discovery: Response, lock: LockOutcome)

  /**
    How `main` ends: it returns a code, an exception escapes from discovery or from
    the lock client, or the script runs out.
   */
  datatype Outcome = Exit(code: int) | DiscoveryRaised | CoordinationRaised | Interrupted

  /** A `KazooClient(hosts=...)` and the lock path it was asked to take. */
  datatype LockRequest = LockRequest(hosts: string, path: string)

  /**
    The loop's variables (`loops`, `zk_conn`, the running broker's property text)
    and what has happened so far: the ensembles the broker was started with, the
    lock requests, the number of lock clients stopped again (`zk.stop()`), and the
    number of brokers stopped.
   */
  datatype State = State(loops: int, zkConn: seq<string>, properties: string,
                         starts: seq<seq<string>>, locks: seq<LockRequest>, released: nat, stops: nat)

  datatype Next = Continue(state: State) | Stop(state: State, outcome: Outcome)

  /** The effects of a whole run, and how it ended. */
  datatype Report = Report(outcome: Outcome, starts: seq<seq<string>>, locks: seq<LockRequest>, released: nat, stops: nat)

  /** `os.environ.get('EXHIBITOR_BASE')`, where an unset or empty variable is refused. */
  function ExhibitorBase(env: map<string, string>): Option<string> {
    if "EXHIBITOR_BASE" in env && env["EXHIBITOR_BASE"] != "" then Some(env["EXHIBITOR_BASE"]) else None
  }

  /** `'/kafka-exhibitor/%s' % exhibitor`. */
  function LockPath(exhibitor: string): string {
    "/kafka-exhibitor/" + exhibitor
  }

  /** The restart condition: the ensemble differs and is no shorter than the current one. */
  predicate Recognized(current: seq<string>, latest: seq<string>) {
    latest != current && |latest| >= |current|
  }

  /** Python truthiness of `returncode`: `None` and `0` both read as "still running". */
  predicate Died(returncode: Option<int>) {
    returncode.Some? && returncode.value != 0
  }

  /** The state right after the first `start_kafka`. */
  function Initial(base: string, loops: int, zkConn: seq<string>): State {
    State(loops, zkConn, StartKafka(base, zkConn), [zkConn], [], 0, 0)
  }

  /** One pass of the loop body. */
  function Step(base: string, exhibitor: string, s: State, t: Tick): Next {
    if Died(t.returncode) then Stop(s, Exit(t.returncode.value))
    else
      match ConnString(t.discovery)
      case Failure(_) => Stop(s, DiscoveryRaised)
      case Success(cur) =>
        if !Recognized(s.zkConn, cur) then Continue(s.(loops := s.loops - 1))
        else
          // The `finally` clause stops the lock client whether or not the lock was taken.
          var attempted := s.(locks := s.locks + [LockRequest(Join(cur, ","), LockPath(exhibitor))],
                              released := s.released + 1);
          if t.lock.Failed? then Stop(attempted, CoordinationRaised)
          else
            Continue(attempted.(loops := s.loops - 1, zkConn := cur, properties := StartKafka(base, cur),
                                starts := s.starts + [cur], stops := s.stops + 1))
  }

  /** `while loops != 0`, one tick per pass. */
  function Loop(base: string, exhibitor: string, s: State, script: seq<Tick>): (State, Outcome)
    decreases |script|
  {
    if s.loops == 0 then (s, Exit(0))
    else if script == [] then (s, Interrupted)
    else
      match Step(base, exhibitor, s, script[0])
      case Continue(next) => Loop(base, exhibitor, next, script[1..])
      case Stop(last, o) => (last, o)
  }

  /** `main(loops)`: the environment, the template file, the first discovery and the loop's ticks. */
  function Run(loops: int, env: map<string, string>, template: string, initial: Response, script: seq<Tick>): Report {
    match ExhibitorBase(env)
    case None => Report(Exit(-1), [], [], 0, 0)
    case Some(exhibitor) => Watch(Expand(template, env, Defaults(env)), exhibitor, loops, initial, script)
  }

  /** `main` from line 55 on, once the properties template has been expanded into `base`. */
  function Watch(base: string, exhibitor: string, loops: int, initial: Response, script: seq<Tick>): Report {
    match ConnString(initial)
    case Failure(_) => Report(DiscoveryRaised, [], [], 0, 0)
    case Success(zkConn) =>
      var (last, o) := Loop(base, exhibitor, Initial(base, loops, zkConn), script);
      Report(o, last.starts, last.locks, last.released, last.stops)
  }

  /** `main`: the exit for a missing exhibitor, the template expansion, then the loop. */
  method Supervise(loops: int, env: map<string, string>, template: string, initial: Response, script: seq<Tick>)
    returns (report: Report)
    ensures report == Run(loops, env, template, initial, script)
  {
    var exhibitor := ExhibitorBase(env);
    if exhibitor.None? {
      return Report(Exit(-1), [], [], 0, 0);
    }
    var base := ServerTemplate(template, env);
    report := Supervising(base, exhibitor.value, loops, initial, script);
  }

  /** `main`'s discovery, first start and loop, statement by statement. */
  method Supervising(base: string, exhibitor: string, loops: int, initial: Response, script: seq<Tick>)
    returns (report: Report)
    ensures report == Watch(base, exhibitor, loops, initial, script)
  {
    var discovered := ConnString(initial);
    if discovered.Failure? {
      return Report(DiscoveryRaised, [], [], 0, 0);
    }
    ghost var start := Initial(base, loops, discovered.value);
    var zkConn := discovered.value;
    var properties := StartKafka(base, zkConn);
    var starts: seq<seq<string>>, locks: seq<LockRequest>, released: nat, stops: nat := [zkConn], [], 0, 0;
    var remaining := loops;
    var i := 0;
    while remaining != 0
      invariant 0 <= i <= |script|
      invariant Loop(base, exhibitor, State(remaining, zkConn, properties, starts, locks, released, stops), script[i..])
                == Loop(base, exhibitor, start, script)
      decreases |script| - i
    {
      if i == |script| {
        return Report(Interrupted, starts, locks, released, stops);
      }
      var tick := script[i];
      ghost var before := State(remaining, zkConn, properties, starts, locks, released, stops);
      assert script[i..][0] == tick && script[i..][1..] == script[i + 1..];
      if tick.returncode.Some? && tick.returncode.value != 0 {
        LoopStop(base, exhibitor, before, script[i..], before, Exit(tick.returncode.value));
        return Report(Exit(tick.returncode.value), starts, locks, released, stops);
      }
      var current := ConnString(tick.discovery);
      if current.Failure? {
        LoopStop(base, exhibitor, before, script[i..], before, DiscoveryRaised);
        return Report(DiscoveryRaised, starts, locks, released, stops);
      }
      var curZk := current.value;
      ghost var after := before.(loops := remaining - 1);
      if curZk != zkConn && |curZk| >= |zkConn| {
        locks := locks + [LockRequest(Join(curZk, ","), LockPath(exhibitor))];
        if tick.lock == Failed {
          // `finally: zk.stop()` before the exception leaves the loop.
          released := released + 1;
          LockFailedPass(base, exhibitor, before, script[i..], curZk);
          return Report(CoordinationRaised, starts, locks, released, stops);
        }
        stops := stops + 1;
        properties := StartKafka(base, curZk);
        starts := starts + [curZk];
        zkConn := curZk;
        released := released + 1;
        after := State(remaining - 1, zkConn, properties, starts, locks, released, stops);
        RestartPass(base, exhibitor, before, script[i..], curZk, after);
      } else {
        LoopContinue(base, exhibitor, before, script[i..], after);
      }
      assert after == State(remaining - 1, zkConn, properties, starts, locks, released, stops);
      remaining := remaining - 1;
      i := i + 1;
    }
    return Report(Exit(0), starts, locks, released, stops);
  }

  // ---------------------------------------------------------------------------
  // What a run keeps true.

  /**
    The broker runs the properties of the last ensemble it was started with; every
    restart was triggered by a recognised change and preceded by a lock request for
    that new ensemble on the exhibitor's lock path; one broker was stopped per restart.
   */
  ghost predicate Consistent(base: string, exhibitor: string, s: State) {
    && |s.starts| >= 1
    && s.zkConn == s.starts[|s.starts| - 1]
    && s.properties == StartKafka(base, s.zkConn)
    && s.stops == |s.starts| - 1
    && |s.locks| == s.stops
    && s.released == |s.locks|
    && (forall k :: 0 <= k < |s.locks| ==> s.locks[k] == LockRequest(Join(s.starts[k + 1], ","), LockPath(exhibitor)))
    && (forall k :: 0 < k < |s.starts| ==> Recognized(s.starts[k - 1], s.starts[k]))
  }

  /**
    How a run may end: consistent, except that after a failed lock attempt there is
    one lock request for which no restart happened.
   */
  ghost predicate Settled(base: string, exhibitor: string, s: State, o: Outcome) {
    if o.CoordinationRaised? then
      |s.locks| == s.stops + 1 && s.released == |s.locks| && s.locks[s.stops].path == LockPath(exhibitor) &&
      Consistent(base, exhibitor, s.(locks := s.locks[..s.stops], released := s.stops))
    else Consistent(base, exhibitor, s)
  }

  lemma StepConsistent(base: string, exhibitor: string, s: State, t: Tick)
    requires Consistent(base, exhibitor, s)
    ensures Step(base, exhibitor, s, t).Continue? ==> Consistent(base, exhibitor, Step(base, exhibitor, s, t).state)
    ensures Step(base, exhibitor, s, t).Stop? ==>
              Settled(base, exhibitor, Step(base, exhibitor, s, t).state, Step(base, exhibitor, s, t).outcome)
  {
    var next := Step(base, exhibitor, s, t);
    if next.Stop? && next.outcome.CoordinationRaised? {
      assert next.state.locks[..s.stops] == s.locks;
    }
  }

  /** A run started consistently ends settled. */
  lemma {:induction false} LoopSettled(base: string, exhibitor: string, s: State, script: seq<Tick>)
    requires Consistent(base, exhibitor, s)
    ensures Settled(base, exhibitor, Loop(base, exhibitor, s, script).0, Loop(base, exhibitor, s, script).1)
    decreases |script|
  {
    if s.loops != 0 && script != [] {
      StepConsistent(base, exhibitor, s, script[0]);
      var next := Step(base, exhibitor, s, script[0]);
      if next.Continue? {
        LoopSettled(base, exhibitor, next.state, script[1..]);
      }
    }
  }

  /** The record of a run is only ever appended to. */
  lemma {:induction false} LoopExtends(base: string, exhibitor: string, s: State, script: seq<Tick>)
    ensures s.starts <= Loop(base, exhibitor, s, script).0.starts
    ensures s.locks <= Loop(base, exhibitor, s, script).0.locks
    ensures s.stops <= Loop(base, exhibitor, s, script).0.stops
    decreases |script|
  {
    if s.loops != 0 && script != [] {
      var next := Step(base, exhibitor, s, script[0]);
      if next.Continue? {
        LoopExtends(base, exhibitor, next.state, script[1..]);
      }
    }
  }

  /**
    A whole run, once the exhibitor is known: a malformed first answer raises before
    any broker is started; otherwise the broker is first started with the first
    ensemble found, and every later start follows a recognised change and a lock
    request for it on the exhibitor's lock path.
   */
  lemma WatchSettled(base: string, exhibitor: string, loops: int, initial: Response, script: seq<Tick>)
    ensures initial.Malformed? ==> Watch(base, exhibitor, loops, initial, script) == Report(DiscoveryRaised, [], [], 0, 0)
    ensures !initial.Malformed? ==>
              var r := Watch(base, exhibitor, loops, initial, script);
              && r.starts != [] && r.starts[0] == ConnString(initial).value
              && r.stops == |r.starts| - 1
              && |r.locks| == r.stops + (if r.outcome.CoordinationRaised? then 1 else 0)
              && r.released == |r.locks|
              && (forall k :: 0 <= k < r.stops ==> r.locks[k] == LockRequest(Join(r.starts[k + 1], ","), LockPath(exhibitor)))
              && (forall k :: 0 <= k < |r.locks| ==> r.locks[k].path == LockPath(exhibitor))
              && (forall k :: 0 < k < |r.starts| ==> Recognized(r.starts[k - 1], r.starts[k]))
  {
    if !initial.Malformed? {
      var s := Initial(base, loops, ConnString(initial).value);
      LoopSettled(base, exhibitor, s, script);
      LoopExtends(base, exhibitor, s, script);
      var (last, o) := Loop(base, exhibitor, s, script);
      assert last.starts[0] == s.starts[0];
      if o.CoordinationRaised? {
        assert forall k :: 0 <= k < last.stops ==> last.locks[k] == last.locks[..last.stops][k];
      }
    }
  }

  /** Without a usable `EXHIBITOR_BASE` the supervisor returns -1 and starts nothing. */
  lemma NoExhibitor(loops: int, env: map<string, string>, template: string, initial: Response, script: seq<Tick>)
    requires !("EXHIBITOR_BASE" in env) || env["EXHIBITOR_BASE"] == ""
    ensures Run(loops, env, template, initial, script) == Report(Exit(-1), [], [], 0, 0)
  {
  }

  /** Consecutive recognised ensembles never get shorter, so no ensemble started is shorter than an earlier one. */
  lemma {:induction false} EnsembleNeverShrinks(starts: seq<seq<string>>, i: int, j: int)
    requires forall k :: 0 < k < |starts| ==> Recognized(starts[k - 1], starts[k])
    requires 0 <= i <= j < |starts|
    ensures |starts[i]| <= |starts[j]|
    decreases j - i
  {
    if i < j {
      EnsembleNeverShrinks(starts, i, j - 1);
      assert Recognized(starts[j - 1], starts[j]);
    }
  }

  /** A recognised ensemble is never empty: an unreachable exhibitor never triggers a restart. */
  lemma RecognizedNonEmpty(current: seq<string>, latest: seq<string>)
    requires Recognized(current, latest)
    ensures latest != []
  {
  }

  // ---------------------------------------------------------------------------
  // How a run ends.

  /** A pass that neither stops the broker's watch nor fails. */
  predicate Calm(t: Tick) {
    !Died(t.returncode) && !t.discovery.Malformed? && t.lock.Acquired?
  }

  /** The number of passes of the loop that run to their end (`loops -= 1`). */
  function Passes(base: string, exhibitor: string, s: State, script: seq<Tick>): nat
    decreases |script|
  {
    if s.loops == 0 || script == [] then 0
    else
      match Step(base, exhibitor, s, script[0])
      case Continue(next) => 1 + Passes(base, exhibitor, next, script[1..])
      case Stop(_, _) => 0
  }

  /**
    Each completed pass decrements `loops` once, and the run stops within the script:
    at most `|script|` passes complete, and from a non-negative start at most `loops`.
   */
  lemma {:induction false} LoopCountsDown(base: string, exhibitor: string, s: State, script: seq<Tick>)
    ensures Loop(base, exhibitor, s, script).0.loops == s.loops - Passes(base, exhibitor, s, script)
    ensures Passes(base, exhibitor, s, script) <= |script|
    ensures s.loops >= 0 ==> Passes(base, exhibitor, s, script) <= s.loops
    ensures var (last, o) := Loop(base, exhibitor, s, script);
            s.loops >= 0 ==> 0 <= last.loops <= s.loops
    ensures var (last, o) := Loop(base, exhibitor, s, script);
            s.loops < 0 ==> s.loops - |script| <= last.loops <= s.loops
    decreases |script|
  {
    if s.loops != 0 && script != [] {
      var next := Step(base, exhibitor, s, script[0]);
      if next.Continue? {
        LoopCountsDown(base, exhibitor, next.state, script[1..]);
      }
    }
  }

  /** With `loops < 0` (the default) the supervisor never returns 0. */
  lemma NegativeLoopsNeverReturnZero(base: string, exhibitor: string, s: State, script: seq<Tick>)
    requires s.loops < 0
    ensures Loop(base, exhibitor, s, script).1 != Exit(0)
  {
    LoopCountsDown(base, exhibitor, s, script);
    LoopExitZero(base, exhibitor, s, script);
  }

  /** Returning 0 means the loop counted `loops` down to zero. */
  lemma {:induction false} LoopExitZero(base: string, exhibitor: string, s: State, script: seq<Tick>)
    ensures Loop(base, exhibitor, s, script).1 == Exit(0) ==> Loop(base, exhibitor, s, script).0.loops == 0
    decreases |script|
  {
    if s.loops != 0 && script != [] {
      var next := Step(base, exhibitor, s, script[0]);
      if next.Continue? {
        LoopExitZero(base, exhibitor, next.state, script[1..]);
      }
    }
  }

  /**
    A non-zero code returned from the loop is the `returncode` of one of the ticks:
    the supervisor passes on the code of the broker that died.
   */
  lemma {:induction false} LoopExitCode(base: string, exhibitor: string, s: State, script: seq<Tick>)
    ensures var o := Loop(base, exhibitor, s, script).1;
            o.Exit? && o.code != 0 ==> exists k :: 0 <= k < |script| && script[k].returncode == Some(o.code)
    decreases |script|
  {
    if s.loops != 0 && script != [] {
      var next := Step(base, exhibitor, s, script[0]);
      if next.Continue? {
        LoopExitCode(base, exhibitor, next.state, script[1..]);
        var o := Loop(base, exhibitor, next.state, script[1..]).1;
        if o.Exit? && o.code != 0 {
          var k :| 0 <= k < |script[1..]| && script[1..][k].returncode == Some(o.code);
          assert script[k + 1].returncode == Some(o.code);
        }
      }
    }
  }

  /**
    A run of `n >= 0` loops whose first `n` ticks are calm returns 0 after using
    exactly those ticks.
   */
  lemma {:induction false} CalmRunReturnsZero(base: string, exhibitor: string, s: State, script: seq<Tick>)
    requires 0 <= s.loops <= |script|
    requires forall k :: 0 <= k < s.loops ==> Calm(script[k])
    ensures Loop(base, exhibitor, s, script).1 == Exit(0)
    decreases |script|
  {
    if s.loops != 0 {
      var next := Step(base, exhibitor, s, script[0]);
      assert Calm(script[0]);
      assert next.Continue? && next.state.loops == s.loops - 1;
      assert forall k :: 0 <= k < s.loops - 1 ==> script[1..][k] == script[k + 1];
      CalmRunReturnsZero(base, exhibitor, next.state, script[1..]);
    }
  }

  /**
    Conversely, returning 0 means `loops` was not negative, the script held `loops`
    ticks, and none of them saw the broker dead or the cluster list malformed.
   */
  lemma {:induction false} ExitZeroMeansHealthy(base: string, exhibitor: string, s: State, script: seq<Tick>)
    requires Loop(base, exhibitor, s, script).1 == Exit(0)
    ensures 0 <= s.loops <= |script|
    ensures forall k :: 0 <= k < s.loops ==> !Died(script[k].returncode) && !script[k].discovery.Malformed?
    decreases |script|
  {
    if s.loops != 0 {
      var next := Step(base, exhibitor, s, script[0]);
      ExitZeroMeansHealthy(base, exhibitor, next.state, script[1..]);
      forall k | 0 < k < s.loops ensures !Died(script[k].returncode) && !script[k].discovery.Malformed? {
        assert script[k] == script[1..][k - 1];
      }
    }
  }

  // ---------------------------------------------------------------------------
  // Single passes.

  /**
    A broker that exits with status 0 is not noticed: `returncode` 0 is falsy, so the
    pass goes on exactly as if the broker were still running.
   */
  lemma ExitZeroIgnored(base: string, exhibitor: string, s: State, t: Tick)
    ensures Step(base, exhibitor, s, t.(returncode := Some(0))) == Step(base, exhibitor, s, t.(returncode := None))
  {
  }

  /** A dead broker ends the run with its code before anything else is looked at. */
  lemma DeathFirst(base: string, exhibitor: string, s: State, t: Tick)
    requires Died(t.returncode)
    ensures Step(base, exhibitor, s, t) == Stop(s, Exit(t.returncode.value))
  {
  }

  /**
    A pass that finds the exhibitor unreachable, or the same servers in any order,
    changes nothing but the loop counter: no lock is requested and no broker restarted.
   */
  lemma SteadyEnsemble(base: string, exhibitor: string, s: State, t: Tick, servers: seq<string>, port: int)
    requires !Died(t.returncode)
    requires s.zkConn == ConnString(Cluster(servers, port)).value
    requires t.discovery.Unreachable? || (t.discovery.Cluster? && t.discovery.port == port &&
                                           multiset(t.discovery.servers) == multiset(servers))
    ensures Step(base, exhibitor, s, t) == Continue(s.(loops := s.loops - 1))
  {
    if t.discovery.Cluster? {
      ConnStringCanonical(t.discovery.servers, servers, port);
    } else if Recognized(s.zkConn, []) {
      RecognizedNonEmpty(s.zkConn, []);
    }
  }

  /**
    The lock client is given the new ensemble as one comma-separated string, from which
    the ensemble's entries are recovered exactly when no server name contains a comma.
   */
  lemma LockHostsRecoverable(base: string, exhibitor: string, s: State, t: Tick)
    requires t.discovery.Cluster?
    requires forall i :: 0 <= i < |t.discovery.servers| ==> ',' !in t.discovery.servers[i]
    requires |Step(base, exhibitor, s, t).state.locks| > |s.locks|
    ensures Split(Step(base, exhibitor, s, t).state.locks[|s.locks|].hosts, ',') == ConnString(t.discovery).value
  {
    var cur := ConnString(t.discovery).value;
    RecognizedNonEmpty(s.zkConn, cur);
    ConnStringAlphabet(t.discovery, ',');
    SplitJoin(cur, ',');
  }

  /**
    A recognised change with the lock acquired records the lock request, stops the
    broker, starts it with the new ensemble's properties and adopts that ensemble.
   */
  lemma StepRestart(base: string, exhibitor: string, s: State, t: Tick, cur: seq<string>)
    requires !Died(t.returncode) && ConnString(t.discovery) == Success(cur)
    requires Recognized(s.zkConn, cur) && t.lock.Acquired?
    ensures Step(base, exhibitor, s, t) == Continue(State(s.loops - 1, cur, StartKafka(base, cur), s.starts + [cur],
                                                           s.locks + [LockRequest(Join(cur, ","), LockPath(exhibitor))],
                                                           s.released + 1, s.stops + 1))
  {
  }

  /** A pass that stops ends the loop with its state and outcome. */
  lemma LoopStop(base: string, exhibitor: string, s: State, script: seq<Tick>, last: State, o: Outcome)
    requires s.loops != 0 && script != [] && Step(base, exhibitor, s, script[0]) == Stop(last, o)
    ensures Loop(base, exhibitor, s, script) == (last, o)
  {
  }

  /** A pass whose lock attempt fails ends the loop right after the lock request. */
  lemma LockFailedPass(base: string, exhibitor: string, s: State, script: seq<Tick>, cur: seq<string>)
    requires s.loops != 0 && script != [] && !Died(script[0].returncode)
    requires ConnString(script[0].discovery) == Success(cur) && Recognized(s.zkConn, cur) && script[0].lock.Failed?
    ensures Loop(base, exhibitor, s, script)
            == (s.(locks := s.locks + [LockRequest(Join(cur, ","), LockPath(exhibitor))], released := s.released + 1),
                CoordinationRaised)
  {
  }

  /** A pass that restarts the broker hands the rest of the ticks to the restarted state. */
  lemma RestartPass(base: string, exhibitor: string, s: State, script: seq<Tick>, cur: seq<string>, next: State)
    requires s.loops != 0 && script != [] && !Died(script[0].returncode)
    requires ConnString(script[0].discovery) == Success(cur) && Recognized(s.zkConn, cur) && script[0].lock.Acquired?
    requires next == State(s.loops - 1, cur, StartKafka(base, cur), s.starts + [cur],
                           s.locks + [LockRequest(Join(cur, ","), LockPath(exhibitor))], s.released + 1, s.stops + 1)
    ensures Loop(base, exhibitor, s, script) == Loop(base, exhibitor, next, script[1..])
  {
    StepRestart(base, exhibitor, s, script[0], cur);
  }

  /** A pass that continues hands the rest of the ticks to the state it produced. */
  lemma LoopContinue(base: string, exhibitor: string, s: State, script: seq<Tick>, next: State)
    requires s.loops != 0 && script != [] && Step(base, exhibitor, s, script[0]) == Continue(next)
    ensures Loop(base, exhibitor, s, script) == Loop(base, exhibitor, next, script[1..])
  {
  }

  /**
    The restart rule of one pass, both ways: the lock is requested exactly when the
    broker is alive, discovery succeeds and the ensemble is a recognised change; the
    broker is restarted exactly when, in addition, the lock is acquired. Otherwise the
    pass changes no more than the loop counter.
   */
  lemma StepRestartsIff(base: string, exhibitor: string, s: State, t: Tick)
    ensures var next := Step(base, exhibitor, s, t);
            |next.state.locks| == |s.locks| + 1 <==>
              !Died(t.returncode) && ConnString(t.discovery).Success? && Recognized(s.zkConn, ConnString(t.discovery).value)
    ensures var next := Step(base, exhibitor, s, t);
            |next.state.starts| == |s.starts| + 1 <==>
              !Died(t.returncode) && ConnString(t.discovery).Success? &&
              Recognized(s.zkConn, ConnString(t.discovery).value) && t.lock.Acquired?
    ensures var next := Step(base, exhibitor, s, t);
            |next.state.locks| == |s.locks| ==> next.state == s || next.state == s.(loops := s.loops - 1)
  {
  }

  /**
    The ensembles a calm run adopts, as a reference: scanning the lists discovered,
    each one that is a recognised change from the one before it is adopted.
   */
  function Adopted(current: seq<string>, found: seq<seq<string>>): seq<seq<string>>
    decreases |found|
  {
    if found == [] then []
    else if Recognized(current, found[0]) then [found[0]] + Adopted(found[0], found[1..])
    else Adopted(current, found[1..])
  }

  /** The connection list a discovery renders to, an unreadable answer as the empty list. */
  function Found(r: Response): seq<string> {
    match ConnString(r) case Success(c) => c case Failure(_) => []
  }

  /** The connection lists of the ticks' discoveries. */
  function Discovered(ticks: seq<Tick>): (lists: seq<seq<string>>)
    ensures |lists| == |ticks|
  {
    if ticks == [] then [] else [Found(ticks[0].discovery)] + Discovered(ticks[1..])
  }

  /** Every tick is calm. */
  predicate AllCalm(ticks: seq<Tick>) {
    ticks == [] || (Calm(ticks[0]) && AllCalm(ticks[1..]))
  }

  /** A calm pass continues, restarting the broker exactly on a recognised change. */
  lemma CalmStep(base: string, exhibitor: string, s: State, t: Tick)
    requires Calm(t)
    ensures Step(base, exhibitor, s, t).Continue?
    ensures var cur, next := ConnString(t.discovery).value, Step(base, exhibitor, s, t).state;
            && next.loops == s.loops - 1
            && next.starts == s.starts + (if Recognized(s.zkConn, cur) then [cur] else [])
            && next.stops == s.stops + (if Recognized(s.zkConn, cur) then 1 else 0)
            && next.zkConn == (if Recognized(s.zkConn, cur) then cur else s.zkConn)
  {
    assert s.starts + [] == s.starts;
  }

  /** The effects of one calm pass followed by those of the rest of a calm run. */
  lemma CalmCompose(s: State, next: State, last: State, cur: seq<string>, rest: seq<seq<string>>)
    requires next.starts == s.starts + (if Recognized(s.zkConn, cur) then [cur] else [])
    requires next.stops == s.stops + (if Recognized(s.zkConn, cur) then 1 else 0)
    requires next.zkConn == (if Recognized(s.zkConn, cur) then cur else s.zkConn)
    requires var later := Adopted(next.zkConn, rest);
             last.starts == next.starts + later && last.stops == next.stops + |later| &&
             last.zkConn == (if later == [] then next.zkConn else later[|later| - 1])
    ensures var adopted := Adopted(s.zkConn, [cur] + rest);
            last.starts == s.starts + adopted && last.stops == s.stops + |adopted| &&
            last.zkConn == (if adopted == [] then s.zkConn else adopted[|adopted| - 1])
  {
    assert ([cur] + rest)[0] == cur && ([cur] + rest)[1..] == rest;
    var later := Adopted(next.zkConn, rest);
    if Recognized(s.zkConn, cur) {
      var adopted := [cur] + later;
      assert s.starts + [cur] + later == s.starts + adopted;
      assert adopted[|adopted| - 1] == if later == [] then cur else later[|later| - 1];
    } else {
      assert s.starts + [] == s.starts;
    }
  }

  /**
    A calm run of `n` loops starts the broker once more for each ensemble adopted from
    the first `n` discoveries and stops it as often, and ends with the last ensemble
    adopted (or the first one, when none was).
   */
  lemma {:induction false} CalmRunStarts(base: string, exhibitor: string, s: State, script: seq<Tick>)
    requires 0 <= s.loops <= |script| && AllCalm(script[..s.loops])
    ensures var last := Loop(base, exhibitor, s, script).0;
            var adopted := Adopted(s.zkConn, Discovered(script[..s.loops]));
            last.starts == s.starts + adopted && last.stops == s.stops + |adopted| &&
            last.zkConn == (if adopted == [] then s.zkConn else adopted[|adopted| - 1])
    decreases |script|
  {
    var ticks := script[..s.loops];
    if s.loops == 0 {
      assert ticks == [];
      assert s.starts + [] == s.starts;
    } else {
      var t := script[0];
      assert ticks[0] == t && ticks[1..] == script[1..][..s.loops - 1];
      CalmStep(base, exhibitor, s, t);
      var cur, next := ConnString(t.discovery).value, Step(base, exhibitor, s, t).state;
      assert Found(t.discovery) == cur;
      LoopContinue(base, exhibitor, s, script, next);
      CalmRunStarts(base, exhibitor, next, script[1..]);
      assert Discovered(ticks) == [cur] + Discovered(ticks[1..]);
      CalmCompose(s, next, Loop(base, exhibitor, next, script[1..]).0, cur, Discovered(ticks[1..]));
    }
  }


}
