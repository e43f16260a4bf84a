/**
 * `SonarDaemon.run`: the monitoring loop. Each cycle resolves the default
 * route, skips the cycle unless the route leaves through a WiFi interface,
 * pings the target and, when the ping fails, waits out a grace period and
 * then alternates single pings with WiFi restarts until a ping succeeds,
 * pausing for a full interval after every third restart.
 *
 * The operating system is replaced by inputs: the result of the route
 * query and the results of the pings, in the order in which the code
 * issues them. What the code does to the outside world (pings, restarts,
 * sleeps and the final report) is recorded as a trace of events. A Ping
 * event stands for a ping whose result was taken from the inputs; when
 * the inputs run out during an outage the model stops there.
 */
module Orchestrator {
  import opened Wrappers
  import opened Commands
  import opened Routes

  /** The `[sonar]` options after parsing. */
  datatype Config = Config(
    enable: bool,
    debugLog: bool,
    persistentLog: bool,
    target: string,
    count: int,
    interval: int,
    restartThreshold: int)

  /** The fallback of every option (`debug_log` falls back to true). */
  const Defaults := Config(false, true, false, "auto", 3, 60, 10)

  /** The fixed wait after each restart, in seconds. */
  const SettleSeconds := 10

  /** The number of restarts after which the loop pauses for an interval. */
  const Strikes := 3

  datatype Event =
    | QueryRoute
    | Ping(target: string, count: int)
    | Restart(iface: string)
    | Sleep(seconds: int)
    | Reported(attempts: nat)

  // ---------------------------------------------------------------------
  // Gating a cycle

  /** `str.startswith(('wl', 'wlan', 'wlp'))`. */
  predicate IsWifiInterface(name: string) {
    "wl" <= name || "wlan" <= name || "wlp" <= name
  }

  /** The three accepted prefixes amount to the single prefix `wl`. */
  lemma {:induction false} WifiMeansWlPrefix(name: string)
    ensures IsWifiInterface(name) <==> "wl" <= name
  {
  }

  datatype Gate =
    | NoGateway(reason: ResolveError)
    | NotWifi(iface: string)
    | Monitor(target: string, iface: string)

  /** The checks at the top of a cycle, and the choice of the ping target. */
  function GateCycle(cfg: Config, r: Resolution): Gate {
    match r
    case NotFound(why) => NoGateway(why)
    case Found(route) =>
      if !IsWifiInterface(route.interface) then NotWifi(route.interface)
      else Monitor(if cfg.target == "auto" then route.gateway else cfg.target, route.interface)
  }

  /** A cycle is monitored exactly when a route was found and its interface
      starts with `wl`; the target is the gateway when the configured target
      is `auto`, the configured target otherwise, and restarts go to the
      route's interface. */
  lemma {:induction false} GateMonitorsIff(cfg: Config, r: Resolution)
    ensures GateCycle(cfg, r).Monitor? <==> r.Found? && "wl" <= r.route.interface
    ensures GateCycle(cfg, r).Monitor? ==>
      && GateCycle(cfg, r).iface == r.route.interface
      && GateCycle(cfg, r).target == (if cfg.target == "auto" then r.route.gateway else cfg.target)
  {
  }

  // ---------------------------------------------------------------------
  // The recovery session: the inner `while not ping_target(target, 1)` loop

  /** The number of failed pings before the first success. */
  function LeadingFailures(outcomes: seq<bool>): (k: nat)
    ensures k <= |outcomes|
    ensures forall j :: 0 <= j < k ==> !outcomes[j]
    ensures k < |outcomes| ==> outcomes[k]
  {
    if outcomes == [] || outcomes[0] then 0 else 1 + LeadingFailures(outcomes[1..])
  }

  /** The events of the `j`-th pass through the loop body (counting from 1):
      the failed ping that let it in, the restart, the settle wait, and the
      pause when this is a multiple of three restarts. */
  function AttemptBlock(target: string, iface: string, interval: int, j: nat): seq<Event> {
    [Ping(target, 1), Restart(iface), Sleep(SettleSeconds)]
      + (if j % Strikes == 0 then [Sleep(interval)] else [])
  }

  function Attempts(target: string, iface: string, interval: int, k: nat): seq<Event> {
    if k == 0 then [] else Attempts(target, iface, interval, k - 1) + AttemptBlock(target, iface, interval, k)
  }

  datatype SessionEnd = Reconnected(attempts: nat) | Unresolved(attempts: nat)

  /** How a session with these ping results ends. */
  function SessionEndOf(outcomes: seq<bool>): SessionEnd {
    var k := LeadingFailures(outcomes);
    if k < |outcomes| then Reconnected(k) else Unresolved(k)
  }

  /** The events of a session: the grace wait, one block per failed ping,
      and on success the successful ping and the report. */
  function SessionTrace(target: string, iface: string, interval: int, threshold: int,
                        outcomes: seq<bool>): seq<Event> {
    var k := LeadingFailures(outcomes);
    [Sleep(threshold)] + Attempts(target, iface, interval, k)
      + (if k < |outcomes| then [Ping(target, 1), Reported(k)] else [])
  }

  /** The recovery loop at sonar.py:244-266, driven by the results of its
      single pings. `usedRetries` counts every restart of the session;
      `retryCount` counts restarts since the last pause. */
  method Recover(target: string, iface: string, interval: int, threshold: int, outcomes: seq<bool>)
    returns (trace: seq<Event>, end: SessionEnd)
    ensures trace == SessionTrace(target, iface, interval, threshold, outcomes)
    ensures end == SessionEndOf(outcomes)
  {
    trace := [Sleep(threshold)];
    var retryCount := 0;
    var usedRetries := 0;
    // each test of the loop condition takes the next ping result, so the
    // number of results used so far equals the number of restarts
    while usedRetries < |outcomes| && !outcomes[usedRetries]
      invariant usedRetries <= |outcomes|
      invariant forall j :: 0 <= j < usedRetries ==> !outcomes[j]
      invariant 0 <= retryCount < Strikes && retryCount == usedRetries % Strikes
      invariant trace == [Sleep(threshold)] + Attempts(target, iface, interval, usedRetries)
    {
      trace := trace + [Ping(target, 1)];
      usedRetries := usedRetries + 1;
      retryCount := retryCount + 1;
      trace := trace + [Restart(iface), Sleep(SettleSeconds)];
      if retryCount == Strikes {
        trace := trace + [Sleep(interval)];
        retryCount := 0;
      }
    }
    assert usedRetries == LeadingFailures(outcomes);
    if usedRetries < |outcomes| {
      trace := trace + [Ping(target, 1), Reported(usedRetries)];
      end := Reconnected(usedRetries);
    } else {
      end := Unresolved(usedRetries);
    }
  }

  // ---------------------------------------------------------------------
  // Facts about sessions

  function Restarts(t: seq<Event>): nat {
    if t == [] then 0 else (if t[0].Restart? then 1 else 0) + Restarts(t[1..])
  }

  function Pings(t: seq<Event>): nat {
    if t == [] then 0 else (if t[0].Ping? then 1 else 0) + Pings(t[1..])
  }

  lemma {:induction false} CountsAppend(a: seq<Event>, b: seq<Event>)
    ensures Restarts(a + b) == Restarts(a) + Restarts(b)
    ensures Pings(a + b) == Pings(a) + Pings(b)
  {
    if a == [] {
      assert a + b == b;
    } else {
      assert (a + b)[0] == a[0];
      assert (a + b)[1..] == a[1..] + b;
      CountsAppend(a[1..], b);
    }
  }

  /** The counts of a one-event trace. */
  lemma {:induction false} CountsSingle(e: Event)
    ensures Restarts([e]) == (if e.Restart? then 1 else 0)
    ensures Pings([e]) == (if e.Ping? then 1 else 0)
  {
  }

  /** One pass through the loop body restarts once and pings once. */
  lemma {:induction false} BlockCounts(target: string, iface: string, interval: int, j: nat)
    ensures Restarts(AttemptBlock(target, iface, interval, j)) == 1
    ensures Pings(AttemptBlock(target, iface, interval, j)) == 1
  {
    var tail: seq<Event> := if j % Strikes == 0 then [Sleep(interval)] else [];
    CountsSingle(Ping(target, 1));
    CountsSingle(Restart(iface));
    CountsSingle(Sleep(SettleSeconds));
    CountsSingle(Sleep(interval));
    assert tail == [] ==> Restarts(tail) == 0 && Pings(tail) == 0;
    CountsAppend([Ping(target, 1)], [Restart(iface)]);
    CountsAppend([Ping(target, 1), Restart(iface)], [Sleep(SettleSeconds)]);
    CountsAppend([Ping(target, 1), Restart(iface), Sleep(SettleSeconds)], tail);
  }

  /** `k` passes through the loop body restart `k` times and ping `k` times. */
  lemma {:induction false} AttemptsCounts(target: string, iface: string, interval: int, k: nat)
    ensures Restarts(Attempts(target, iface, interval, k)) == k
    ensures Pings(Attempts(target, iface, interval, k)) == k
  {
    if k > 0 {
      AttemptsCounts(target, iface, interval, k - 1);
      var b := AttemptBlock(target, iface, interval, k);
      CountsAppend(Attempts(target, iface, interval, k - 1), b);
      BlockCounts(target, iface, interval, k);
    }
  }

  /** Every ping of a session is a single ping of the session's target, and
      every restart goes to the session's interface. */
  lemma {:induction false} AttemptsUseSessionTarget(target: string, iface: string, interval: int, k: nat)
    ensures forall e :: e in Attempts(target, iface, interval, k) ==>
      (e.Ping? ==> e == Ping(target, 1)) && (e.Restart? ==> e == Restart(iface)) && !e.Reported?
  {
    if k > 0 {
      AttemptsUseSessionTarget(target, iface, interval, k - 1);
    }
  }

  /** Every restart of a session goes to the session's interface. */
  lemma {:induction false} SessionRestartsSessionInterface(target: string, iface: string, interval: int, threshold: int,
                                        outcomes: seq<bool>)
    ensures forall e :: e in SessionTrace(target, iface, interval, threshold, outcomes) && e.Restart? ==>
      e == Restart(iface)
  {
    var k := LeadingFailures(outcomes);
    var a := Attempts(target, iface, interval, k);
    AttemptsUseSessionTarget(target, iface, interval, k);
    var tail: seq<Event> := if k < |outcomes| then [Ping(target, 1), Reported(k)] else [];
    assert SessionTrace(target, iface, interval, threshold, outcomes) == [Sleep(threshold)] + a + tail;
    assert forall e :: e in [Sleep(threshold)] + a + tail ==> e == Sleep(threshold) || e in a || e in tail;
  }

  /** After `k` failed single pings and a successful one, the session has
      restarted exactly `k` times, pinged `k + 1` times, and ends reporting
      `k` attempts; a session that runs out of ping results has restarted
      once per failed ping and pinged once per result. */
  lemma {:induction false} SessionCounts(target: string, iface: string, interval: int, threshold: int, outcomes: seq<bool>)
    ensures var t := SessionTrace(target, iface, interval, threshold, outcomes);
      match SessionEndOf(outcomes)
      case Reconnected(k) =>
        Restarts(t) == k && Pings(t) == k + 1 && t[|t| - 1] == Reported(k)
      case Unresolved(k) =>
        k == |outcomes| && Restarts(t) == k && Pings(t) == |outcomes|
  {
    var k := LeadingFailures(outcomes);
    var a := Attempts(target, iface, interval, k);
    var tail: seq<Event> := if k < |outcomes| then [Ping(target, 1), Reported(k)] else [];
    AttemptsCounts(target, iface, interval, k);
    CountsAppend([Sleep(threshold)], a);
    CountsAppend([Sleep(threshold)] + a, tail);
    CountsSingle(Sleep(threshold));
    if k < |outcomes| {
      CountsSingle(Ping(target, 1));
      CountsSingle(Reported(k));
      CountsAppend([Ping(target, 1)], [Reported(k)]);
    } else {
      assert Restarts(tail) == 0 && Pings(tail) == 0;
    }
  }

  /** A successful ping after the grace wait means no restart at all. */
  lemma {:induction false} GraceSuccessNeverRestarts(target: string, iface: string, interval: int, threshold: int, outcomes: seq<bool>)
    requires outcomes != [] && outcomes[0]
    ensures SessionTrace(target, iface, interval, threshold, outcomes)
            == [Sleep(threshold), Ping(target, 1), Reported(0)]
    ensures SessionEndOf(outcomes) == Reconnected(0)
  {
  }

  /** Every restart is followed by the settle wait; a pause follows that
      wait exactly when the restart is the third, sixth, ... of the session
      (otherwise the next event is a ping, or nothing). */
  lemma {:induction false} PauseAfterEveryThirdRestart(target: string, iface: string, interval: int, k: nat, p: nat)
    requires p < |Attempts(target, iface, interval, k)|
    requires Attempts(target, iface, interval, k)[p].Restart?
    ensures var a := Attempts(target, iface, interval, k);
      && p + 1 < |a| && a[p + 1] == Sleep(SettleSeconds)
      && ((p + 2 < |a| && a[p + 2].Sleep?) <==> Restarts(a[..p + 1]) % Strikes == 0)
      && (p + 2 < |a| && a[p + 2].Sleep? ==> a[p + 2] == Sleep(interval))
      && (p + 2 < |a| && !a[p + 2].Sleep? ==> a[p + 2] == Ping(target, 1))
  {
    var a := Attempts(target, iface, interval, k);
    var prev := Attempts(target, iface, interval, k - 1);
    var b := AttemptBlock(target, iface, interval, k);
    assert a == prev + b;
    if p < |prev| {
      PauseAfterEveryThirdRestart(target, iface, interval, k - 1, p);
      assert a[..p + 1] == prev[..p + 1];
    } else {
      assert p == |prev| + 1;
      assert a[..p + 1] == prev + [Ping(target, 1), Restart(iface)];
      AttemptsCounts(target, iface, interval, k - 1);
      CountsAppend(prev, [Ping(target, 1), Restart(iface)]);
      CountsSingle(Ping(target, 1));
      CountsSingle(Restart(iface));
      CountsAppend([Ping(target, 1)], [Restart(iface)]);
      assert Restarts(a[..p + 1]) == k;
    }
  }

  // ---------------------------------------------------------------------
  // One cycle of the outer loop

  /** The route query and the ping results the host gives during one cycle. */
  datatype CycleInput = CycleInput(route: CommandResult, pings: seq<CommandResult>)

  datatype CycleEnd = Skipped | Healthy | Recovered(attempts: nat) | InputsExhausted

  datatype CycleResult = CycleResult(trace: seq<Event>, end: CycleEnd)

  function Outcomes(pings: seq<CommandResult>, debugLog: bool): (os: seq<bool>)
    ensures |os| == |pings|
    ensures forall i :: 0 <= i < |pings| ==> os[i] == PingTarget(pings[i], debugLog)
  {
    seq(|pings|, i requires 0 <= i < |pings| => PingTarget(pings[i], debugLog))
  }

  /** The events and the end of one cycle (sonar.py:225-268). */
  function Cycle(cfg: Config, input: CycleInput): CycleResult {
    var g := GateCycle(cfg, Resolve(input.route));
    if g.Monitor? then Monitored(cfg, g.target, g.iface, input.pings)
    else CycleResult([QueryRoute, Sleep(cfg.interval)], Skipped)
  }

  /** A monitored cycle: the first ping with the configured count, and the
      recovery session when it fails. */
  function Monitored(cfg: Config, target: string, iface: string, pings: seq<CommandResult>): CycleResult {
    if pings == [] then CycleResult([QueryRoute], InputsExhausted)
    else if PingTarget(pings[0], cfg.debugLog) then
      CycleResult([QueryRoute, Ping(target, cfg.count), Sleep(cfg.interval)], Healthy)
    else
      var os := Outcomes(pings[1..], cfg.debugLog);
      var session := SessionTrace(target, iface, cfg.interval, cfg.restartThreshold, os);
      match SessionEndOf(os)
      case Reconnected(k) =>
        CycleResult([QueryRoute, Ping(target, cfg.count)] + session + [Sleep(cfg.interval)], Recovered(k))
      case Unresolved(_) =>
        CycleResult([QueryRoute, Ping(target, cfg.count)] + session, InputsExhausted)
  }

  /** The monitored part of one pass of the outer loop: the first ping,
      and the recovery session when it fails. The method runs the session
      through the loop in `Recover`; the function `Monitored` it is proved
      equal to is what the lemmas about a cycle are stated on, since a
      lemma cannot call a method. */
  method RunMonitored(cfg: Config, target: string, iface: string, pings: seq<CommandResult>)
    returns (trace: seq<Event>, end: CycleEnd)
    ensures CycleResult(trace, end) == Monitored(cfg, target, iface, pings)
  {
    trace := [QueryRoute];
    if pings == [] {
      end := InputsExhausted;
      return;
    }
    trace := trace + [Ping(target, cfg.count)];
    if PingTarget(pings[0], cfg.debugLog) {
      trace := trace + [Sleep(cfg.interval)];
      end := Healthy;
    } else {
      var os := Outcomes(pings[1..], cfg.debugLog);
      var session, sessionEnd := Recover(target, iface, cfg.interval, cfg.restartThreshold, os);
      trace := trace + session;
      if sessionEnd.Reconnected? {
        trace := trace + [Sleep(cfg.interval)];
        end := Recovered(sessionEnd.attempts);
      } else {
        end := InputsExhausted;
      }
    }
  }

  /** One pass of the outer loop: resolve the route, gate the cycle, and
      run the monitored part when the gate lets it through. Like
      `RunMonitored`, it is the executable counterpart of the function
      `Cycle` that the lemmas below are about. */
  method RunCycle(cfg: Config, input: CycleInput) returns (trace: seq<Event>, end: CycleEnd)
    ensures CycleResult(trace, end) == Cycle(cfg, input)
  {
    var gate := GateCycle(cfg, Resolve(input.route));
    if gate.Monitor? {
      trace, end := RunMonitored(cfg, gate.target, gate.iface, input.pings);
    } else {
      trace := [QueryRoute, Sleep(cfg.interval)];
      end := Skipped;
    }
  }

  /** A cycle pings nothing unless a default route was found and its
      interface starts with `wl`; it then sleeps an interval. When it is
      monitored, its first ping goes to the chosen target with the
      configured count. */
  lemma {:induction false} CycleProbesOnlyWifi(cfg: Config, input: CycleInput)
    ensures var r := Resolve(input.route);
      !(r.Found? && "wl" <= r.route.interface) ==>
        Cycle(cfg, input) == CycleResult([QueryRoute, Sleep(cfg.interval)], Skipped)
    ensures var r := Resolve(input.route);
      r.Found? && "wl" <= r.route.interface && input.pings != [] ==>
        var target := if cfg.target == "auto" then r.route.gateway else cfg.target;
        |Cycle(cfg, input).trace| >= 2 && Cycle(cfg, input).trace[1] == Ping(target, cfg.count)
  {
    var r := Resolve(input.route);
    var g := GateCycle(cfg, r);
    GateMonitorsIff(cfg, r);
    if g.Monitor? && input.pings != [] {
      MonitoredStartsWithPing(cfg, g.target, g.iface, input.pings);
    }
  }

  /** A monitored cycle's first ping goes to its target with the
      configured count. */
  lemma {:induction false} MonitoredStartsWithPing(cfg: Config, target: string, iface: string, pings: seq<CommandResult>)
    requires pings != []
    ensures var c := Monitored(cfg, target, iface, pings);
      |c.trace| >= 2 && c.trace[1] == Ping(target, cfg.count)
  {
    if !PingTarget(pings[0], cfg.debugLog) {
      var os := Outcomes(pings[1..], cfg.debugLog);
      var session := SessionTrace(target, iface, cfg.interval, cfg.restartThreshold, os);
      var head := [QueryRoute, Ping(target, cfg.count)];
      assert (head + session)[1] == Ping(target, cfg.count);
      assert (head + session + [Sleep(cfg.interval)])[1] == Ping(target, cfg.count);
    }
  }

  /** A failed first ping followed by a successful grace ping: no restart,
      zero attempts reported. */
  lemma {:induction false} CycleGraceSuccess(cfg: Config, input: CycleInput)
    requires GateCycle(cfg, Resolve(input.route)).Monitor?
    requires |input.pings| >= 2
    requires !PingTarget(input.pings[0], cfg.debugLog) && PingTarget(input.pings[1], cfg.debugLog)
    ensures Cycle(cfg, input).end == Recovered(0)
    ensures Restarts(Cycle(cfg, input).trace) == 0
  {
    var g := GateCycle(cfg, Resolve(input.route));
    var os := Outcomes(input.pings[1..], cfg.debugLog);
    assert os[0];
    GraceSuccessNeverRestarts(g.target, g.iface, cfg.interval, cfg.restartThreshold, os);
    CycleRecoveredReports(cfg, input);
  }

  /** A monitored cycle that recovers after `k` attempts restarted exactly
      `k` times and reports `k` just before its closing interval sleep. */
  lemma {:induction false} MonitoredRecoveredReports(cfg: Config, target: string, iface: string, pings: seq<CommandResult>)
    requires Monitored(cfg, target, iface, pings).end.Recovered?
    ensures var c := Monitored(cfg, target, iface, pings);
      && Restarts(c.trace) == c.end.attempts
      && |c.trace| >= 2
      && c.trace[|c.trace| - 2] == Reported(c.end.attempts)
      && c.trace[|c.trace| - 1] == Sleep(cfg.interval)
  {
    var os := Outcomes(pings[1..], cfg.debugLog);
    var session := SessionTrace(target, iface, cfg.interval, cfg.restartThreshold, os);
    var k := LeadingFailures(os);
    assert pings != [] && !PingTarget(pings[0], cfg.debugLog);
    assert SessionEndOf(os) == Reconnected(k);
    var head := [QueryRoute, Ping(target, cfg.count)];
    var t := head + session + [Sleep(cfg.interval)];
    assert Monitored(cfg, target, iface, pings) == CycleResult(t, Recovered(k));
    SessionCounts(target, iface, cfg.interval, cfg.restartThreshold, os);
    assert Restarts(session) == k && session[|session| - 1] == Reported(k);
    CountsAppend(head, session);
    CountsAppend(head + session, [Sleep(cfg.interval)]);
    CountsSingle(QueryRoute);
    CountsSingle(Ping(target, cfg.count));
    CountsAppend([QueryRoute], [Ping(target, cfg.count)]);
    CountsSingle(Sleep(cfg.interval));
    assert t[|t| - 2] == session[|session| - 1];
  }

  /** A cycle that recovers after `k` attempts restarted exactly `k` times
      and reports `k` just before its closing interval sleep. */
  lemma {:induction false} CycleRecoveredReports(cfg: Config, input: CycleInput)
    requires Cycle(cfg, input).end.Recovered?
    ensures var c := Cycle(cfg, input);
      && Restarts(c.trace) == c.end.attempts
      && |c.trace| >= 2
      && c.trace[|c.trace| - 2] == Reported(c.end.attempts)
      && c.trace[|c.trace| - 1] == Sleep(cfg.interval)
  {
    var g := GateCycle(cfg, Resolve(input.route));
    MonitoredRecoveredReports(cfg, g.target, g.iface, input.pings);
  }

  /** Every restart a cycle issues goes to a WiFi interface. */
  lemma {:induction false} CycleRestartsOnlyWifi(cfg: Config, input: CycleInput)
    ensures forall e :: e in Cycle(cfg, input).trace && e.Restart? ==> "wl" <= e.iface
  {
    var r := Resolve(input.route);
    var g := GateCycle(cfg, r);
    GateMonitorsIff(cfg, r);
    if g.Monitor? && input.pings != [] && !PingTarget(input.pings[0], cfg.debugLog) {
      var os := Outcomes(input.pings[1..], cfg.debugLog);
      SessionRestartsSessionInterface(g.target, g.iface, cfg.interval, cfg.restartThreshold, os);
      var session := SessionTrace(g.target, g.iface, cfg.interval, cfg.restartThreshold, os);
      var head := [QueryRoute, Ping(g.target, cfg.count)];
      assert forall e :: e in head + session ==> e in head || e in session;
      assert forall e :: e in head + session + [Sleep(cfg.interval)] ==> e in head + session || e == Sleep(cfg.interval);
    }
  }

  // ---------------------------------------------------------------------
  // The daemon

  /** The events of consecutive cycles; the model stops in the cycle whose
      ping results run out. */
  function Daemon(cfg: Config, cycles: seq<CycleInput>): seq<Event> {
    if cycles == [] then []
    else
      var c := Cycle(cfg, cycles[0]);
      if c.end == InputsExhausted then c.trace else c.trace + Daemon(cfg, cycles[1..])
  }

  /** `run`: a disabled daemon exits with code 0 before any route query or
      ping; an enabled one never exits and runs cycle after cycle. */
  method Run(cfg: Config, cycles: seq<CycleInput>) returns (exitCode: Option<int>, trace: seq<Event>)
    ensures !cfg.enable ==> exitCode == Some(0) && trace == []
    ensures cfg.enable ==> exitCode == None && trace == Daemon(cfg, cycles)
  {
    trace := [];
    if !cfg.enable {
      exitCode := Some(0);
      return;
    }
    exitCode := None;
    var i := 0;
    while i < |cycles|
      invariant i <= |cycles|
      invariant trace + Daemon(cfg, cycles[i..]) == Daemon(cfg, cycles)
    {
      var t, end := RunCycle(cfg, cycles[i]);
      assert cycles[i..][1..] == cycles[i + 1..];
      if end == InputsExhausted {
        trace := trace + t;
        return;
      }
      trace := trace + t;
      i := i + 1;
    }
  }

  /** However many cycles run, every restart the daemon issues goes to a
      WiFi interface. */
  lemma {:induction false} DaemonRestartsOnlyWifi(cfg: Config, cycles: seq<CycleInput>)
    ensures forall e :: e in Daemon(cfg, cycles) && e.Restart? ==> "wl" <= e.iface
  {
    if cycles != [] {
      CycleRestartsOnlyWifi(cfg, cycles[0]);
      DaemonRestartsOnlyWifi(cfg, cycles[1..]);
    }
  }

  /** A gateway on `eth0`: the cycle is skipped without a ping. */
  lemma {:induction false} EthernetCycleSkipped(cfg: Config, input: CycleInput)
    requires Resolve(input.route).Found? && Resolve(input.route).route.interface == "eth0"
    ensures Cycle(cfg, input) == CycleResult([QueryRoute, Sleep(cfg.interval)], Skipped)
  {
    assert !("wl" <= "eth0") by {
      assert "eth0"[0] != "wl"[0];
    }
    CycleProbesOnlyWifi(cfg, input);
  }

  /** With target `auto` and gateway 192.168.1.1 on `wlan0`, the gateway is pinged. */
  lemma {:induction false} AutoTargetPingsGateway(cfg: Config, input: CycleInput)
    requires cfg.target == "auto" && input.pings != []
    requires Resolve(input.route).Found?
    requires Resolve(input.route).route.gateway == "192.168.1.1"
    requires Resolve(input.route).route.interface == "wlan0"
    ensures Cycle(cfg, input).trace[1] == Ping("192.168.1.1", cfg.count)
  {
  }
}
