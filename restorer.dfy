/**
 * `restart_wifi`: the remediation ladder. The code looks up `wpa_cli` on
 * the PATH, asks systemd whether `dhcpcd` and `NetworkManager` are active,
 * and then takes the first applicable branch:
 *   1. `wpa_cli` present and dhcpcd active: reassociate the interface, then
 *      restart dhcpcd;
 *   2. otherwise, NetworkManager active: restart NetworkManager;
 *   3. otherwise: log an error and run nothing.
 * The commands of a branch run with `check=True` inside one `try`, so a
 * command that exits non-zero raises `CalledProcessError` and the rest of
 * the branch is skipped; the handler logs a warning. Nothing falls through
 * to another branch.
 */
module Restorer {
  import opened Commands

  datatype Step = Reassociate(iface: string) | RestartDhcpcd | RestartNetworkManager

  /** What the host answers during one call: whether `wpa_cli` is on the
      PATH, the output of the two status queries, and the exit code each
      remediation command returns. */
  datatype Host = Host(
    wpaCliPresent: bool,
    dhcpcdStatus: CommandResult,
    networkManagerStatus: CommandResult,
    reassociateCode: int,
    dhcpcdRestartCode: int,
    networkManagerRestartCode: int)

  function ExitCode(h: Host, st: Step): int {
    match st
    case Reassociate(_) => h.reassociateCode
    case RestartDhcpcd => h.dhcpcdRestartCode
    case RestartNetworkManager => h.networkManagerRestartCode
  }

  predicate Succeeds(h: Host, st: Step) {
    ExitCode(h, st) == 0
  }

  /** The commands of the branch the ladder takes, in order. */
  function Plan(h: Host, iface: string): seq<Step> {
    if h.wpaCliPresent && IsServiceActive(h.dhcpcdStatus) then [Reassociate(iface), RestartDhcpcd]
    else if IsServiceActive(h.networkManagerStatus) then [RestartNetworkManager]
    else []
  }

  /** The commands attempted, and whether the `try` block completed. */
  datatype Run = Run(attempted: seq<Step>, completed: bool)

  /** Commands run with `check=True` inside one `try`: stop after the first
      command that exits non-zero. */
  function RunChecked(h: Host, plan: seq<Step>): (r: Run)
    ensures r.attempted <= plan
    ensures forall k :: 0 <= k < |r.attempted| - 1 ==> Succeeds(h, r.attempted[k])
    ensures r.completed <==> r.attempted == plan && forall k :: 0 <= k < |plan| ==> Succeeds(h, plan[k])
    ensures !r.completed ==> r.attempted != [] && !Succeeds(h, r.attempted[|r.attempted| - 1])
  {
    if plan == [] then Run([], true)
    else if !Succeeds(h, plan[0]) then Run([plan[0]], false)
    else
      var rest := RunChecked(h, plan[1..]);
      Run([plan[0]] + rest.attempted, rest.completed)
  }

  /** Which message the call ends with: info, warning or error. */
  datatype Outcome = Restarted | StepFailed | NoMethod

  datatype Attempt = Attempt(steps: seq<Step>, outcome: Outcome)

  function RestartWifi(h: Host, iface: string): Attempt {
    var plan := Plan(h, iface);
    if plan == [] then Attempt([], NoMethod)
    else
      var r := RunChecked(h, plan);
      Attempt(r.attempted, if r.completed then Restarted else StepFailed)
  }

  /** With `wpa_cli` present and dhcpcd active, only the reassociation and
      the dhcpcd restart are tried, never NetworkManager; a failed
      reassociation means dhcpcd is not restarted. */
  lemma {:induction false} SupplicantBranch(h: Host, iface: string)
    requires h.wpaCliPresent && IsServiceActive(h.dhcpcdStatus)
    ensures var a := RestartWifi(h, iface);
      && RestartNetworkManager !in a.steps
      && a.steps == (if h.reassociateCode == 0 then [Reassociate(iface), RestartDhcpcd] else [Reassociate(iface)])
      && (a.outcome == Restarted <==> h.reassociateCode == 0 && h.dhcpcdRestartCode == 0)
      && a.outcome != NoMethod
  {
  }

  /** Without the `wpa_cli`/dhcpcd pair, NetworkManager is restarted exactly
      when it is active; otherwise nothing runs and the error is logged. */
  lemma {:induction false} NetworkManagerBranch(h: Host, iface: string)
    requires !(h.wpaCliPresent && IsServiceActive(h.dhcpcdStatus))
    ensures var a := RestartWifi(h, iface);
      && (forall st :: st in a.steps ==> st == RestartNetworkManager)
      && (RestartNetworkManager in a.steps <==> IsServiceActive(h.networkManagerStatus))
      && (a.outcome == NoMethod <==> !IsServiceActive(h.networkManagerStatus))
      && (a.outcome == Restarted <==> IsServiceActive(h.networkManagerStatus) && h.networkManagerRestartCode == 0)
  {
  }

  /** Every call ends in success only when every command it ran succeeded,
      and a command is run only after all earlier ones succeeded. */
  lemma {:induction false} LadderStopsAtFirstFailure(h: Host, iface: string)
    ensures var a := RestartWifi(h, iface);
      && a.steps <= Plan(h, iface)
      && (forall k :: 0 <= k < |a.steps| - 1 ==> Succeeds(h, a.steps[k]))
      && (a.outcome == Restarted <==> a.steps != [] && forall k :: 0 <= k < |a.steps| ==> Succeeds(h, a.steps[k]))
  {
  }
}
