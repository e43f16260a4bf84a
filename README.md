# Sonar, the WiFi keepalive daemon, as a Dafny model

Sonar pings a target, usually the WiFi router, at regular intervals. When
the ping fails it waits a grace period, alternates single pings with WiFi
restarts until a ping succeeds, and pauses for a full interval after every
third restart. This project models the decisions the daemon makes, with
the operating system replaced by inputs. It covers how it picks the default
route, when a cycle is monitored and what it pings, which remediation
commands a restart runs, and how the recovery loop counts and paces its
attempts. It then proves the properties those decisions are meant to have.

Modules, one per component of `sonar.py`:

- `Commands` (commands.dfy) models a command's result: it raised, or it completed
  with an exit code and output. The module holds `_is_service_active` (stripped
  output equals `active`) and `ping_target` (exit code 0), with Python's
  `str.strip` and `str.splitlines` written out.
- `Routes` (routes.dfy) is `get_default_gateway`. It extracts route entries from
  the output of `ip route show default` and stable-sorts them by metric, as
  `list.sort` does. It returns the first entry, or one of four failure reasons,
  one per message the code logs.
- `Restorer` (restorer.dfy) is `restart_wifi`. It picks a branch from the
  `wpa_cli`/dhcpcd/NetworkManager answers, then runs that branch's commands
  with `check=True` semantics.
- `Orchestrator` (orchestrator.dfy) is `run`. It gates each cycle, chooses the
  target, and runs the recovery loop as a method with the code's two counters.
  It also runs one cycle and the daemon over a finite list of cycles. Side
  effects are recorded as a trace of events: `QueryRoute`,
  `Ping(target, count)`, `Restart(iface)`, `Sleep(seconds)` and `Reported(n)`.

Behaviour of the code worth knowing:

- `debug_log` falls back to true when the configuration does not set it (sonar.py:87, `Orchestrator.Defaults`).
- With debug logging on, `ping_target` takes the last output line for its
  summary. If the command exits 0 with empty output, that indexing raises.
  The handler then reports the ping as failed. `PingTarget` includes this case.
- The route query's failures log warnings, except an exception, which logs at
  error level (sonar.py:146).
- `systemctl is-active` is judged by its output alone; its exit code is ignored.
- The recovery loop restarts the interface resolved at the start of the cycle.
  The route is not re-resolved during an outage.

## Model

| member | source | states |
|---|---|---|
| Commands.Strip | sonar.py:110 | the result is the infix of the output left after removing the white space at each end; it neither starts nor ends with white space |
| Commands.StripPadded | sonar.py:110 | stripping a word padded with white space gives exactly that word |
| Commands.StripMeansPadded | sonar.py:110 | an output that strips to a word is that word with only white space before and after it |
| Commands.PaddedMeansStrip | sonar.py:110 | an output that is a word with only white space before and after it strips to that word |
| Commands.IsServiceActive | sonar.py:106-112 | its contract is `ServiceActiveIff`: active iff the query completed and its output is `active` with only white space around it |
| Commands.ServiceActiveIff | sonar.py:106-112 | a service counts as active iff the query completed and its output is `active` with only white space around it; a raised query counts as inactive |
| Commands.SystemctlActive | sonar.py:108-110 | the output `active\n` means active, whatever the exit code |
| Commands.SystemctlInactive | sonar.py:108-110 | the output `inactive\n` does not mean active |
| Commands.SplitLines | sonar.py:190-191 | the list of lines is empty exactly when the output is empty, and no line holds a line terminator |
| Commands.PingTarget | sonar.py:179-197 | a ping succeeds iff the command completed with exit code 0 and, when debug logging is on, printed something (otherwise `lines[-1]` raises and the handler returns false) |
| Commands.PingIgnoresOutputWithoutDebug | sonar.py:183-188 | with debug logging off the result is the exit status alone |
| Routes.Lines | sonar.py:116 | the output cut at newlines has at least one piece, and no piece holds a newline (`.` in the pattern stops at a newline) |
| Routes.JoinLinesOfLines | sonar.py:130 | joining the lines with newlines gives the output back, so no text is lost between lines |
| Routes.Tokens | sonar.py:116 | every token of a line is non-empty and free of white space (the `\S+` runs) |
| Routes.TokensOfJoinSpace | sonar.py:116 | tokenizing non-empty space-free words joined by single spaces gives exactly those words, in order |
| Routes.LinesOfJoinLines | sonar.py:130 | cutting newline-free lines joined by newlines gives exactly those lines back |
| Routes.FindKeyword | sonar.py:116 | the leftmost occurrence of a keyword with a value after it, from a position on, as the lazy `.*?` finds it; none means no occurrence at all |
| Routes.MatchAt | sonar.py:116 | a match starts only at `default via`, takes the next token as gateway, and moves the scan forward |
| Routes.MatchAtIff | sonar.py:116 | a match starts at a token exactly when `default via`, then `dev`, `src` and `metric` with a numeric value follow in that order; the match captures the gateway, device, source and metric of such an occurrence and resumes after the metric |
| Routes.FindAll | sonar.py:130 | a line with no `default via` contributes no entry |
| Routes.FindAllOnlyIf | sonar.py:116-130 | every entry found from a token on is captured by an occurrence of the pattern at or after it: gateway after `default via`, device after `dev`, source after `src`, metric after `metric` |
| Routes.FindAllEmptyIff | sonar.py:116-130 | nothing is found from a token on exactly when the pattern occurs nowhere at or after it |
| Routes.ParseRoutes | sonar.py:130 | its contract is `ParseRoutesIff`: no entry exactly when no line of the output holds the pattern, and every entry is captured by an occurrence in some line |
| Routes.ParseRoutesIff | sonar.py:130 | over the whole output: no entry iff no line holds the pattern; every entry comes from an occurrence of the pattern in one line |
| Routes.ParseLinesEmptyIff | sonar.py:130 | over a list of lines: no entry iff no line holds the pattern |
| Routes.ParseLinesOnlyIf | sonar.py:130 | over a list of lines: every entry comes from an occurrence of the pattern in one of them |
| Routes.WellFormedLineParses | sonar.py:116-130 | the output `default via <g> dev <dev> proto <proto> src <src> metric <n>` followed by a newline parses to exactly that one route, with the metric read as a decimal number |
| Routes.WellFormedTokensMatch | sonar.py:116 | the tokens of such a line match the pattern once, capturing its gateway, device, source and metric |
| Routes.Insert | sonar.py:137 | inserting keeps the multiset of entries plus the new one; the new head is the new entry or the old head |
| Routes.InsertKeepsSorted | sonar.py:137 | inserting into a list sorted by metric keeps it sorted |
| Routes.SortByMetric | sonar.py:137 | the sort's result is sorted by metric and a permutation of the matches |
| Routes.FirstMin | sonar.py:136-143 | the reference selection: a position whose metric is at most every metric, with every earlier metric strictly larger |
| Routes.SortHeadIsFirstMin | sonar.py:137-143 | the head of the stable sort is the first entry with the smallest metric |
| Routes.Resolve | sonar.py:114-147 | a found route comes from a query that completed with exit code 0 and is one of the entries the output holds; `ResolveNotFoundIff` and `ResolveSelectsFirstMinimum` state the rest |
| Routes.ResolveNotFoundIff | sonar.py:118-147 | resolution fails exactly when the query raised, exited non-zero, printed nothing or matched no entry |
| Routes.ResolveSelectsFirstMinimum | sonar.py:136-144 | a found route is a matched entry, its metric is at most every matched metric, and entries before it have larger metrics |
| Routes.SelectsMetricTwo | sonar.py:136-144 | with metrics 5, 2 and 9 the metric-2 entry is chosen |
| Routes.TieGoesToFirstSeen | sonar.py:137 | between equal metrics the entry printed first is chosen |
| Restorer.RunChecked | sonar.py:156-166 | commands run under `check=True` form a prefix of the plan; every attempted command but the last succeeded; the block completes iff the whole plan ran and succeeded; otherwise the last attempted command failed |
| Restorer.Plan | sonar.py:149-177 | its contract is `SupplicantBranch` and `NetworkManagerBranch`: the reassociation and dhcpcd restart with `wpa_cli` and active dhcpcd, otherwise a NetworkManager restart iff it is active, otherwise nothing |
| Restorer.RestartWifi | sonar.py:149-177 | its contract is `LadderStopsAtFirstFailure` with the two branch lemmas: a prefix of the plan runs, and success is reported iff everything run succeeded |
| Restorer.SupplicantBranch | sonar.py:155-166 | with `wpa_cli` and active dhcpcd, only reassociate and the dhcpcd restart are attempted, never NetworkManager; a failed reassociation skips the dhcpcd restart |
| Restorer.NetworkManagerBranch | sonar.py:167-177 | otherwise NetworkManager is restarted iff it is active, and the no-method error is logged iff it is not |
| Restorer.LadderStopsAtFirstFailure | sonar.py:149-177 | a call attempts a prefix of its branch, runs a command only after the earlier ones succeeded, and reports success iff everything it ran succeeded |
| Orchestrator.IsWifiInterface | sonar.py:232 | its contract is `WifiMeansWlPrefix`: the name starts with `wl` |
| Orchestrator.WifiMeansWlPrefix | sonar.py:232 | the prefixes `wl`, `wlan`, `wlp` together accept exactly the names that start with `wl` |
| Orchestrator.GateCycle | sonar.py:227-241 | its contract is `GateMonitorsIff`: monitored iff a route was found on a `wl` interface, with the gateway or the configured value as target |
| Orchestrator.GateMonitorsIff | sonar.py:227-241 | a cycle is monitored iff a route was found on an interface starting with `wl`; the target is the gateway for `auto` and the configured value otherwise |
| Orchestrator.LeadingFailures | sonar.py:253 | the number of failed pings before the first success: all earlier results failed and the one at that position succeeded |
| Orchestrator.SessionTrace | sonar.py:244-266 | its contract is `SessionCounts`, `AttemptsUseSessionTarget`, `SessionRestartsSessionInterface` and `PauseAfterEveryThirdRestart`; `Recover` is proved to produce it |
| Orchestrator.Recover | sonar.py:244-266 | the loop produces the grace sleep, one ping/restart/10-second block per failed ping with the pause after every third, and the final ping and report; `retryCount` stays in 0..2 at every test of the loop and equals the restarts modulo three |
| Orchestrator.AttemptsCounts | sonar.py:253-258 | `k` passes through the loop body restart `k` times and ping `k` times |
| Orchestrator.AttemptsUseSessionTarget | sonar.py:253-256 | every ping in the loop is a single ping of the session's target, every restart goes to the session's interface, and nothing is reported inside the loop |
| Orchestrator.SessionRestartsSessionInterface | sonar.py:256 | every restart of a session goes to the interface resolved at its start |
| Orchestrator.SessionCounts | sonar.py:250-266 | after `k` failed pings and a success: `k` restarts, `k + 1` pings, and a final report of `k`; out of ping results: one restart per failed ping |
| Orchestrator.GraceSuccessNeverRestarts | sonar.py:248-253 | a successful ping after the grace wait means no restart and zero attempts reported |
| Orchestrator.PauseAfterEveryThirdRestart | sonar.py:255-264 | every restart is followed by the 10-second wait; a pause for the interval comes next iff the restart is the third, sixth, ... of the session, otherwise a ping or nothing |
| Orchestrator.Monitored | sonar.py:243-268 | its contract is `MonitoredRecoveredReports`; `RunMonitored` is proved to produce it |
| Orchestrator.RunMonitored | sonar.py:243-268 | a monitored pass yields exactly the events and the end of `Monitored`: the first ping with the configured count, then a healthy interval sleep or the recovery session |
| Orchestrator.Cycle | sonar.py:225-268 | its contract is `CycleProbesOnlyWifi`, `CycleGraceSuccess`, `CycleRecoveredReports` and `CycleRestartsOnlyWifi`; `RunCycle` is proved to produce it |
| Orchestrator.RunCycle | sonar.py:225-268 | one pass of the outer loop yields exactly the events and the end of `Cycle` |
| Orchestrator.CycleProbesOnlyWifi | sonar.py:227-243 | without a found route on a `wl` interface, a cycle only queries and sleeps an interval; otherwise its first ping goes to the chosen target with the configured count |
| Orchestrator.CycleGraceSuccess | sonar.py:243-266 | a failed first ping followed by a successful grace ping ends the cycle recovered after zero attempts, with no restart |
| Orchestrator.CycleRecoveredReports | sonar.py:253-268 | a cycle recovered after `k` attempts restarted `k` times and reports `k` just before its interval sleep |
| Orchestrator.MonitoredRecoveredReports | sonar.py:253-268 | a monitored cycle recovered after `k` attempts restarted `k` times and reports `k` just before its interval sleep |
| Orchestrator.CycleRestartsOnlyWifi | sonar.py:232-256 | every restart a cycle issues goes to an interface starting with `wl` |
| Orchestrator.Run | sonar.py:220-268 | a disabled daemon exits with code 0 before any route query or ping; an enabled one never exits and runs cycle after cycle |
| Orchestrator.Daemon | sonar.py:224-268 | its contract is `DaemonRestartsOnlyWifi`; `Run` is proved to produce it |
| Orchestrator.DaemonRestartsOnlyWifi | sonar.py:224-268 | across all cycles, every restart goes to an interface starting with `wl` |
| Orchestrator.EthernetCycleSkipped | sonar.py:232-237 | a gateway on `eth0` makes the cycle skip without a ping |
| Orchestrator.AutoTargetPingsGateway | sonar.py:239-243 | with target `auto` and gateway 192.168.1.1 on `wlan0`, the ping goes to 192.168.1.1 |

## Left out

- Finding and parsing the configuration file (sonar.py:60-104) is not modelled, because it is file and library I/O. A `Config` record is an input; `Defaults` records the fallback values.
- Logger setup, the file handler and its permission fallback (sonar.py:42-55, 202-218) are not modelled, because they are logging plumbing. Log messages are not traced. The exceptions are the final report and the reasons carried by `ResolveError` and `Restorer.Outcome`.
- `subprocess.run`, `shutil.which` and `time.sleep` become inputs and trace events. Sleeps are recorded, not timed.
- The outer `while True` loop runs over a finite list of cycles. In an outage, the model stops when the ping results run out (`Unresolved`, `InputsExhausted`).
- The debug summary line (sonar.py:190-192) is not formatted. Only the indexing that can raise is modelled.
- The `KeyboardInterrupt` handler (sonar.py:271-277) is not modelled, because it is out-of-band cancellation.
- FindAll: the regular expression is modelled per token, not character by character. Keywords must be whole tokens, and any run of white space separates tokens. The regex also accepts `default`, `src` and `metric` at the end of a longer run of non-space characters. It needs single spaces around `via`, `dev` and before the captured values. It can backtrack into a captured device or address to find `src` inside it. None of these forms occurs in `ip route` output.
- Routes.DecimalValue: `\d` and `int()` also accept non-ASCII decimal digits; the model reads ASCII digits only.
- SortByMetric: stability is proved only through its consequence for the head: the first entry with the smallest metric is chosen. A general statement that equal-metric entries keep their order is not made.
- Recover: each restart is recorded as `Restart(iface)`. The commands that call runs are described by `RestartWifi` for that call's host answers. They are not merged into the session trace, because `restart_wifi` returns nothing the loop uses.
- Exceptions the source does not catch are not modelled. A negative `interval` or `restart_threshold` makes `time.sleep` raise. A launch failure inside `restart_wifi` is not a `CalledProcessError`. Either one ends the daemon.
