/**
 * The watchdog that checks the currency-exchange service and restarts it,
 * at most `maxRecoveryAttempts` times in a row.
 *
 * Every probe the watchdog makes (systemctl, the TCP connect to the app port,
 * journalctl, the psutil process listing, the restart commands) is an input here:
 * HealthProbes carries what the probes of one health check report, and
 * RestartOutcome what the restart sequence reports.
 */
module SocketRecovery {
  import opened Wrappers
  import opened Text

  /** What `journalctl` returned: a failure (non-zero exit or an exception) or the log text. */
  datatype JournalRead = Unreadable | Log(text: string)

  /**
   * One entry of `psutil.process_iter`. psutil reports an attribute it is denied
   * access to as None.
   */
  datatype ProcInfo = ProcInfo(
    name: Option<string>,
    cmdline: Option<seq<string>>,
    rss: Option<nat>,      // memory_info.rss, in bytes
    numFds: Option<nat>)

  /** The process listing, or the exception that ended it. */
  datatype ProcessScan = ScanFailed | Listed(procs: seq<ProcInfo>)

  /** What the probes of one health check report. */
  datatype HealthProbes = HealthProbes(
    serviceActive: bool,   // `systemctl is-active` exited with 0
    portOpen: bool,        // the connect to 127.0.0.1:5001 succeeded
    journal: JournalRead,
    scan: ProcessScan)

  /**
   * How the restart sequence went: a stop or start command failed (or anything else
   * raised), or it ran to the end and the two probes after it gave these answers.
   */
  datatype RestartOutcome = RestartRaised | RestartCompleted(serviceActive: bool, portOpen: bool)

  /** The issues a health check reports, in the order it checks for them. */
  datatype Issue =
    | ServiceNotRunning
    | PortNotResponding
    | TooManySocketErrors(count: nat)
    | ProcessHealthIssues

  /** Position of an issue in the check order. */
  function Rank(i: Issue): nat
  {
    match i
    case ServiceNotRunning => 0
    case PortNotResponding => 1
    case TooManySocketErrors(_) => 2
    case ProcessHealthIssues => 3
  }

  /** The three log messages counted as socket errors. */
  const BadFileDescriptor: string := "Bad file descriptor"
  const BrokenPipe: string := "Broken pipe"
  const ConnectionReset: string := "Connection reset by peer"

  /**
   * `check_socket_errors`: 0 when the log cannot be read, else the three counts added up.
   * A log with no socket error message counts zero, and any single message makes the
   * count positive.
   */
  function SocketErrorCount(journal: JournalRead): (n: nat)
    ensures n == 0 <==>
              journal.Unreadable?
              || (!Contains(journal.text, BadFileDescriptor) && !Contains(journal.text, BrokenPipe)
                  && !Contains(journal.text, ConnectionReset))
  {
    match journal
    case Unreadable => 0
    case Log(text) =>
      CountZeroIffAbsent(text, BadFileDescriptor);
      CountZeroIffAbsent(text, BrokenPipe);
      CountZeroIffAbsent(text, ConnectionReset);
      Count(text, BadFileDescriptor) + Count(text, BrokenPipe) + Count(text, ConnectionReset)
  }

  /** Occurrences do not overlap, so the shortest message bounds how many the log can hold. */
  lemma SocketErrorCountBounded(journal: JournalRead)
    ensures journal.Log? ==> SocketErrorCount(journal) * |BrokenPipe| <= 3 * |journal.text|
  {
    if journal.Log? {
      var t := journal.text;
      CountFitsInText(t, BadFileDescriptor);
      CountFitsInText(t, BrokenPipe);
      CountFitsInText(t, ConnectionReset);
      var a, b, c := Count(t, BadFileDescriptor), Count(t, BrokenPipe), Count(t, ConnectionReset);
      assert |BadFileDescriptor| == 19 && |BrokenPipe| == 11 && |ConnectionReset| == 24;
      assert SocketErrorCount(journal) == a + b + c;
    }
  }

  /** The per-process limits of `check_process_health`. */
  const MaxMemoryMB: real := 500.0
  const MaxFds: nat := 1000

  /** `memory_info.rss / 1024 / 1024 > 500` */
  predicate ExceedsMemory(rss: nat)
  {
    (rss as real) / 1024.0 / 1024.0 > MaxMemoryMB
  }

  /** The memory limit in bytes: more than 500 MiB, i.e. more than 524288000 bytes. */
  lemma ExceedsMemoryInBytes(rss: nat)
    ensures ExceedsMemory(rss) <==> rss > 524288000
  {
    var mb := (rss as real) / 1024.0 / 1024.0;
    assert mb * 1048576.0 == rss as real;
  }

  /**
   * Reading this entry raises inside the first loop of `check_process_health`:
   * `'gunicorn' in None`, or `' '.join(None)` for a gunicorn process.
   */
  predicate ScanRaises(p: ProcInfo)
  {
    p.name.None? || (Contains(p.name.value, "gunicorn") && p.cmdline.None?)
  }

  /** A gunicorn process whose command line mentions currency-exchange. */
  predicate IsAppWorker(p: ProcInfo)
  {
    && p.name.Some? && Contains(p.name.value, "gunicorn")
    && p.cmdline.Some? && Contains(Join(p.cmdline.value, " "), "currency-exchange")
  }

  /** The worker is under both limits (a None attribute raises and fails the check). */
  predicate WithinLimits(p: ProcInfo)
  {
    p.rss.Some? && !ExceedsMemory(p.rss.value) && p.numFds.Some? && p.numFds.value <= MaxFds
  }

  /**
   * What `check_process_health` decides: the listing succeeded without raising, it
   * holds at least one app worker, and every app worker is within the limits.
   */
  predicate ProcessHealthy(scan: ProcessScan)
  {
    && scan.Listed?
    && (forall i :: 0 <= i < |scan.procs| ==> !ScanRaises(scan.procs[i]))
    && (exists i :: 0 <= i < |scan.procs| && IsAppWorker(scan.procs[i]))
    && (forall i :: 0 <= i < |scan.procs| && IsAppWorker(scan.procs[i]) ==> WithinLimits(scan.procs[i]))
  }

  /** A gunicorn process one of whose arguments mentions currency-exchange is an app worker. */
  lemma ArgumentMakesAppWorker(p: ProcInfo, k: nat)
    requires p.name.Some? && Contains(p.name.value, "gunicorn")
    requires p.cmdline.Some? && k < |p.cmdline.value| && Contains(p.cmdline.value[k], "currency-exchange")
    ensures IsAppWorker(p)
  {
    JoinKeepsOccurrence(p.cmdline.value, " ", k, "currency-exchange");
  }

  /**
   * The issues of `perform_health_check`: each check adds its issue when it fails,
   * in a fixed order; socket errors only when they are strictly more than the limit.
   */
  function HealthIssues(p: HealthProbes, maxSocketErrors: nat): (issues: seq<Issue>)
    ensures ServiceNotRunning in issues <==> !p.serviceActive
    ensures PortNotResponding in issues <==> !p.portOpen
    ensures TooManySocketErrors(SocketErrorCount(p.journal)) in issues <==> SocketErrorCount(p.journal) > maxSocketErrors
    ensures forall k :: 0 <= k < |issues| && issues[k].TooManySocketErrors? ==>
              issues[k].count == SocketErrorCount(p.journal)
    ensures ProcessHealthIssues in issues <==> !ProcessHealthy(p.scan)
    ensures forall i, j :: 0 <= i < j < |issues| ==> Rank(issues[i]) < Rank(issues[j])
  {
    var n := SocketErrorCount(p.journal);
    (if p.serviceActive then [] else [ServiceNotRunning])
    + (if p.portOpen then [] else [PortNotResponding])
    + (if n > maxSocketErrors then [TooManySocketErrors(n)] else [])
    + (if ProcessHealthy(p.scan) then [] else [ProcessHealthIssues])
  }

  /**
   * `run_recovery_cycle` on abstract inputs: whether the health check found issues,
   * and whether a restart, if one happens, is verified afterwards.
   */
  datatype Cycle = Cycle(issuesFound: bool, restartVerified: bool)

  /** The answer of a cycle, whether it restarted the service, and the new attempt counter. */
  datatype Step = Step(ok: bool, restarted: bool, attempts: nat)

  function CycleStep(attempts: nat, maxAttempts: nat, c: Cycle): (s: Step)
    ensures s.restarted <==> c.issuesFound && attempts < maxAttempts
    ensures s.ok <==> !c.issuesFound || (s.restarted && c.restartVerified)
    ensures !s.restarted ==> s.attempts == attempts
    ensures s.restarted && c.restartVerified ==> s.attempts == 0
    ensures s.restarted && !c.restartVerified ==> s.attempts == attempts + 1
    ensures attempts <= maxAttempts ==> s.attempts <= maxAttempts
  {
    if !c.issuesFound then Step(true, false, attempts)
    else if attempts >= maxAttempts then Step(false, false, attempts)
    else if c.restartVerified then Step(true, true, 0)
    else Step(false, true, attempts + 1)
  }

  /** The counter after running the cycles in order (the daemon loop, cut after |cs| cycles). */
  function AttemptsAfter(attempts: nat, maxAttempts: nat, cs: seq<Cycle>): nat
    decreases |cs|
  {
    if cs == [] then attempts
    else AttemptsAfter(CycleStep(attempts, maxAttempts, cs[0]).attempts, maxAttempts, cs[1..])
  }

  /** How many of those cycles restarted the service. */
  function RestartsDuring(attempts: nat, maxAttempts: nat, cs: seq<Cycle>): nat
    decreases |cs|
  {
    if cs == [] then 0
    else
      var s := CycleStep(attempts, maxAttempts, cs[0]);
      (if s.restarted then 1 else 0) + RestartsDuring(s.attempts, maxAttempts, cs[1..])
  }

  /** From a counter within the limit, no sequence of cycles takes it past the limit. */
  lemma {:induction false} AttemptsStayBounded(attempts: nat, maxAttempts: nat, cs: seq<Cycle>)
    requires attempts <= maxAttempts
    ensures AttemptsAfter(attempts, maxAttempts, cs) <= maxAttempts
    decreases |cs|
  {
    if cs != [] {
      AttemptsStayBounded(CycleStep(attempts, maxAttempts, cs[0]).attempts, maxAttempts, cs[1..]);
    }
  }

  /**
   * Once the counter has reached the limit it is never reset, because only a
   * restart resets it: no later cycle restarts the service, whatever the probes say.
   */
  lemma {:induction false} ExhaustedNeverRestarts(attempts: nat, maxAttempts: nat, cs: seq<Cycle>)
    requires attempts >= maxAttempts
    ensures RestartsDuring(attempts, maxAttempts, cs) == 0
    ensures AttemptsAfter(attempts, maxAttempts, cs) == attempts
    decreases |cs|
  {
    if cs != [] {
      ExhaustedNeverRestarts(attempts, maxAttempts, cs[1..]);
    }
  }

  /** Without a verified restart, the cycles restart the service at most `max - attempts` times. */
  lemma {:induction false} RestartsBoundedWithoutSuccess(attempts: nat, maxAttempts: nat, cs: seq<Cycle>)
    requires attempts <= maxAttempts
    requires forall k :: 0 <= k < |cs| ==> !cs[k].restartVerified
    ensures RestartsDuring(attempts, maxAttempts, cs) + attempts <= maxAttempts
    ensures RestartsDuring(attempts, maxAttempts, cs) + attempts == AttemptsAfter(attempts, maxAttempts, cs)
    decreases |cs|
  {
    if cs != [] {
      var s := CycleStep(attempts, maxAttempts, cs[0]);
      RestartsBoundedWithoutSuccess(s.attempts, maxAttempts, cs[1..]);
    }
  }

  /** `SocketRecoveryManager` */
  class SocketRecoveryManager {
    const serviceName: string := "currency-exchange"
    const appPort: nat := 5001
    const maxSocketErrors: nat := 5
    const checkInterval: nat := 30  // seconds between cycles of the daemon
    const maxRecoveryAttempts: nat := 3
    var recoveryAttempts: nat

    ghost predicate Valid()
      reads this
    {
      recoveryAttempts <= maxRecoveryAttempts
    }

    constructor ()
      ensures Valid() && recoveryAttempts == 0
    {
      recoveryAttempts := 0;
    }

    /**
     * `check_process_health`: collects the app workers from the listing, then checks
     * each against the memory and descriptor limits.
     */
    method CheckProcessHealth(scan: ProcessScan) returns (healthy: bool)
      ensures healthy <==> ProcessHealthy(scan)
    {
      if scan.ScanFailed? {
        return false;
      }
      var procs := scan.procs;
      var workers: seq<ProcInfo> := [];
      for i := 0 to |procs|
        invariant forall j :: 0 <= j < i ==> !ScanRaises(procs[j])
        invariant forall w :: w in workers ==> w in procs[..i] && IsAppWorker(w)
        invariant forall j :: 0 <= j < i && IsAppWorker(procs[j]) ==> procs[j] in workers
      {
        var p := procs[i];
        if p.name.None? {
          return false;  // 'gunicorn' in None raises TypeError
        }
        if Contains(p.name.value, "gunicorn") {
          if p.cmdline.None? {
            return false;  // ' '.join(None) raises TypeError
          }
          if Contains(Join(p.cmdline.value, " "), "currency-exchange") {
            workers := workers + [p];
          }
        }
      }
      assert procs[..|procs|] == procs;
      if workers == [] {
        assert forall j :: 0 <= j < |procs| ==> !IsAppWorker(procs[j]);
        return false;
      }
      assert workers[0] in procs;
      for k := 0 to |workers|
        invariant forall j :: 0 <= j < k ==> WithinLimits(workers[j])
      {
        var w := workers[k];
        assert w in procs && IsAppWorker(w);
        if w.rss.None? || ExceedsMemory(w.rss.value) {
          return false;
        }
        if w.numFds.None? || w.numFds.value > MaxFds {
          return false;
        }
      }
      healthy := true;
    }

    /** `perform_health_check`: the issues list, built one check at a time. */
    method PerformHealthCheck(p: HealthProbes) returns (issues: seq<Issue>)
      ensures issues == HealthIssues(p, maxSocketErrors)
      ensures issues == [] <==>
                p.serviceActive && p.portOpen && SocketErrorCount(p.journal) <= maxSocketErrors && ProcessHealthy(p.scan)
    {
      issues := [];
      if !p.serviceActive {
        issues := issues + [ServiceNotRunning];
      }
      if !p.portOpen {
        issues := issues + [PortNotResponding];
      }
      var socketErrors := SocketErrorCount(p.journal);
      if socketErrors > maxSocketErrors {
        issues := issues + [TooManySocketErrors(socketErrors)];
      }
      var healthy := CheckProcessHealth(p.scan);
      if !healthy {
        issues := issues + [ProcessHealthIssues];
      }
    }

    /**
     * `restart_service`: stops, cleans up and starts the service, then resets the
     * counter only when the service is active and the port answers.
     */
    method RestartService(outcome: RestartOutcome) returns (ok: bool)
      modifies this
      ensures ok <==> outcome == RestartCompleted(true, true)
      ensures recoveryAttempts == if ok then 0 else old(recoveryAttempts)
    {
      match outcome
      case RestartRaised =>
        ok := false;
      case RestartCompleted(active, open) =>
        if active && open {
          recoveryAttempts := 0;
          ok := true;
        } else {
          ok := false;
        }
    }

    /**
     * `run_recovery_cycle`: passes when the health check finds nothing; gives up
     * without restarting once the counter has reached the limit; otherwise counts
     * the attempt and restarts.
     */
    method RunRecoveryCycle(p: HealthProbes, restart: RestartOutcome) returns (ok: bool)
      requires Valid()
      modifies this
      ensures Valid()
      ensures HealthIssues(p, maxSocketErrors) == [] ==> ok && recoveryAttempts == old(recoveryAttempts)
      ensures HealthIssues(p, maxSocketErrors) != [] && old(recoveryAttempts) >= maxRecoveryAttempts ==>
                !ok && recoveryAttempts == old(recoveryAttempts)
      ensures var s := CycleStep(old(recoveryAttempts), maxRecoveryAttempts,
                                 Cycle(HealthIssues(p, maxSocketErrors) != [], restart == RestartCompleted(true, true)));
              ok == s.ok && recoveryAttempts == s.attempts
    {
      var issues := PerformHealthCheck(p);
      if issues == [] {
        return true;
      }
      if recoveryAttempts >= maxRecoveryAttempts {
        return false;
      }
      recoveryAttempts := recoveryAttempts + 1;
      ok := RestartService(restart);
    }
  }
}
