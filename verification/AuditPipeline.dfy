/** The audit run: retries on network failures, one fallback, and an exit code that fails closed. */
module AuditPipeline {
  import opened AuditClassifier
  import opened Reals
  import opened Text

  datatype Service = PyPI | OSV

  datatype ExecResult = ExecResult(returncode: int, stdout: string, stderr: string)

  /** One call of the executor and what came of it. */
  datatype Call = Call(service: Service, cmd: seq<string>, result: ExecResult)

  /** `SleepFailed` is the `ValueError` of sleeping a negative time. */
  datatype Exit = Returned(code: int) | SleepFailed

  datatype Trace = Trace(calls: seq<Call>, sleeps: seq<real>, exit: Exit)

  /** The executor: the result of the k-th call, given its command; arbitrary. */
  type Executor = (nat, seq<string>) -> ExecResult

  datatype Setup = Setup(requirements: string, ignored: seq<string>, maxRetries: int, backoff: real, fallback: bool)

  function ClassOf(r: ExecResult): Class {
    Classify(r.returncode, r.stdout, r.stderr)
  }

  // ----- the command line

  function IgnoreFlags(ignored: seq<string>): seq<string> {
    if ignored == [] then []
    else
      var front, v := IgnoreFlags(ignored[..|ignored| - 1]), Strip(ignored[|ignored| - 1]);
      if v == "" then front else front + ["--ignore-vuln", v]
  }

  function ServiceFlags(service: Service): seq<string> {
    if service.PyPI? then [] else ["-s", "osv"]
  }

  function Command(s: Setup, service: Service): seq<string> {
    ["pip-audit", "--no-deps", "--disable-pip", "-r", s.requirements, "--timeout", "30"] +
    ServiceFlags(service) + IgnoreFlags(s.ignored)
  }

  method BuildCommand(s: Setup, service: Service) returns (cmd: seq<string>)
    ensures cmd == Command(s, service)
  {
    cmd := ["pip-audit", "--no-deps", "--disable-pip", "-r", s.requirements, "--timeout", "30"];
    if service.OSV? {
      cmd := cmd + ["-s", "osv"];
    }
    ghost var start := cmd;
    for i := 0 to |s.ignored|
      invariant cmd == start + IgnoreFlags(s.ignored[..i])
    {
      assert s.ignored[..i + 1][..i] == s.ignored[..i];
      var v := Strip(s.ignored[i]);
      if v != "" {
        cmd := cmd + ["--ignore-vuln", v];
      }
    }
    assert s.ignored[..|s.ignored|] == s.ignored;
  }

  // ----- what a run must look like

  function Pow(b: real, n: nat): real {
    if n == 0 then 1.0 else b * Pow(b, n - 1)
  }

  function Attempts(s: Setup): nat {
    if s.maxRetries < 0 then 0 else s.maxRetries
  }

  /** Attempts but the first. */
  function Retries(s: Setup): nat {
    if Attempts(s) == 0 then 0 else Attempts(s) - 1
  }

  function CodeOf(r: ExecResult): int {
    match ClassOf(r)
    case Success => 0
    case VulnerabilityFound => 1
    case _ => r.returncode
  }

  /** The k-th call is made to `service` and answered by the executor. */
  predicate Made(s: Setup, run: Executor, calls: seq<Call>, k: nat, service: Service)
    requires k < |calls|
  {
    calls[k].service == service && calls[k].cmd == Command(s, service) && calls[k].result == run(k, calls[k].cmd)
  }

  /** Calls 0 to n - 1 went to PyPI and met network failures. */
  ghost predicate Transient(s: Setup, run: Executor, calls: seq<Call>, n: nat)
    requires n <= |calls|
  {
    forall k: nat :: k < n ==> Made(s, run, calls, k, PyPI) && ClassOf(calls[k].result).TransientNetworkFailure?
  }

  /** The pause after the k-th retry. */
  function BackoffAt(s: Setup, k: nat): real {
    s.backoff * Pow(1.5, k)
  }

  ghost predicate SleepsAre(s: Setup, sleeps: seq<real>, n: nat) {
    |sleeps| == n && forall k: nat :: k < n ==> sleeps[k] == BackoffAt(s, k)
  }

  ghost predicate EndsOnPyPI(s: Setup, run: Executor, t: Trace) {
    && 0 < |t.calls| <= Attempts(s)
    && var last := |t.calls| - 1;
       && Transient(s, run, t.calls, last) && Made(s, run, t.calls, last, PyPI)
       && !ClassOf(t.calls[last].result).TransientNetworkFailure?
       && SleepsAre(s, t.sleeps, last)
       && t.exit == Returned(CodeOf(t.calls[last].result))
       && (last > 0 ==> s.backoff >= 0.0)
  }

  ghost predicate EndsWithoutFallback(s: Setup, run: Executor, t: Trace) {
    && !s.fallback && |t.calls| == Attempts(s) && Transient(s, run, t.calls, |t.calls|)
    && SleepsAre(s, t.sleeps, Retries(s))
    && t.exit == Returned(2) && (Attempts(s) > 1 ==> s.backoff >= 0.0)
  }

  ghost predicate EndsOnOSV(s: Setup, run: Executor, t: Trace) {
    && s.fallback && |t.calls| == Attempts(s) + 1
    && Transient(s, run, t.calls, Attempts(s)) && Made(s, run, t.calls, Attempts(s), OSV)
    && SleepsAre(s, t.sleeps, Retries(s))
    && t.exit == Returned(CodeOf(t.calls[Attempts(s)].result)) && (Attempts(s) > 1 ==> s.backoff >= 0.0)
  }

  ghost predicate EndsInSleep(s: Setup, run: Executor, t: Trace) {
    && s.backoff < 0.0 && Attempts(s) > 1 && |t.calls| == 1 && Transient(s, run, t.calls, 1)
    && t.sleeps == [] && t.exit == SleepFailed
  }

  /** The only four shapes of a run. */
  ghost predicate IsRun(s: Setup, run: Executor, t: Trace) {
    EndsOnPyPI(s, run, t) || EndsWithoutFallback(s, run, t) || EndsOnOSV(s, run, t) || EndsInSleep(s, run, t)
  }

  lemma TransientExtend(s: Setup, run: Executor, calls: seq<Call>, c: Call)
    requires Transient(s, run, calls, |calls|)
    ensures Transient(s, run, calls + [c], |calls|)
  {
    forall k: nat | k < |calls|
      ensures Made(s, run, calls + [c], k, PyPI) && ClassOf((calls + [c])[k].result).TransientNetworkFailure?
    {
      assert Made(s, run, calls, k, PyPI);
    }
  }

  lemma TransientOne(s: Setup, run: Executor, calls: seq<Call>, c: Call)
    requires Transient(s, run, calls, |calls|) && c == Call(PyPI, Command(s, PyPI), run(|calls|, Command(s, PyPI)))
    requires ClassOf(c.result).TransientNetworkFailure?
    ensures Transient(s, run, calls + [c], |calls| + 1)
  {
    TransientExtend(s, run, calls, c);
    assert Made(s, run, calls + [c], |calls|, PyPI);
    forall k: nat | k < |calls| + 1
      ensures Made(s, run, calls + [c], k, PyPI) && ClassOf((calls + [c])[k].result).TransientNetworkFailure?
    {
      if k < |calls| {
        assert Made(s, run, calls + [c], k, PyPI);
      }
    }
  }

  lemma NextBackoff(s: Setup, k: nat)
    ensures BackoffAt(s, k) * 1.5 == BackoffAt(s, k + 1)
    ensures BackoffAt(s, k) < 0.0 <==> s.backoff < 0.0
  {
    PowPositive(k);
    SignOfProduct(s.backoff, Pow(1.5, k));
    Reorder(s.backoff, Pow(1.5, k));
  }

  lemma Reorder(x: real, y: real)
    ensures x * y * 1.5 == x * (1.5 * y)
  {
  }

  lemma {:induction false} PowPositive(n: nat)
    ensures Pow(1.5, n) > 0.0
  {
    if n > 0 {
      PowPositive(n - 1);
    }
  }

  lemma SignOfProduct(x: real, y: real)
    requires y > 0.0
    ensures x * y < 0.0 <==> x < 0.0
  {
  }

  /** The state of the loop before an attempt: every earlier call met a network failure. */
  ghost predicate Retrying(s: Setup, run: Executor, calls: seq<Call>, sleeps: seq<real>) {
    && |calls| <= Attempts(s) && Transient(s, run, calls, |calls|)
    && SleepsAre(s, sleeps, if |calls| < Attempts(s) then |calls| else Retries(s))
    && (|sleeps| > 0 ==> s.backoff >= 0.0)
  }

  lemma EndOnPyPI(s: Setup, run: Executor, calls: seq<Call>, sleeps: seq<real>, c: Call)
    requires Retrying(s, run, calls, sleeps) && |calls| < Attempts(s)
    requires c == Call(PyPI, Command(s, PyPI), run(|calls|, Command(s, PyPI)))
    requires !ClassOf(c.result).TransientNetworkFailure?
    ensures IsRun(s, run, Trace(calls + [c], sleeps, Returned(CodeOf(c.result))))
  {
    TransientExtend(s, run, calls, c);
    assert EndsOnPyPI(s, run, Trace(calls + [c], sleeps, Returned(CodeOf(c.result))));
  }

  lemma EndOnOSV(s: Setup, run: Executor, calls: seq<Call>, sleeps: seq<real>, c: Call)
    requires Retrying(s, run, calls, sleeps) && |calls| == Attempts(s) && s.fallback
    requires c == Call(OSV, Command(s, OSV), run(|calls|, Command(s, OSV)))
    ensures IsRun(s, run, Trace(calls + [c], sleeps, Returned(CodeOf(c.result))))
  {
    TransientExtend(s, run, calls, c);
    assert EndsOnOSV(s, run, Trace(calls + [c], sleeps, Returned(CodeOf(c.result))));
  }

  lemma EndAsleep(s: Setup, run: Executor, calls: seq<Call>, sleeps: seq<real>, c: Call)
    requires Retrying(s, run, calls, sleeps) && |calls| < Retries(s) && s.backoff < 0.0
    requires c == Call(PyPI, Command(s, PyPI), run(|calls|, Command(s, PyPI)))
    requires ClassOf(c.result).TransientNetworkFailure?
    ensures IsRun(s, run, Trace(calls + [c], sleeps, SleepFailed))
  {
    TransientOne(s, run, calls, c);
    assert EndsInSleep(s, run, Trace(calls + [c], sleeps, SleepFailed));
  }

  lemma Again(s: Setup, run: Executor, calls: seq<Call>, sleeps: seq<real>, c: Call)
    requires Retrying(s, run, calls, sleeps) && |calls| < Attempts(s)
    requires c == Call(PyPI, Command(s, PyPI), run(|calls|, Command(s, PyPI)))
    requires ClassOf(c.result).TransientNetworkFailure?
    ensures |calls| == Retries(s) ==> Retrying(s, run, calls + [c], sleeps)
    ensures |calls| < Retries(s) && s.backoff >= 0.0 ==> Retrying(s, run, calls + [c], sleeps + [BackoffAt(s, |calls|)])
  {
    TransientOne(s, run, calls, c);
  }

  /** The exit code after a result that is not to be retried. */
  method Verdict(r: ExecResult) returns (code: int)
    ensures code == CodeOf(r)
  {
    var k := ClassOf(r);
    code := if k.Success? then 0 else if k.VulnerabilityFound? then 1
            else if r.returncode != 0 then r.returncode else 2;
  }

  method RunAuditPipeline(s: Setup, run: Executor) returns (t: Trace)
    ensures IsRun(s, run, t)
  {
    var calls: seq<Call>, sleeps: seq<real> := [], [];
    var backoff := s.backoff;
    var attempt := 1;
    assert BackoffAt(s, 0) == s.backoff;
    while attempt <= s.maxRetries
      invariant attempt >= 1 && |calls| == attempt - 1 <= Attempts(s)
      invariant Retrying(s, run, calls, sleeps)
      invariant |calls| < Attempts(s) ==> backoff == BackoffAt(s, |calls|)
      decreases s.maxRetries - attempt
    {
      var cmd := BuildCommand(s, PyPI);
      var c := Call(PyPI, cmd, run(|calls|, cmd));
      if !ClassOf(c.result).TransientNetworkFailure? {
        EndOnPyPI(s, run, calls, sleeps, c);
        var code := Verdict(c.result);
        return Trace(calls + [c], sleeps, Returned(code));
      }
      Again(s, run, calls, sleeps, c);
      if attempt < s.maxRetries {
        NextBackoff(s, |calls|);
        if backoff < 0.0 {
          EndAsleep(s, run, calls, sleeps, c);
          return Trace(calls + [c], sleeps, SleepFailed);
        }
        sleeps := sleeps + [backoff];
        backoff := backoff * 1.5;
      }
      calls := calls + [c];
      attempt := attempt + 1;
    }
    if !s.fallback {
      t := Trace(calls, sleeps, Returned(2));
      assert EndsWithoutFallback(s, run, t);
      return;
    }
    var cmd := BuildCommand(s, OSV);
    var c := Call(OSV, cmd, run(|calls|, cmd));
    EndOnOSV(s, run, calls, sleeps, c);
    var code := Verdict(c.result);
    t := Trace(calls + [c], sleeps, Returned(code));
  }

  // ----- what every run promises

  predicate MetFinding(t: Trace, k: nat)
    requires k < |t.calls|
  {
    ClassOf(t.calls[k].result).VulnerabilityFound?
  }

  /** The run is green exactly when the last call came back with return code zero: with no call, or after
      anything else, it fails. */
  lemma GreenExactly(s: Setup, run: Executor, t: Trace)
    requires IsRun(s, run, t)
    ensures t.exit == Returned(0) <==> t.calls != [] && t.calls[|t.calls| - 1].result.returncode == 0
  {
    if t.calls != [] {
      var r := t.calls[|t.calls| - 1].result;
      ClassifiedByStream(r.returncode, r.stdout, r.stderr);
      if EndsWithoutFallback(s, run, t) || EndsInSleep(s, run, t) {
        assert Made(s, run, t.calls, |t.calls| - 1, PyPI);
      }
    }
  }

  /** A result classified as a finding is the last one, and the run exits with 1. */
  lemma FindingEndsRun(s: Setup, run: Executor, t: Trace, k: nat)
    requires IsRun(s, run, t) && k < |t.calls| && MetFinding(t, k)
    ensures k == |t.calls| - 1 && t.exit == Returned(1)
  {
  }

  /** What becomes of a failed call whose output shows a vulnerability: it ends the run with 1 exactly when the
      output shows no network failure as well, or when it is the OSV call and its own return code is 1. */
  lemma FindingFailsExactly(s: Setup, run: Executor, t: Trace, k: nat)
    requires IsRun(s, run, t) && k < |t.calls| && t.calls[k].result.returncode != 0
    requires || Shows(t.calls[k].result.stdout, VULNERABILITY_MARKERS)
             || Shows(t.calls[k].result.stderr, VULNERABILITY_MARKERS)
    ensures var r := t.calls[k].result;
            k == |t.calls| - 1 && t.exit == Returned(1) <==>
              || (!Shows(r.stdout, NETWORK_MARKERS) && !Shows(r.stderr, NETWORK_MARKERS))
              || (t.calls[k].service.OSV? && r.returncode == 1)
  {
    var r := t.calls[k].result;
    ClassifiedByStream(r.returncode, r.stdout, r.stderr);
    MadeAt(s, run, t, k);
  }

  /** A run in which a scan reported a vulnerability can be green: the report also says "timeout", so the scan is
      repeated, and the second one finds nothing. */
  lemma ReportedFindingGreen(s: Setup, run: Executor, t: Trace)
    requires s.maxRetries >= 2 && s.backoff >= 0.0 && IsRun(s, run, t)
    requires run(0, Command(s, PyPI)) == ExecResult(1, "CVE-1: timeout", "")
    requires run(1, Command(s, PyPI)) == ExecResult(0, "", "")
    ensures |t.calls| == 2 && Shows(t.calls[0].result.stdout, VULNERABILITY_MARKERS) && t.exit == Returned(0)
  {
    FindingTakenForOutage();
    if t.calls != [] {
      MadeAt(s, run, t, 0);
    }
    if |t.calls| > 1 {
      MadeAt(s, run, t, 1);
    }
  }

  /** A run dies in its sleep exactly when the backoff is negative, another attempt is allowed and the first meets a
      network failure. */
  lemma SleepFailsExactly(s: Setup, run: Executor, t: Trace)
    requires IsRun(s, run, t)
    ensures t.exit.SleepFailed? <==>
            s.backoff < 0.0 && s.maxRetries > 1 && ClassOf(run(0, Command(s, PyPI))).TransientNetworkFailure?
  {
    if t.calls != [] {
      MadeAt(s, run, t, 0);
    }
  }

  /** At most `maxRetries` calls to PyPI and one to OSV, the latter exactly when it is allowed and every
      attempt met a network failure without sleeping going wrong. */
  lemma CallsBounded(s: Setup, run: Executor, t: Trace)
    requires IsRun(s, run, t)
    ensures |t.calls| <= (if s.maxRetries > 0 then s.maxRetries else 0) + 1
    ensures forall k: nat :: k < |t.calls| ==> (t.calls[k].service.PyPI? <==> k < s.maxRetries)
    ensures (exists k: nat :: k < |t.calls| && t.calls[k].service.OSV?) <==>
            && s.fallback && |t.calls| >= s.maxRetries && !t.exit.SleepFailed?
            && Transient(s, run, t.calls, if s.maxRetries > 0 then s.maxRetries else 0)
  {
    if EndsOnOSV(s, run, t) {
      assert t.calls[Attempts(s)].service.OSV?;
    }
    if EndsOnPyPI(s, run, t) {
      assert Made(s, run, t.calls, |t.calls| - 1, PyPI);
    }
  }

  lemma {:induction false} SumOfSleeps(s: Setup, sleeps: seq<real>, n: nat)
    requires SleepsAre(s, sleeps, n)
    ensures Sum(sleeps) == 2.0 * (BackoffAt(s, n) - s.backoff)
  {
    if n == 0 {
      assert BackoffAt(s, 0) == s.backoff;
    } else {
      SumOfSleeps(s, sleeps[..n - 1], n - 1);
      assert sleeps == sleeps[..n - 1] + [sleeps[n - 1]];
      SumAppend(sleeps[..n - 1], [sleeps[n - 1]]);
      NextBackoff(s, n - 1);
    }
  }

  /** The pauses add up to `2 * backoff * (1.5^j - 1)`, where j counts the network failures that another
      attempt on PyPI followed, fewer than the attempts allowed. */
  lemma TotalSleep(s: Setup, run: Executor, t: Trace)
    requires IsRun(s, run, t)
    ensures Sum(t.sleeps) == 2.0 * (BackoffAt(s, |t.sleeps|) - s.backoff)
    ensures |t.sleeps| <= Retries(s)
    ensures t.sleeps == [] || |t.sleeps| < |t.calls|
    ensures forall k: nat :: 0 < k < |t.calls| ==> (t.calls[k].service.PyPI? <==> k <= |t.sleeps|)
  {
    SumOfSleeps(s, t.sleeps, |t.sleeps|);
    CallsBounded(s, run, t);
    if EndsOnPyPI(s, run, t) {
      assert Made(s, run, t.calls, |t.calls| - 1, PyPI);
    }
  }

  /** Setup and executor determine the run: nothing else satisfies the description. */
  lemma RunUnique(s: Setup, run: Executor, t: Trace, u: Trace)
    requires IsRun(s, run, t) && IsRun(s, run, u)
    ensures t == u
  {
    SameCalls(s, run, t, u);
    assert |t.calls| == |u.calls|;
    assert t.sleeps == u.sleeps;
  }

  /** The service of the k-th call of any run. */
  lemma MadeAt(s: Setup, run: Executor, t: Trace, k: nat)
    requires IsRun(s, run, t) && k < |t.calls|
    ensures Made(s, run, t.calls, k, if k < Attempts(s) then PyPI else OSV)
  {
  }

  lemma SameCalls(s: Setup, run: Executor, t: Trace, u: Trace)
    requires IsRun(s, run, t) && IsRun(s, run, u)
    ensures t.calls == u.calls
  {
    forall k: nat | k < |t.calls| && k < |u.calls| ensures t.calls[k] == u.calls[k] {
      MadeAt(s, run, t, k);
      MadeAt(s, run, u, k);
    }
    if |t.calls| < |u.calls| {
      Longer(s, run, t, u);
    } else if |u.calls| < |t.calls| {
      Longer(s, run, u, t);
    }
  }

  /** A run does not go on where another one ended. */
  lemma Longer(s: Setup, run: Executor, t: Trace, u: Trace)
    requires IsRun(s, run, t) && IsRun(s, run, u)
    requires forall k: nat :: k < |t.calls| && k < |u.calls| ==> t.calls[k] == u.calls[k]
    ensures |t.calls| >= |u.calls|
  {
    var last: nat := if t.calls == [] then 0 else |t.calls| - 1;
    assert last < |t.calls| && last < |u.calls| ==> t.calls[last] == u.calls[last];
  }
}
