/** How one pip-audit result is classified, and what each output stream contributes to that. */
module AuditClassifier {
  import opened Text

  datatype Class = Success | VulnerabilityFound | TransientNetworkFailure | CliOrConfigError

  // The markers, in short lists.
  const TIMEOUTS := ["timeout", "timed out", "connectionerror", "connecterror"]
  const STATUSES := ["503 server error", "502 server error", "504 gateway timeout", "429 too many requests"]
  const OUTAGES := ["service unavailable", "remotedisconnected", "maxretryerror", "newconnectionerror"]
  const NAME_RESOLUTION := ["temporary failure in name resolution", "network is unreachable"]
  const CONNECTIONS := ["failed to establish a new connection", "connection reset by peer"]
  const SERVICES := ["osv service unavailable", "pypi json api unavailable"]
  const NETWORK_MARKERS: seq<string> := TIMEOUTS + STATUSES + OUTAGES + NAME_RESOLUTION + CONNECTIONS + SERVICES

  const FINDINGS := ["known vulnerabilities found", "vulnerabilities found", "found vulnerabilities", "vulnerability"]
  const ADVISORIES := ["name | installed version | id", "ghsa-", "cve-", "pysec-"]
  const VULNERABILITY_MARKERS: seq<string> := FINDINGS + ADVISORIES

  /** `lower` on ASCII letters. */
  function LowerChar(c: char): char {
    if 'A' <= c <= 'Z' then c + ' ' else c
  }

  function Lower(s: string): (r: string)
    ensures |r| == |s|
  {
    seq(|s|, i requires 0 <= i < |s| => LowerChar(s[i]))
  }

  function Combined(stdout: string, stderr: string): string {
    Lower(stdout + "\n" + stderr)
  }

  /** The network markers are looked for first. */
  function Classify(returncode: int, stdout: string, stderr: string): Class {
    if returncode == 0 then Success
    else if ContainsAny(Combined(stdout, stderr), NETWORK_MARKERS) then TransientNetworkFailure
    else if ContainsAny(Combined(stdout, stderr), VULNERABILITY_MARKERS) then VulnerabilityFound
    else CliOrConfigError
  }

  // ----- markers do not straddle the streams

  predicate NewlineFree(m: string) {
    '\n' !in m
  }

  lemma OccursInTail(a: string, b: string, m: string, j: nat)
    requires OccursAt(a + b, m, |a| + j)
    ensures j <= |b| && OccursAt(b, m, j)
  {
    assert (a + b)[|a| + j..|a| + j + |m|] == b[j..j + |m|];
  }

  lemma CoversPosition(s: string, m: string, i: nat, k: nat)
    requires OccursAt(s, m, i) && i <= k < i + |m|
    ensures s[k] in m
  {
    assert s[i..i + |m|][k - i] == s[k];
  }

  /** A marker without a line feed occurs in two texts joined by one exactly when it occurs in either. */
  lemma ContainsJoined(a: string, b: string, m: string)
    requires NewlineFree(m)
    ensures Contains(a + "\n" + b, m) <==> Contains(a, m) || Contains(b, m)
  {
    var s := a + "\n" + b;
    if Contains(s, m) {
      var i :| 0 <= i <= |s| && OccursAt(s, m, i);
      if i + |m| <= |a| {
        assert a[i..i + |m|] == s[i..i + |m|];
        assert OccursAt(a, m, i);
      } else if i > |a| {
        OccursInTail(a + "\n", b, m, i - |a| - 1);
      } else {
        CoversPosition(s, m, i, |a|);
        assert false;
      }
    }
    if Contains(a, m) {
      ContainsPrefix(a, "\n", m);
      ContainsPrefix(a + "\n", b, m);
    }
    if Contains(b, m) {
      ContainsSuffix(a + "\n", b, m);
    }
  }

  lemma LowerJoined(a: string, b: string)
    ensures Combined(a, b) == Lower(a) + "\n" + Lower(b)
  {
  }

  ghost predicate AllNewlineFree(markers: seq<string>) {
    forall m :: m in markers ==> NewlineFree(m)
  }

  lemma TimeoutsFree() ensures AllNewlineFree(TIMEOUTS) {}

  lemma StatusesFree() ensures AllNewlineFree(STATUSES) {}

  lemma OutagesFree() ensures AllNewlineFree(OUTAGES) {}

  lemma NameResolutionFree() ensures AllNewlineFree(NAME_RESOLUTION) {}

  lemma ConnectionsFree() ensures AllNewlineFree(CONNECTIONS) {}

  lemma ServicesFree() ensures AllNewlineFree(SERVICES) {}

  lemma FindingsFree() ensures AllNewlineFree(FINDINGS) {}

  lemma AdvisoriesFree() ensures AllNewlineFree(ADVISORIES) {}

  lemma AllAppend(a: seq<string>, b: seq<string>)
    requires AllNewlineFree(a) && AllNewlineFree(b)
    ensures AllNewlineFree(a + b)
  {
  }

  lemma MarkersNewlineFree()
    ensures AllNewlineFree(NETWORK_MARKERS) && AllNewlineFree(VULNERABILITY_MARKERS)
  {
    TimeoutsFree(); StatusesFree(); OutagesFree(); NameResolutionFree(); ConnectionsFree(); ServicesFree();
    FindingsFree(); AdvisoriesFree();
    AllAppend(TIMEOUTS, STATUSES);
    AllAppend(TIMEOUTS + STATUSES, OUTAGES);
    AllAppend(TIMEOUTS + STATUSES + OUTAGES, NAME_RESOLUTION);
    AllAppend(TIMEOUTS + STATUSES + OUTAGES + NAME_RESOLUTION, CONNECTIONS);
    AllAppend(TIMEOUTS + STATUSES + OUTAGES + NAME_RESOLUTION + CONNECTIONS, SERVICES);
    AllAppend(FINDINGS, ADVISORIES);
  }

  lemma AnyJoined(stdout: string, stderr: string, markers: seq<string>)
    requires AllNewlineFree(markers)
    ensures ContainsAny(Combined(stdout, stderr), markers) <==>
            ContainsAny(Lower(stdout), markers) || ContainsAny(Lower(stderr), markers)
  {
    LowerJoined(stdout, stderr);
    forall k | 0 <= k < |markers|
      ensures Contains(Combined(stdout, stderr), markers[k]) <==>
              Contains(Lower(stdout), markers[k]) || Contains(Lower(stderr), markers[k])
    {
      assert markers[k] in markers;
      ContainsJoined(Lower(stdout), Lower(stderr), markers[k]);
    }
  }

  predicate Shows(stream: string, markers: seq<string>) {
    ContainsAny(Lower(stream), markers)
  }

  /** The class depends only on the return code and on which streams show which kind of marker. */
  lemma ClassifiedByStream(rc: int, stdout: string, stderr: string)
    ensures Classify(rc, stdout, stderr).Success? <==> rc == 0
    ensures Classify(rc, stdout, stderr).TransientNetworkFailure? <==>
            rc != 0 && (Shows(stdout, NETWORK_MARKERS) || Shows(stderr, NETWORK_MARKERS))
    ensures Classify(rc, stdout, stderr).VulnerabilityFound? <==>
            rc != 0 && (Shows(stdout, VULNERABILITY_MARKERS) || Shows(stderr, VULNERABILITY_MARKERS)) &&
            !Shows(stdout, NETWORK_MARKERS) && !Shows(stderr, NETWORK_MARKERS)
  {
    MarkersNewlineFree();
    AnyJoined(stdout, stderr, NETWORK_MARKERS);
    AnyJoined(stdout, stderr, VULNERABILITY_MARKERS);
  }

  /** A reported vulnerability whose text mentions a timeout is taken for an outage. */
  lemma FindingTakenForOutage()
    ensures Shows("CVE-1: timeout", VULNERABILITY_MARKERS)
    ensures Classify(1, "CVE-1: timeout", "") == TransientNetworkFailure
  {
    var s := Lower("CVE-1: timeout");
    assert s == "cve-1: timeout";
    assert OccursAt(s, "cve-", 0) && VULNERABILITY_MARKERS[|FINDINGS| + 2] == "cve-";
    assert OccursAt(s, "timeout", 7) && NETWORK_MARKERS[0] == "timeout";
    ClassifiedByStream(1, "CVE-1: timeout", "");
  }
}
