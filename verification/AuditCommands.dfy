/** What the audit run asks of pip-audit, which service for which file, ignoring what; and the exit code of the run. */
module AuditCommands {
  import opened AuditClassifier
  import opened AuditPipeline
  import opened Text

  // ----- the flags for ignored vulnerabilities

  /** The places of the ids that are not blank, and the flags made of them: each id without the blanks around it,
      behind a flag of its own, in the order of the list. */
  ghost predicate FlagsOf(ignored: seq<string>, flags: seq<string>, places: seq<nat>) {
    && |flags| == 2 * |places|
    && (forall k, l :: 0 <= k < l < |places| ==> places[k] < places[l])
    && (forall k :: 0 <= k < |places| ==> places[k] < |ignored| && Strip(ignored[places[k]]) != "")
    && (forall i: nat :: i < |ignored| && Strip(ignored[i]) != "" ==> i in places)
    && (forall k :: 0 <= k < |places| ==>
          flags[2 * k] == "--ignore-vuln" && flags[2 * k + 1] == Strip(ignored[places[k]]))
  }

  lemma FlagsOneMore(ignored: seq<string>, id: string, flags: seq<string>, places: seq<nat>)
    requires FlagsOf(ignored, flags, places)
    ensures Strip(id) == "" ==> FlagsOf(ignored + [id], flags, places)
    ensures Strip(id) != "" ==>
              FlagsOf(ignored + [id], flags + ["--ignore-vuln", Strip(id)], places + [|ignored|])
  {
  }

  lemma {:induction false} FlagsExactly(ignored: seq<string>) returns (places: seq<nat>)
    ensures FlagsOf(ignored, IgnoreFlags(ignored), places)
  {
    if ignored == [] {
      places := [];
    } else {
      var front, id := ignored[..|ignored| - 1], ignored[|ignored| - 1];
      places := FlagsExactly(front);
      FlagsOneMore(front, id, IgnoreFlags(front), places);
      assert ignored == front + [id];
      if Strip(id) != "" {
        places := places + [|front|];
      }
    }
  }

  // ----- the whole command

  /** The fixed part: the tool, its switches, and the requirements file behind `-r`. */
  ghost predicate StartsFixed(cmd: seq<string>, requirements: string) {
    && |cmd| >= 7 && cmd[0] == "pip-audit" && cmd[1] == "--no-deps" && cmd[2] == "--disable-pip"
    && cmd[3] == "-r" && cmd[4] == requirements && cmd[5] == "--timeout" && cmd[6] == "30"
  }

  /** OSV is asked for directly behind the fixed part. */
  ghost predicate AsksOSV(cmd: seq<string>) {
    |cmd| >= 9 && cmd[7] == "-s" && cmd[8] == "osv"
  }

  /** A command starts with the fixed part, asks for OSV exactly when that is the service, and ends with the flags. */
  lemma CommandExactly(s: Setup, service: Service) returns (places: seq<nat>)
    ensures var cmd := Command(s, service);
            && StartsFixed(cmd, s.requirements) && (AsksOSV(cmd) <==> service.OSV?)
            && (service.OSV? ==> FlagsOf(s.ignored, cmd[9..], places))
            && (service.PyPI? ==> FlagsOf(s.ignored, cmd[7..], places))
  {
    places := FlagsExactly(s.ignored);
    var cmd, flags := Command(s, service), IgnoreFlags(s.ignored);
    if service.OSV? {
      assert cmd[9..] == flags;
    } else {
      assert cmd[7..] == flags;
      assert |cmd| > 7 ==> cmd[7] == flags[2 * 0];
    }
  }

  lemma BuiltExactly(s: Setup, service: Service, cmd: seq<string>)
    requires cmd == Command(s, service)
    ensures StartsFixed(cmd, s.requirements) && (AsksOSV(cmd) <==> service.OSV?)
  {
    var places := CommandExactly(s, service);
  }

  /** In every run the calls up to the maximum of retries ask PyPI, the one after them OSV, and all are about the same
      requirements file. */
  lemma ServiceAsked(s: Setup, run: Executor, t: Trace, k: nat)
    requires IsRun(s, run, t) && k < |t.calls|
    ensures AsksOSV(t.calls[k].cmd) <==> k >= s.maxRetries
    ensures StartsFixed(t.calls[k].cmd, s.requirements)
  {
    MadeAt(s, run, t, k);
    BuiltExactly(s, t.calls[k].service, t.calls[k].cmd);
  }

  // ----- the exit code

  predicate Mentions(c: Call, markers: seq<string>) {
    Shows(c.result.stdout, markers) || Shows(c.result.stderr, markers)
  }

  /** The code of a run that was not cut short: 0 after a clean scan, 1 after a report that shows no network failure, 2
      when PyPI failed and there is no fallback, and otherwise what the tool returned. */
  lemma ExitExactly(s: Setup, run: Executor, t: Trace)
    requires IsRun(s, run, t) && t.exit.Returned?
    ensures t.calls == [] ==> t.exit == Returned(2)
    ensures t.calls != [] ==>
              var c := t.calls[|t.calls| - 1];
              t.exit.code == if c.result.returncode == 0 then 0
                             else if Mentions(c, NETWORK_MARKERS) && !AsksOSV(c.cmd) then 2
                             else if !Mentions(c, NETWORK_MARKERS) && Mentions(c, VULNERABILITY_MARKERS) then 1
                             else c.result.returncode
  {
    if t.calls != [] {
      var k := |t.calls| - 1;
      var r := t.calls[k].result;
      ClassifiedByStream(r.returncode, r.stdout, r.stderr);
      MadeAt(s, run, t, k);
      BuiltExactly(s, t.calls[k].service, t.calls[k].cmd);
    }
  }
}
