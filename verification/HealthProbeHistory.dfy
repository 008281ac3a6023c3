/** What the callers of `HealthProbeRuns` are told, read off the actions of a run alone. */
module HealthProbeHistory {
  import opened HealthProbe
  import opened HealthProbeRuns

  // ---------- what the flags of a probe record about the past ----------

  ghost predicate OnlyDelivered(past: seq<Action>, p: ProbeId, result: Result) {
    Deliver(p, result) in past && (forall other: Result :: Deliver(p, other) in past ==> other == result)
  }

  ghost predicate NothingDelivered(past: seq<Action>, p: ProbeId) {
    forall result: Result :: Deliver(p, result) !in past
  }

  predicate Holds(probe: Probe, result: Result) {
    match result
    case Reply(ok) => !probe.failed && probe.response == if ok then HealthOk else Unhealthy
    case Exception => probe.failed
    case Killed => !probe.failed && probe.response == NoResponse
  }

  ghost predicate TellsOf(s: System, past: seq<Action>, p: ProbeId)
    requires WellFormed(s)
  {
    if p < |s.runners| && !s.runners[p].Calling? && !s.runners[p].NeverStarted?
    then exists result: Result :: OnlyDelivered(past, p, result) && Holds(s.reg.probes[p], result)
    else NothingDelivered(past, p)
  }

  ghost predicate GaveUp(s: System, past: seq<Action>, d: nat, p: ProbeId) {
    CleanUpTimeout(d) in past && d < |s.callers| && s.callers[d].pc == Answered(p, ProbeTimedOut)
  }

  /** Somebody's wait for this probe timed out. */
  ghost predicate GivenUp(s: System, past: seq<Action>, p: ProbeId) {
    exists d :: GaveUp(s, past, d, p)
  }

  ghost predicate FlagsTellOf(s: System, past: seq<Action>, p: ProbeId)
    requires WellFormed(s)
  {
    p < |s.reg.probes| ==>
      && (s.reg.probes[p].done <==> Signal(p) in past)
      && (s.reg.probes[p].expired <==> GivenUp(s, past, p))
  }

  predicate LeftExpired(s: System, d: nat)
    requires WellFormed(s)
  {
    && d < |s.callers|
    && s.callers[d].pc.Answered?
    && s.callers[d].pc.verdict == ProbeTimedOut
    && Knows(s.reg, s.callers[d].pc.probe)
    && s.reg.probes[s.callers[d].pc.probe].expired
  }

  ghost predicate History(s: System, past: seq<Action>) {
    && Inv(s)
    && (forall p: ProbeId :: TellsOf(s, past, p))
    && (forall p: ProbeId :: FlagsTellOf(s, past, p))
    && (forall p: ProbeId :: Signal(p) in past ==> Knows(s.reg, p))
    && (forall d: nat :: CleanUpTimeout(d) in past ==> LeftExpired(s, d))
  }

  lemma StepTells(s: System, past: seq<Action>, a: Action, p: ProbeId)
    requires Inv(s) && TellsOf(s, past, p) && Enabled(s, a)
    ensures WellFormed(Next(s, a)) && TellsOf(Next(s, a), past + [a], p)
  {
    NextKeepsWellFormed(s, a);
    var t, now := Next(s, a), past + [a];
    assert a in now;
    if a.Deliver? && a.p == p {
      assert NothingDelivered(past, p) && s.reg.probes[p].response == NoResponse && !s.reg.probes[p].failed;
      assert OnlyDelivered(now, p, a.result) && Holds(t.reg.probes[p], a.result);
    } else if p < |s.runners| && !s.runners[p].Calling? && !s.runners[p].NeverStarted? {
      var result: Result :| OnlyDelivered(past, p, result) && Holds(s.reg.probes[p], result);
      assert OnlyDelivered(now, p, result) && Holds(t.reg.probes[p], result);
    } else {
      assert NothingDelivered(now, p);
    }
  }

  lemma StepLeaves(s: System, past: seq<Action>, a: Action, d: nat)
    requires Inv(s) && Enabled(s, a)
    requires CleanUpTimeout(d) in past + [a] && (CleanUpTimeout(d) in past ==> LeftExpired(s, d))
    ensures WellFormed(Next(s, a)) && LeftExpired(Next(s, a), d)
    ensures CleanUpTimeout(d) in past ==> Next(s, a).callers[d] == s.callers[d]
  {
    NextKeepsWellFormed(s, a);
    if CleanUpTimeout(d) in past {
      OthersStayPut(s, a, d);
      FlagsOnlyRise(s, a, s.callers[d].pc.probe);
    } else {
      assert a == CleanUpTimeout(d) && PcKnown(s, s.callers[d]);
    }
  }

  lemma StepFlags(s: System, past: seq<Action>, a: Action, p: ProbeId)
    requires History(s, past) && Enabled(s, a)
    ensures WellFormed(Next(s, a)) && FlagsTellOf(Next(s, a), past + [a], p)
  {
    NextKeepsWellFormed(s, a);
    var t, now := Next(s, a), past + [a];
    assert FlagsTellOf(s, past, p);
    if p < |t.reg.probes| {
      forall d | GaveUp(t, now, d, p)
        ensures t.reg.probes[p].expired
      {
        StepLeaves(s, past, a, d);
      }
      if p < |s.reg.probes| && s.reg.probes[p].expired {
        var d :| GaveUp(s, past, d, p);
        StepLeaves(s, past, a, d);
        assert GaveUp(t, now, d, p);
      } else if t.reg.probes[p].expired {
        assert a.CleanUpTimeout? && GaveUp(t, now, a.c, p);
      }
      assert t.reg.probes[p].done <==> Signal(p) in now;
    }
  }

  lemma StepKeepsHistory(s: System, past: seq<Action>, a: Action)
    requires History(s, past) && Enabled(s, a)
    ensures History(Next(s, a), past + [a])
  {
    NextKeepsInv(s, a);
    var t, now := Next(s, a), past + [a];
    forall p: ProbeId
      ensures TellsOf(t, now, p) && FlagsTellOf(t, now, p)
    {
      StepTells(s, past, a, p);
      StepFlags(s, past, a, p);
    }
    forall p: ProbeId | Signal(p) in now
      ensures Knows(t.reg, p)
    {
      if Signal(p) in past {
        FlagsOnlyRise(s, a, p);
      }
    }
    forall d: nat | CleanUpTimeout(d) in now
      ensures LeftExpired(t, d)
    {
      StepLeaves(s, past, a, d);
    }
  }

  lemma {:induction false} RunKeepsHistory(s: System, past: seq<Action>, run: seq<Action>)
    requires History(s, past) && Runs(s, run)
    ensures History(After(s, run), past + run)
    decreases |run|
  {
    if run == [] {
      assert past + run == past;
    } else {
      StepKeepsHistory(s, past, run[0]);
      RunKeepsHistory(Next(s, run[0]), past + [run[0]], run[1..]);
      assert past + run == past + [run[0]] + run[1..];
    }
  }

  lemma HistoryOf(run: seq<Action>)
    requires Runs(INITIAL, run)
    ensures History(After(INITIAL, run), run)
  {
    RunKeepsHistory(INITIAL, [], run);
    assert [] + run == run;
  }

  // ---------- what callers are told ----------

  /** Every answer tells what the one request of the probe has returned: "healthy" exactly for
      the reply "ok", "failed" exactly for an exception, "malformed" exactly for another reply or
      none at all; and "timed out" only after somebody's wait for that probe has timed out. */
  lemma AnswersAreTrue(run: seq<Action>, c: nat)
    requires Runs(INITIAL, run)
    requires c < |After(INITIAL, run).callers| && After(INITIAL, run).callers[c].pc.Answered?
    ensures Inv(After(INITIAL, run))
    ensures var s := After(INITIAL, run);
      var (p, verdict) := (s.callers[c].pc.probe, s.callers[c].pc.verdict);
      && s.urls[p] == s.callers[c].url
      && (verdict == ProbeTimedOut ==> GivenUp(s, run, p))
      && (CleanUpTimeout(c) in run ==> verdict == ProbeTimedOut)
      && (verdict != ProbeTimedOut ==>
            && Signal(p) in run
            && (verdict == Ok <==> Deliver(p, Reply(true)) in run)
            && (verdict == ProbeFailed <==> Deliver(p, Exception) in run)
            && (verdict == ProbeMalformed <==> Deliver(p, Reply(false)) in run || Deliver(p, Killed) in run))
  {
    HistoryOf(run);
    var s := After(INITIAL, run);
    var p := s.callers[c].pc.probe;
    assert PcKnown(s, s.callers[c]) && CallerSound(s, s.callers[c].pc);
    assert FlagsTellOf(s, run, p) && TellsOf(s, run, p);
    if s.callers[c].pc.verdict != ProbeTimedOut {
      var result: Result :| OnlyDelivered(run, p, result) && Holds(s.reg.probes[p], result);
      if Deliver(p, Reply(true)) in run { assert result == Reply(true); }
      if Deliver(p, Reply(false)) in run { assert result == Reply(false); }
      if Deliver(p, Exception) in run { assert result == Exception; }
      if Deliver(p, Killed) in run { assert result == Killed; }
    }
  }

  /** How far a step takes the caller that makes it; every other caller stays where it is. */
  lemma StepsOfCallers(run: seq<Action>, a: Action, c: nat)
    requires Runs(INITIAL, run) && Enabled(After(INITIAL, run), a) && c < |After(INITIAL, run).callers|
    ensures var (s, t) := (After(INITIAL, run), Next(After(INITIAL, run), a));
      var pc := s.callers[c].pc;
      && c < |t.callers| && t.callers[c].url == s.callers[c].url
      && var after := t.callers[c].pc;
      match a
      case CheckExpired(d) => if d != c then after == pc
        else if GivenUp(s, run, pc.probe) then after == Answered(pc.probe, ProbeTimedOut)
        else after == Waiting(pc.probe)
      case Wake(d, timeout) => if d != c then after == pc
        else if timeout then after == GivingUp(pc.probe)
        else after == Collecting(pc.probe) && Signal(pc.probe) in run
      case CleanUpTimeout(d) => after == if d == c then Answered(pc.probe, ProbeTimedOut) else pc
      case Collect(d) => if d != c then after == pc
        else if GivenUp(s, run, pc.probe) then after == Answered(pc.probe, ProbeTimedOut)
        else after == Reading(pc.probe)
      case Read(d) => if d != c then after == pc
        else after.Answered? && after.probe == pc.probe && after.verdict != ProbeTimedOut
      case Ask(d, _) => d == c || after == pc
      case _ => after == pc
  {
    HistoryOf(run);
    var s := After(INITIAL, run);
    assert PcKnown(s, s.callers[c]);
    if !s.callers[c].pc.Asking? && !s.callers[c].pc.Crashed? {
      assert FlagsTellOf(s, run, s.callers[c].pc.probe);
    }
  }

  /** The entry of this URL is removed by this step: by the caller whose wait timed out if the
      runner has signalled, by the caller that collects, and by the runner if somebody gave up;
      and in each case only if the entry is the very probe that the thread holds. */
  ghost predicate Removes(s: System, past: seq<Action>, a: Action, u: Url)
    requires WellFormed(s) && Enabled(s, a) && u in s.reg.current
  {
    var p := s.reg.current[u];
    match a
    case CleanUpTimeout(c) => s.callers[c].pc.probe == p && Signal(p) in past
    case Collect(c) => s.callers[c].pc.probe == p
    case CleanUpRunner(q) => q == p && GivenUp(s, past, p)
    case _ => false
  }

  /** A lookup of this URL joins the entry it finds. */
  ghost predicate Joins(s: System, past: seq<Action>, u: Url) {
    u in s.reg.current && !(GivenUp(s, past, s.reg.current[u]) && Signal(s.reg.current[u]) in past)
  }

  /** What a step does to the dictionary, entry by entry. */
  lemma StepsOfTheDictionary(run: seq<Action>, a: Action, u: Url)
    requires Runs(INITIAL, run) && Enabled(After(INITIAL, run), a)
    ensures var (s, t) := (After(INITIAL, run), Next(After(INITIAL, run), a));
      if a.Ask? && s.callers[a.c].url == u && !Joins(s, run, u) then
        u in t.reg.current && t.reg.current[u] == |s.reg.probes|
      else if u in s.reg.current && !Removes(s, run, a, u) then
        u in t.reg.current && t.reg.current[u] == s.reg.current[u]
      else u !in t.reg.current
  {
    HistoryOf(run);
    var s := After(INITIAL, run);
    if ByCaller(a) {
      assert PcKnown(s, s.callers[a.c]);
    }
    if u in s.reg.current {
      assert FlagsTellOf(s, run, s.reg.current[u]);
    }
  }

  /** Who looks a URL up holds its entry from then on; only a lookup that finds none to join
      makes a probe, and its runner is the one thread that this starts, unless starting fails. */
  lemma StepsOfALookup(run: seq<Action>, c: nat, threadStarts: bool)
    requires Runs(INITIAL, run) && Enabled(After(INITIAL, run), Ask(c, threadStarts))
    ensures var s := After(INITIAL, run);
      var (t, u) := (Next(s, Ask(c, threadStarts)), s.callers[c].url);
      if Joins(s, run, u) then
        t == s.(callers := t.callers) && t.callers[c].pc == Holding(s.reg.current[u])
      else
        var p := |s.runners|;
        && t.urls == s.urls + [u]
        && t.runners == s.runners + [if threadStarts then Calling else NeverStarted]
        && t.callers[c].pc == if threadStarts then Holding(p) else Crashed
  {
    HistoryOf(run);
    var s := After(INITIAL, run);
    if s.callers[c].url in s.reg.current {
      assert FlagsTellOf(s, run, s.reg.current[s.callers[c].url]);
    }
  }
}
