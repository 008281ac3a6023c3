/** Every interleaving of the callers and runner threads of `HealthProbe`.

    One action is one atomic step of one thread: a critical section, the runner's
    delivery of a result, its `done.set()`, the end of a `done.wait`, and the
    lock-free reading of the result.  A run is any sequence of enabled actions. */
module HealthProbeRuns {
  import opened HealthProbe

  /** `NeverStarted`: starting the thread raised after the probe had been registered. */
  datatype Runner = NeverStarted | Calling | Delivered | Signalled | Exited

  datatype Verdict = Ok | ProbeTimedOut | ProbeFailed | ProbeMalformed

  datatype CallerPc =
    | Asking                                      // about to look the URL up
    | Holding(probe: ProbeId)                     // has a probe, has not seen `expired`
    | Waiting(probe: ProbeId)                     // in `done.wait`
    | GivingUp(probe: ProbeId)                    // the wait timed out
    | Collecting(probe: ProbeId)                  // the wait returned true
    | Reading(probe: ProbeId)                     // claimed, about to read the result
    | Answered(probe: ProbeId, verdict: Verdict)
    | Crashed                                     // starting the runner raised

  datatype Caller = Caller(url: Url, pc: CallerPc)

  datatype System = System(reg: Registry, runners: seq<Runner>, urls: seq<Url>, callers: seq<Caller>)

  datatype Result = Reply(ok: bool) | Exception | Killed

  datatype Action =
    | Arrive(url: Url)
    | Ask(c: nat, threadStarts: bool)
    | CheckExpired(c: nat)
    | Wake(c: nat, timeout: bool)
    | CleanUpTimeout(c: nat)
    | Collect(c: nat)
    | Read(c: nat)
    | Deliver(p: ProbeId, result: Result)
    | Signal(p: ProbeId)
    | CleanUpRunner(p: ProbeId)

  const INITIAL := System(Registry(map[], []), [], [], [])

  // ---------- the transition relation ----------

  predicate Finished(pc: CallerPc) {
    pc.Answered? || pc.Crashed?
  }

  /** The caller's next critical section may still remove its probe. */
  predicate Attends(pc: CallerPc, p: ProbeId) {
    (pc.Holding? || pc.Waiting? || pc.GivingUp? || pc.Collecting?) && pc.probe == p
  }

  predicate Past(pc: CallerPc, p: ProbeId) {
    (pc.Reading? || (pc.Answered? && pc.verdict != ProbeTimedOut)) && pc.probe == p
  }

  predicate WellFormed(s: System) {
    && |s.runners| == |s.urls| == |s.reg.probes|
    && Closed(s.reg)
    && (forall u :: u in s.reg.current ==> s.urls[s.reg.current[u]] == u)
    && (forall c :: 0 <= c < |s.callers| ==> PcKnown(s, s.callers[c]))
  }

  predicate PcKnown(s: System, caller: Caller)
    requires |s.urls| == |s.reg.probes|
  {
    caller.pc.Asking? || caller.pc.Crashed?
    || (Knows(s.reg, caller.pc.probe) && s.urls[caller.pc.probe] == caller.url)
  }

  predicate Enabled(s: System, a: Action)
    requires WellFormed(s)
  {
    match a
    case Arrive(_) => true
    case Ask(c, _) => c < |s.callers| && s.callers[c].pc.Asking?
    case CheckExpired(c) => c < |s.callers| && s.callers[c].pc.Holding?
    case Wake(c, timeout) =>
      c < |s.callers| && s.callers[c].pc.Waiting? && (timeout || s.reg.probes[s.callers[c].pc.probe].done)
    case CleanUpTimeout(c) => c < |s.callers| && s.callers[c].pc.GivingUp?
    case Collect(c) => c < |s.callers| && s.callers[c].pc.Collecting?
    case Read(c) => c < |s.callers| && s.callers[c].pc.Reading?
    case Deliver(p, _) => p < |s.runners| && s.runners[p].Calling?
    case Signal(p) => p < |s.runners| && s.runners[p].Delivered?
    case CleanUpRunner(p) => p < |s.runners| && s.runners[p].Signalled?
  }

  function At(s: System, c: nat, pc: CallerPc): System
    requires c < |s.callers|
  {
    s.(callers := s.callers[c := s.callers[c].(pc := pc)])
  }

  function Judge(probe: Probe): Verdict {
    if probe.failed then ProbeFailed
    else if probe.response.HealthOk? then Ok
    else ProbeMalformed
  }

  function Record(probe: Probe, result: Result): Probe {
    match result
    case Reply(ok) => probe.(response := if ok then HealthOk else Unhealthy)
    case Exception => probe.(failed := true)
    case Killed => probe
  }

  function Next(s: System, a: Action): System
    requires WellFormed(s) && Enabled(s, a)
  {
    match a
    case Arrive(url) => s.(callers := s.callers + [Caller(url, Asking)])
    case Ask(c, threadStarts) =>
      var url := s.callers[c].url;
      var (reg, p) := LookUp(s.reg, url);
      if p < |s.reg.probes| then At(s, c, Holding(p))
      else
        At(System(reg, s.runners + [if threadStarts then Calling else NeverStarted], s.urls + [url], s.callers),
           c, if threadStarts then Holding(p) else Crashed)
    case CheckExpired(c) =>
      var p := s.callers[c].pc.probe;
      At(s, c, if s.reg.probes[p].expired then Answered(p, ProbeTimedOut) else Waiting(p))
    case Wake(c, timeout) =>
      var p := s.callers[c].pc.probe;
      At(s, c, if timeout then GivingUp(p) else Collecting(p))
    case CleanUpTimeout(c) =>
      var p := s.callers[c].pc.probe;
      At(s.(reg := GiveUp(s.reg, s.callers[c].url, p)), c, Answered(p, ProbeTimedOut))
    case Collect(c) =>
      var p := s.callers[c].pc.probe;
      At(s.(reg := Claim(s.reg, s.callers[c].url, p)), c,
         if s.reg.probes[p].expired then Answered(p, ProbeTimedOut) else Reading(p))
    case Read(c) =>
      var p := s.callers[c].pc.probe;
      At(s, c, Answered(p, Judge(s.reg.probes[p])))
    case Deliver(p, result) =>
      s.(reg := s.reg.(probes := s.reg.probes[p := Record(s.reg.probes[p], result)]),
         runners := s.runners[p := Delivered])
    case Signal(p) =>
      s.(reg := s.reg.(probes := s.reg.probes[p := s.reg.probes[p].(done := true)]),
         runners := s.runners[p := Signalled])
    case CleanUpRunner(p) =>
      s.(reg := Retire(s.reg, s.urls[p], p), runners := s.runners[p := Exited])
  }

  // ---------- the invariant ----------

  predicate DoneMeansSignalled(s: System)
    requires WellFormed(s)
  {
    forall p :: 0 <= p < |s.runners| ==>
      (s.reg.probes[p].done <==> s.runners[p].Signalled? || s.runners[p].Exited?)
  }

  /** What a caller's program counter says about its probe. */
  predicate CallerSound(s: System, pc: CallerPc)
    requires pc.Asking? || pc.Crashed? || Knows(s.reg, pc.probe)
  {
    && (pc.Collecting? || pc.Reading? ==> s.reg.probes[pc.probe].done)
    && (pc.Answered? && pc.verdict != ProbeTimedOut ==>
          s.reg.probes[pc.probe].done && pc.verdict == Judge(s.reg.probes[pc.probe]))
    && (pc.Answered? && pc.verdict == ProbeTimedOut ==> s.reg.probes[pc.probe].expired)
  }

  predicate ClaimedMeansDone(s: System)
    requires WellFormed(s)
  {
    forall c :: 0 <= c < |s.callers| ==> CallerSound(s, s.callers[c].pc)
  }

  predicate Registered(s: System, p: ProbeId)
    requires WellFormed(s)
  {
    p < |s.urls| && IsCurrent(s.reg, s.urls[p], p)
  }

  predicate UnfinishedIsRegistered(s: System)
    requires WellFormed(s)
  {
    forall p :: 0 <= p < |s.runners| && !s.reg.probes[p].done ==> Registered(s, p)
  }

  predicate Attended(s: System, p: ProbeId) {
    exists c :: 0 <= c < |s.callers| && Attends(s.callers[c].pc, p)
  }

  /** A registered probe that nobody has timed out on still has a caller coming back to it. */
  predicate UnexpiredIsAttended(s: System)
    requires WellFormed(s)
  {
    forall p :: 0 <= p < |s.runners| && Registered(s, p) && !s.reg.probes[p].expired && !s.runners[p].NeverStarted?
      ==> Attended(s, p)
  }

  /** A registered probe that is expired and done is about to be removed by its own runner. */
  predicate StaleIsBeingRetired(s: System)
    requires WellFormed(s)
  {
    forall p :: 0 <= p < |s.runners| && Registered(s, p) && s.reg.probes[p].expired && s.reg.probes[p].done
      ==> s.runners[p].Signalled?
  }

  predicate SilentUntilDelivered(s: System)
    requires WellFormed(s)
  {
    forall p :: 0 <= p < |s.runners| ==>
      var probe := s.reg.probes[p];
      && (s.runners[p].Calling? || s.runners[p].NeverStarted? ==> probe.response == NoResponse && !probe.failed)
      && (probe.failed ==> probe.response == NoResponse)
  }

  /** What holds of the probes and their runners, whatever the callers do. */
  predicate ProbesSound(s: System)
    requires WellFormed(s)
  {
    DoneMeansSignalled(s) && UnfinishedIsRegistered(s) && StaleIsBeingRetired(s) && SilentUntilDelivered(s)
  }

  predicate Inv(s: System) {
    && WellFormed(s)
    && ProbesSound(s)
    && ClaimedMeansDone(s)
    && UnexpiredIsAttended(s)
  }

  /** The actions that change neither the registry nor the runners. */
  predicate Quiet(a: Action) {
    a.Arrive? || a.CheckExpired? || a.Wake? || a.Read?
  }

  lemma QuietKeepsWellFormed(s: System, a: Action)
    requires WellFormed(s) && Enabled(s, a) && Quiet(a)
    ensures WellFormed(Next(s, a))
  {
  }

  lemma AskKeepsWellFormed(s: System, c: nat, threadStarts: bool)
    requires WellFormed(s) && Enabled(s, Ask(c, threadStarts))
    ensures WellFormed(Next(s, Ask(c, threadStarts)))
  {
  }

  lemma CleanUpKeepsWellFormed(s: System, a: Action)
    requires WellFormed(s) && Enabled(s, a) && (a.CleanUpTimeout? || a.Collect?)
    ensures WellFormed(Next(s, a))
  {
    assert PcKnown(s, s.callers[a.c]);
  }

  lemma RunnerKeepsWellFormed(s: System, a: Action)
    requires WellFormed(s) && Enabled(s, a) && (a.Deliver? || a.Signal? || a.CleanUpRunner?)
    ensures WellFormed(Next(s, a))
  {
    assert Next(s, a).callers == s.callers;
  }

  lemma NextKeepsWellFormed(s: System, a: Action)
    requires WellFormed(s) && Enabled(s, a)
    ensures WellFormed(Next(s, a))
  {
    hide Next, WellFormed, Enabled;
    match a
    case Ask(c, threadStarts) => AskKeepsWellFormed(s, c, threadStarts);
    case CleanUpTimeout(_) => CleanUpKeepsWellFormed(s, a);
    case Collect(_) => CleanUpKeepsWellFormed(s, a);
    case Deliver(_, _) => RunnerKeepsWellFormed(s, a);
    case Signal(_) => RunnerKeepsWellFormed(s, a);
    case CleanUpRunner(_) => RunnerKeepsWellFormed(s, a);
    case _ => QuietKeepsWellFormed(s, a);
  }

  lemma QuietKeepsProbes(s: System, a: Action)
    requires Inv(s) && Enabled(s, a) && Quiet(a)
    ensures WellFormed(Next(s, a)) && ProbesSound(Next(s, a))
  {
    NextKeepsWellFormed(s, a);
    var t := Next(s, a);
    assert t.reg == s.reg && t.runners == s.runners && t.urls == s.urls;
  }

  lemma JoinKeepsProbes(s: System, c: nat, threadStarts: bool)
    requires Inv(s) && Enabled(s, Ask(c, threadStarts)) && Reusable(s.reg, s.callers[c].url)
    ensures WellFormed(Next(s, Ask(c, threadStarts))) && ProbesSound(Next(s, Ask(c, threadStarts)))
  {
    NextKeepsWellFormed(s, Ask(c, threadStarts));
    var t := Next(s, Ask(c, threadStarts));
    assert t.reg == s.reg && t.runners == s.runners && t.urls == s.urls;
  }

  /** Registering a new probe displaces only one that is expired and done. */
  lemma RegisterKeepsProbes(s: System, c: nat, threadStarts: bool)
    requires Inv(s) && Enabled(s, Ask(c, threadStarts)) && !Reusable(s.reg, s.callers[c].url)
    ensures WellFormed(Next(s, Ask(c, threadStarts))) && ProbesSound(Next(s, Ask(c, threadStarts)))
  {
    NextKeepsWellFormed(s, Ask(c, threadStarts));
    var t, n := Next(s, Ask(c, threadStarts)), |s.runners|;
    assert t.reg.probes[n] == NEW_PROBE && t.urls[n] == s.callers[c].url && t.reg.current[t.urls[n]] == n;
    forall p | 0 <= p < n
      ensures t.reg.probes[p] == s.reg.probes[p] && t.runners[p] == s.runners[p] && t.urls[p] == s.urls[p]
      ensures Registered(t, p) ==> Registered(s, p)
      ensures Registered(s, p) && !Registered(t, p) ==> s.reg.probes[p].expired && s.reg.probes[p].done
    {
    }
  }

  lemma AskKeepsProbes(s: System, c: nat, threadStarts: bool)
    requires Inv(s) && Enabled(s, Ask(c, threadStarts))
    ensures WellFormed(Next(s, Ask(c, threadStarts))) && ProbesSound(Next(s, Ask(c, threadStarts)))
  {
    hide Next, ProbesSound;
    if Reusable(s.reg, s.callers[c].url) {
      JoinKeepsProbes(s, c, threadStarts);
    } else {
      RegisterKeepsProbes(s, c, threadStarts);
    }
  }

  lemma TimeoutKeepsProbes(s: System, c: nat)
    requires Inv(s) && Enabled(s, CleanUpTimeout(c))
    ensures WellFormed(Next(s, CleanUpTimeout(c))) && ProbesSound(Next(s, CleanUpTimeout(c)))
  {
    NextKeepsWellFormed(s, CleanUpTimeout(c));
    assert PcKnown(s, s.callers[c]);
  }

  lemma CollectKeepsProbes(s: System, c: nat)
    requires Inv(s) && Enabled(s, Collect(c))
    ensures WellFormed(Next(s, Collect(c))) && ProbesSound(Next(s, Collect(c)))
  {
    NextKeepsWellFormed(s, Collect(c));
    assert PcKnown(s, s.callers[c]) && CallerSound(s, s.callers[c].pc);
  }

  lemma DeliverKeepsProbes(s: System, p: ProbeId, result: Result)
    requires Inv(s) && Enabled(s, Deliver(p, result))
    ensures WellFormed(Next(s, Deliver(p, result))) && ProbesSound(Next(s, Deliver(p, result)))
  {
    NextKeepsWellFormed(s, Deliver(p, result));
  }

  lemma SignalKeepsProbes(s: System, p: ProbeId)
    requires Inv(s) && Enabled(s, Signal(p))
    ensures WellFormed(Next(s, Signal(p))) && ProbesSound(Next(s, Signal(p)))
  {
    NextKeepsWellFormed(s, Signal(p));
  }

  lemma RunnerKeepsProbes(s: System, p: ProbeId)
    requires Inv(s) && Enabled(s, CleanUpRunner(p))
    ensures WellFormed(Next(s, CleanUpRunner(p))) && ProbesSound(Next(s, CleanUpRunner(p)))
  {
    NextKeepsWellFormed(s, CleanUpRunner(p));
  }

  lemma NextKeepsProbes(s: System, a: Action)
    requires Inv(s) && Enabled(s, a)
    ensures WellFormed(Next(s, a)) && ProbesSound(Next(s, a))
  {
    hide Next, Inv, ProbesSound, Enabled;
    match a
    case Ask(c, threadStarts) => AskKeepsProbes(s, c, threadStarts);
    case CleanUpTimeout(c) => TimeoutKeepsProbes(s, c);
    case Collect(c) => CollectKeepsProbes(s, c);
    case Deliver(p, result) => DeliverKeepsProbes(s, p, result);
    case Signal(p) => SignalKeepsProbes(s, p);
    case CleanUpRunner(p) => RunnerKeepsProbes(s, p);
    case _ => QuietKeepsProbes(s, a);
  }

  /** A probe object is never forgotten, its flags are only ever raised, and once it is
      done its result is frozen. */
  lemma FlagsOnlyRise(s: System, a: Action, p: ProbeId)
    requires Inv(s) && Enabled(s, a) && Knows(s.reg, p)
    ensures Knows(Next(s, a).reg, p) && p < |Next(s, a).urls| && Next(s, a).urls[p] == s.urls[p]
    ensures s.reg.probes[p].done ==>
      Next(s, a).reg.probes[p].done && Judge(Next(s, a).reg.probes[p]) == Judge(s.reg.probes[p])
    ensures s.reg.probes[p].expired ==> Next(s, a).reg.probes[p].expired
  {
  }

  predicate ByCaller(a: Action) {
    !a.Arrive? && !a.Deliver? && !a.Signal? && !a.CleanUpRunner?
  }

  lemma StepperStaysSound(s: System, a: Action)
    requires Inv(s) && Enabled(s, a) && ByCaller(a)
    ensures WellFormed(Next(s, a)) && CallerSound(Next(s, a), Next(s, a).callers[a.c].pc)
  {
    NextKeepsWellFormed(s, a);
    assert CallerSound(s, s.callers[a.c].pc);
  }

  lemma OthersStayPut(s: System, a: Action, c: nat)
    requires WellFormed(s) && Enabled(s, a) && c < |Next(s, a).callers|
    ensures a.Arrive? || |Next(s, a).callers| == |s.callers|
    ensures !(a.Arrive? && c == |s.callers|) && !(ByCaller(a) && a.c == c) ==>
      c < |s.callers| && Next(s, a).callers[c] == s.callers[c]
  {
  }

  lemma NextKeepsClaimed(s: System, a: Action)
    requires Inv(s) && Enabled(s, a)
    ensures WellFormed(Next(s, a)) && ClaimedMeansDone(Next(s, a))
  {
    NextKeepsWellFormed(s, a);
    var t := Next(s, a);
    forall c | 0 <= c < |t.callers|
      ensures CallerSound(t, t.callers[c].pc)
    {
      OthersStayPut(s, a, c);
      if c < |s.callers| && t.callers[c] == s.callers[c] {
        assert CallerSound(s, s.callers[c].pc);
        if !t.callers[c].pc.Asking? && !t.callers[c].pc.Crashed? {
          FlagsOnlyRise(s, a, t.callers[c].pc.probe);
        }
      } else if !a.Arrive? {
        StepperStaysSound(s, a);
      }
    }
  }

  lemma QuietKeepsAttended(s: System, a: Action)
    requires Inv(s) && Enabled(s, a) && Quiet(a)
    ensures WellFormed(Next(s, a)) && UnexpiredIsAttended(Next(s, a))
  {
    NextKeepsWellFormed(s, a);
    var t := Next(s, a);
    assert t.reg == s.reg && t.runners == s.runners && t.urls == s.urls;
    forall p | 0 <= p < |t.runners| && Registered(t, p) && !t.reg.probes[p].expired && !t.runners[p].NeverStarted?
      ensures Attended(t, p)
    {
      assert Registered(s, p);
      var c :| 0 <= c < |s.callers| && Attends(s.callers[c].pc, p);
      assert Attends(t.callers[c].pc, p);
    }
  }

  lemma AskKeepsAttended(s: System, c: nat, threadStarts: bool)
    requires Inv(s) && Enabled(s, Ask(c, threadStarts))
    ensures var t := Next(s, Ask(c, threadStarts)); WellFormed(t) && UnexpiredIsAttended(t)
  {
    NextKeepsWellFormed(s, Ask(c, threadStarts));
    var t := Next(s, Ask(c, threadStarts));
    forall p | 0 <= p < |t.runners| && Registered(t, p) && !t.reg.probes[p].expired && !t.runners[p].NeverStarted?
      ensures Attended(t, p)
    {
      if p < |s.runners| {
        assert Registered(s, p);
        var d :| 0 <= d < |s.callers| && Attends(s.callers[d].pc, p);
        assert Attends(t.callers[d].pc, p);
      } else {
        assert Attends(t.callers[c].pc, p);
      }
    }
  }

  /** A caller that cleans up leaves no probe behind that only it attended. */
  lemma CleanUpKeepsAttended(s: System, a: Action)
    requires Inv(s) && Enabled(s, a) && (a.CleanUpTimeout? || a.Collect?)
    ensures WellFormed(Next(s, a)) && UnexpiredIsAttended(Next(s, a))
  {
    NextKeepsWellFormed(s, a);
    assert PcKnown(s, s.callers[a.c]) && CallerSound(s, s.callers[a.c].pc);
    var t := Next(s, a);
    forall p | 0 <= p < |t.runners| && Registered(t, p) && !t.reg.probes[p].expired && !t.runners[p].NeverStarted?
      ensures Attended(t, p)
    {
      assert Registered(s, p);
      var c :| 0 <= c < |s.callers| && Attends(s.callers[c].pc, p);
      assert Attends(t.callers[c].pc, p);
    }
  }

  lemma RunnerKeepsAttended(s: System, a: Action)
    requires Inv(s) && Enabled(s, a) && (a.Deliver? || a.Signal? || a.CleanUpRunner?)
    ensures WellFormed(Next(s, a)) && UnexpiredIsAttended(Next(s, a))
  {
    NextKeepsWellFormed(s, a);
    var t := Next(s, a);
    assert t.callers == s.callers;
    forall p | 0 <= p < |t.runners| && Registered(t, p) && !t.reg.probes[p].expired && !t.runners[p].NeverStarted?
      ensures Attended(t, p)
    {
      assert Registered(s, p);
      assert Attended(s, p);
    }
  }

  lemma NextKeepsAttended(s: System, a: Action)
    requires Inv(s) && Enabled(s, a)
    ensures WellFormed(Next(s, a)) && UnexpiredIsAttended(Next(s, a))
  {
    hide Next, Inv, UnexpiredIsAttended, Enabled;
    match a
    case Ask(c, threadStarts) => AskKeepsAttended(s, c, threadStarts);
    case CleanUpTimeout(_) => CleanUpKeepsAttended(s, a);
    case Collect(_) => CleanUpKeepsAttended(s, a);
    case Deliver(_, _) => RunnerKeepsAttended(s, a);
    case Signal(_) => RunnerKeepsAttended(s, a);
    case CleanUpRunner(_) => RunnerKeepsAttended(s, a);
    case _ => QuietKeepsAttended(s, a);
  }

  lemma NextKeepsInv(s: System, a: Action)
    requires Inv(s) && Enabled(s, a)
    ensures Inv(Next(s, a))
  {
    hide Next, ProbesSound, ClaimedMeansDone, UnexpiredIsAttended, WellFormed, Enabled;
    NextKeepsProbes(s, a);
    NextKeepsClaimed(s, a);
    NextKeepsAttended(s, a);
  }

  // ---------- runs ----------

  ghost predicate Runs(s: System, run: seq<Action>)
    requires WellFormed(s)
    decreases |run|
  {
    run == [] || (Enabled(s, run[0]) && WellFormed(Next(s, run[0])) && Runs(Next(s, run[0]), run[1..]))
  }

  ghost function After(s: System, run: seq<Action>): (t: System)
    requires WellFormed(s) && Runs(s, run)
    ensures WellFormed(t)
    decreases |run|
  {
    if run == [] then s else After(Next(s, run[0]), run[1..])
  }

  lemma {:induction false} InvAlongRun(s: System, run: seq<Action>)
    requires Inv(s) && Runs(s, run)
    ensures Inv(After(s, run))
    decreases |run|
  {
    if run != [] {
      NextKeepsInv(s, run[0]);
      InvAlongRun(Next(s, run[0]), run[1..]);
    }
  }

  predicate Running(r: Runner) {
    r.Calling? || r.Delivered?
  }

  /** At any moment of any run at most one probe of a URL is unfinished, and it is the
      one a new caller would join; so at most one health request per URL is in flight. */
  lemma SingleFlight(run: seq<Action>, p: ProbeId, q: ProbeId)
    requires Runs(INITIAL, run)
    ensures var s := After(INITIAL, run);
      && Inv(s)
      && (p < |s.runners| && q < |s.runners| && s.urls[p] == s.urls[q] && Running(s.runners[p]) && Running(s.runners[q])
          ==> p == q && LookUp(s.reg, s.urls[p]) == (s.reg, p))
  {
    InvAlongRun(INITIAL, run);
  }

  predicate Quiescent(s: System) {
    && (forall c :: 0 <= c < |s.callers| ==> Finished(s.callers[c].pc))
    && (forall p :: 0 <= p < |s.runners| ==> s.runners[p].Exited? || s.runners[p].NeverStarted?)
  }

  /** No probe leaks: once every caller and every runner is finished, the dictionary holds
      exactly the probes whose thread could not be started, and so it is empty if every
      thread started. */
  lemma NothingLeaks(run: seq<Action>, url: Url)
    requires Runs(INITIAL, run) && Quiescent(After(INITIAL, run))
    ensures var s := After(INITIAL, run);
      Inv(s) && (url in s.reg.current <==>
        exists p :: 0 <= p < |s.runners| && s.urls[p] == url && s.runners[p].NeverStarted?)
  {
    InvAlongRun(INITIAL, run);
    var s := After(INITIAL, run);
    if url in s.reg.current {
      var p := s.reg.current[url];
      assert Registered(s, p);
    }
    forall p | 0 <= p < |s.runners| && s.urls[p] == url && s.runners[p].NeverStarted?
      ensures url in s.reg.current
    {
      assert Registered(s, p);
    }
  }

  /** A probe whose thread could not be started stays registered in every extension of the run. */
  lemma {:induction false} NeverStartedStays(s: System, run: seq<Action>, p: ProbeId)
    requires Inv(s) && Runs(s, run) && p < |s.runners| && s.runners[p].NeverStarted?
    ensures var t := After(s, run);
      && p < |t.runners| && t.runners[p].NeverStarted? && t.urls[p] == s.urls[p] && IsCurrent(t.reg, t.urls[p], p)
    decreases |run|
  {
    if run == [] {
      assert Registered(s, p);
    } else {
      NextKeepsInv(s, run[0]);
      FlagsOnlyRise(s, run[0], p);
      NeverStartedStays(Next(s, run[0]), run[1..], p);
    }
  }

  /** The callers of a URL whose registered probe was never started can only time out on it. */
  ghost predicate Stuck(s: System, url: Url, p: ProbeId) {
    forall c :: 0 <= c < |s.callers| && s.callers[c].url == url ==> StuckAt(s.callers[c].pc, p)
  }

  predicate StuckAt(pc: CallerPc, p: ProbeId) {
    pc.Asking? || pc.Crashed?
    || (pc.probe == p && (pc.Holding? || pc.Waiting? || pc.GivingUp? || pc == Answered(p, ProbeTimedOut)))
  }

  predicate IsNeverStarted(s: System, p: ProbeId) {
    p < |s.runners| && p < |s.urls| && s.runners[p].NeverStarted?
  }

  lemma AskStaysStuck(s: System, c: nat, threadStarts: bool, p: ProbeId)
    requires Inv(s) && Enabled(s, Ask(c, threadStarts)) && IsNeverStarted(s, p) && s.callers[c].url == s.urls[p]
    ensures Next(s, Ask(c, threadStarts)).callers[c].pc == Holding(p)
  {
    assert Registered(s, p) && !s.reg.probes[p].done;
  }

  lemma StepStaysStuck(s: System, a: Action, p: ProbeId)
    requires Inv(s) && Enabled(s, a) && IsNeverStarted(s, p) && Stuck(s, s.urls[p], p)
    ensures Stuck(Next(s, a), s.urls[p], p)
  {
    var t := Next(s, a);
    forall c | 0 <= c < |t.callers| && t.callers[c].url == s.urls[p]
      ensures StuckAt(t.callers[c].pc, p)
    {
      OthersStayPut(s, a, c);
      if ByCaller(a) && a.c == c {
        assert StuckAt(s.callers[c].pc, p) && !s.reg.probes[p].done;
        if a.Ask? {
          AskStaysStuck(s, c, a.threadStarts, p);
        }
      }
    }
  }

  lemma {:induction false} RunStaysStuck(s: System, run: seq<Action>, p: ProbeId)
    requires Inv(s) && Runs(s, run) && IsNeverStarted(s, p) && Stuck(s, s.urls[p], p)
    ensures Stuck(After(s, run), s.urls[p], p)
    decreases |run|
  {
    hide Next, Stuck, Enabled, WellFormed, ProbesSound, ClaimedMeansDone, UnexpiredIsAttended;
    if run != [] {
      NextKeepsInv(s, run[0]);
      StepStaysStuck(s, run[0], p);
      NeverStartedStep(s, run[0], p);
      RunStaysStuck(Next(s, run[0]), run[1..], p);
    }
  }

  lemma NeverStartedStep(s: System, a: Action, p: ProbeId)
    requires Inv(s) && Enabled(s, a) && IsNeverStarted(s, p)
    ensures IsNeverStarted(Next(s, a), p) && Next(s, a).urls[p] == s.urls[p]
  {
    FlagsOnlyRise(s, a, p);
  }

  lemma LeakLasts(s: System, run: seq<Action>, p: ProbeId)
    requires Inv(s) && Runs(s, run) && IsNeverStarted(s, p) && Stuck(s, s.urls[p], p)
    ensures var t := After(s, run);
      && IsCurrent(t.reg, s.urls[p], p)
      && (forall c :: 0 <= c < |t.callers| && t.callers[c].url == s.urls[p] && t.callers[c].pc.Answered? ==>
            t.callers[c].pc.verdict == ProbeTimedOut)
  {
    NeverStartedStays(s, run, p);
    RunStaysStuck(s, run, p);
    hide After, Runs, Inv;
    assert forall c :: 0 <= c < |After(s, run).callers| && After(s, run).callers[c].url == s.urls[p] ==>
        StuckAt(After(s, run).callers[c].pc, p);
  }

  lemma FailedStart(url: Url)
    ensures Runs(INITIAL, [Arrive(url), Ask(0, false)])
    ensures var s := After(INITIAL, [Arrive(url), Ask(0, false)]);
      Inv(s) && Quiescent(s) && IsNeverStarted(s, 0) && s.urls[0] == url && Stuck(s, url, 0)
  {
    var failure := [Arrive(url), Ask(0, false)];
    var arrived := Next(INITIAL, Arrive(url));
    var s := Next(arrived, Ask(0, false));
    NextKeepsInv(INITIAL, Arrive(url));
    NextKeepsInv(arrived, Ask(0, false));
    assert failure[1..] == [Ask(0, false)] && failure[1..][1..] == [];
    assert After(arrived, [Ask(0, false)]) == s;
    assert After(INITIAL, failure) == After(arrived, failure[1..]);
  }

  /** One failed start is enough: everybody is finished, the probe is registered for ever, and
      every later answer for that URL is that the probe timed out. */
  lemma FailedStartLeaks(url: Url, run: seq<Action>)
    ensures Runs(INITIAL, [Arrive(url), Ask(0, false)])
    ensures var s := After(INITIAL, [Arrive(url), Ask(0, false)]);
      && Quiescent(s)
      && (Runs(s, run) ==>
            var t := After(s, run);
            && IsCurrent(t.reg, url, 0)
            && (forall c :: 0 <= c < |t.callers| && t.callers[c].url == url && t.callers[c].pc.Answered? ==>
                  t.callers[c].pc.verdict == ProbeTimedOut))
  {
    FailedStart(url);
    hide After, Inv, Quiescent, Stuck, IsNeverStarted, IsCurrent, Next;
    var s := After(INITIAL, [Arrive(url), Ask(0, false)]);
    if Runs(s, run) {
      LeakLasts(s, run, 0);
    }
  }

  /** The thread that takes a step acts on this probe. */
  predicate ActsOn(s: System, a: Action, p: ProbeId)
    requires WellFormed(s) && Enabled(s, a)
  {
    match a
    case CleanUpTimeout(c) => s.callers[c].pc.probe == p
    case Collect(c) => s.callers[c].pc.probe == p
    case CleanUpRunner(q) => q == p
    case _ => false
  }

  /** Whatever the interleaving, an entry disappears only when its probe is done, and then
      only by a thread that holds that very probe, or by a lookup that finds it expired
      while its own runner has yet to retire it. */
  lemma OnlyOwnersRemove(run: seq<Action>, a: Action, url: Url)
    requires Runs(INITIAL, run) && Enabled(After(INITIAL, run), a)
    ensures var s := After(INITIAL, run);
      && Inv(s)
      && (url in s.reg.current && !IsCurrent(Next(s, a).reg, url, s.reg.current[url]) ==>
            var p := s.reg.current[url];
            && s.reg.probes[p].done
            && (ActsOn(s, a, p)
                || (a.Ask? && s.callers[a.c].url == url && s.reg.probes[p].expired && s.runners[p].Signalled?)))
  {
    InvAlongRun(INITIAL, run);
    var s := After(INITIAL, run);
    if url in s.reg.current {
      assert Registered(s, s.reg.current[url]);
    }
  }

  /** An `Ok` is only ever given for a probe whose runner delivered a healthy response. */
  lemma VerdictsAreTrue(run: seq<Action>, c: nat)
    requires Runs(INITIAL, run)
    requires c < |After(INITIAL, run).callers| && After(INITIAL, run).callers[c].pc.Answered?
    ensures var s := After(INITIAL, run);
      && Inv(s)
      && var (p, verdict) := (s.callers[c].pc.probe, s.callers[c].pc.verdict);
      && s.urls[p] == s.callers[c].url
      && (verdict == ProbeTimedOut ==> s.reg.probes[p].expired)
      && (verdict == Ok ==> s.reg.probes[p] == Probe(true, HealthOk, false, s.reg.probes[p].expired))
      && (verdict == ProbeFailed ==> s.reg.probes[p].done && s.reg.probes[p].failed)
      && (verdict == ProbeMalformed ==>
            s.reg.probes[p].done && !s.reg.probes[p].failed && s.reg.probes[p].response != HealthOk)
  {
    InvAlongRun(INITIAL, run);
    var s := After(INITIAL, run);
    assert PcKnown(s, s.callers[c]);
  }

  lemma NobodyPassesExpired(s: System, a: Action, p: ProbeId, c: nat)
    requires Inv(s) && Enabled(s, a)
    requires Knows(s.reg, p) && s.reg.probes[p].expired
    requires c < |Next(s, a).callers| && Past(Next(s, a).callers[c].pc, p)
    ensures c < |s.callers| && Past(s.callers[c].pc, p)
  {
    OthersStayPut(s, a, c);
  }

  /** Expiry is final: from then on nobody gets past the probe who was not already past it. */
  lemma {:induction false} ExpiryIsFinal(s: System, run: seq<Action>, p: ProbeId, c: nat)
    requires Inv(s) && Runs(s, run)
    requires Knows(s.reg, p) && s.reg.probes[p].expired
    requires c < |After(s, run).callers| && Past(After(s, run).callers[c].pc, p)
    ensures c < |s.callers| && Past(s.callers[c].pc, p)
    decreases |run|
  {
    if run != [] {
      NextKeepsInv(s, run[0]);
      FlagsOnlyRise(s, run[0], p);
      ExpiryIsFinal(Next(s, run[0]), run[1..], p, c);
      NobodyPassesExpired(s, run[0], p, c);
    }
  }

  // ---------- every request is finished in a bounded number of steps ----------

  function CallerWork(pc: CallerPc): nat {
    match pc
    case Asking => 8
    case Holding(_) => 4
    case Waiting(_) => 3
    case GivingUp(_) => 1
    case Collecting(_) => 2
    case Reading(_) => 1
    case Answered(_, _) => 0
    case Crashed => 0
  }

  function RunnerWork(r: Runner): nat {
    match r
    case Calling => 3
    case Delivered => 2
    case Signalled => 1
    case Exited => 0
    case NeverStarted => 0
  }

  function CallersWork(cs: seq<Caller>): nat {
    if cs == [] then 0 else CallersWork(cs[..|cs| - 1]) + CallerWork(cs[|cs| - 1].pc)
  }

  function RunnersWork(rs: seq<Runner>): nat {
    if rs == [] then 0 else RunnersWork(rs[..|rs| - 1]) + RunnerWork(rs[|rs| - 1])
  }

  lemma {:induction false} CallersWorkUpdate(cs: seq<Caller>, c: nat, caller: Caller)
    requires c < |cs|
    ensures CallersWork(cs[c := caller]) == CallersWork(cs) - CallerWork(cs[c].pc) + CallerWork(caller.pc)
  {
    var n := |cs| - 1;
    if c < n {
      CallersWorkUpdate(cs[..n], c, caller);
      assert cs[c := caller][..n] == cs[..n][c := caller];
    } else {
      assert cs[c := caller][..n] == cs[..n];
    }
  }

  lemma {:induction false} RunnersWorkUpdate(rs: seq<Runner>, p: nat, r: Runner)
    requires p < |rs|
    ensures RunnersWork(rs[p := r]) == RunnersWork(rs) - RunnerWork(rs[p]) + RunnerWork(r)
  {
    var n := |rs| - 1;
    if p < n {
      RunnersWorkUpdate(rs[..n], p, r);
      assert rs[p := r][..n] == rs[..n][p := r];
    } else {
      assert rs[p := r][..n] == rs[..n];
    }
  }

  function Work(s: System): nat {
    CallersWork(s.callers) + RunnersWork(s.runners)
  }

  function Arrivals(run: seq<Action>): nat {
    if run == [] then 0 else (if run[0].Arrive? then 1 else 0) + Arrivals(run[1..])
  }

  lemma AskSpendsWork(s: System, c: nat, threadStarts: bool)
    requires WellFormed(s) && Enabled(s, Ask(c, threadStarts))
    ensures Work(Next(s, Ask(c, threadStarts))) + 1 <= Work(s)
  {
    var t := Next(s, Ask(c, threadStarts));
    CallersWorkUpdate(s.callers, c, t.callers[c]);
    if t.runners != s.runners {
      assert t.runners[..|s.runners|] == s.runners;
    }
  }

  lemma CallerStepSpendsWork(s: System, a: Action, c: nat)
    requires WellFormed(s) && Enabled(s, a)
    requires a == CheckExpired(c) || (a.Wake? && a.c == c) || a == CleanUpTimeout(c) || a == Collect(c) || a == Read(c)
    ensures Work(Next(s, a)) + 1 <= Work(s)
  {
    CallersWorkUpdate(s.callers, c, Next(s, a).callers[c]);
  }

  lemma RunnerStepSpendsWork(s: System, a: Action, p: nat)
    requires WellFormed(s) && Enabled(s, a)
    requires (a.Deliver? && a.p == p) || a == Signal(p) || a == CleanUpRunner(p)
    ensures Work(Next(s, a)) + 1 <= Work(s)
  {
    RunnersWorkUpdate(s.runners, p, Next(s, a).runners[p]);
  }

  lemma StepSpendsWork(s: System, a: Action)
    requires WellFormed(s) && Enabled(s, a)
    ensures Work(Next(s, a)) + 1 <= Work(s) + if a.Arrive? then 9 else 0
  {
    if a.Arrive? {
      assert Next(s, a).callers[..|s.callers|] == s.callers;
    } else if a.Ask? {
      AskSpendsWork(s, a.c, a.threadStarts);
    } else if a.Deliver? || a.Signal? || a.CleanUpRunner? {
      RunnerStepSpendsWork(s, a, a.p);
    } else {
      CallerStepSpendsWork(s, a, a.c);
    }
  }

  lemma {:induction false} RunSpendsWork(s: System, run: seq<Action>)
    requires WellFormed(s) && Runs(s, run)
    ensures Work(After(s, run)) + |run| <= Work(s) + 9 * Arrivals(run)
    decreases |run|
  {
    if run != [] {
      StepSpendsWork(s, run[0]);
      RunSpendsWork(Next(s, run[0]), run[1..]);
    }
  }

  lemma SomebodyCanStep(s: System)
    requires WellFormed(s) && !Quiescent(s)
    ensures exists a: Action :: !a.Arrive? && Enabled(s, a)
  {
    if c: nat :| c < |s.callers| && !Finished(s.callers[c].pc) {
      var pc := s.callers[c].pc;
      var a := if pc.Asking? then Ask(c, true)
               else if pc.Holding? then CheckExpired(c)
               else if pc.Waiting? then Wake(c, true)
               else if pc.GivingUp? then CleanUpTimeout(c)
               else if pc.Collecting? then Collect(c)
               else Read(c);
      assert Enabled(s, a);
    } else {
      var p: nat :| p < |s.runners| && !s.runners[p].Exited? && !s.runners[p].NeverStarted?;
      var a := if s.runners[p].Calling? then Deliver(p, Exception)
               else if s.runners[p].Delivered? then Signal(p)
               else CleanUpRunner(p);
      assert Enabled(s, a);
    }
  }

  /** No livelock and no deadlock: `n` requests take at most `9 * n` atomic steps of all the
      threads together, and as long as somebody is unfinished some thread can step. */
  lemma RequestsFinish(run: seq<Action>)
    requires Runs(INITIAL, run)
    ensures |run| <= 9 * Arrivals(run)
    ensures Quiescent(After(INITIAL, run)) || exists a: Action :: !a.Arrive? && Enabled(After(INITIAL, run), a)
  {
    RunSpendsWork(INITIAL, run);
    if !Quiescent(After(INITIAL, run)) {
      SomebodyCanStep(After(INITIAL, run));
    }
  }
}
