/** The workload governor: it sheds optional work after enough consecutive pressured
    snapshots, restores it after enough consecutive clear ones, and accepts each worker
    result once per snapshot version. */
module Governor {
  import opened Common

  datatype Metrics = Metrics(version: int, queueDepth: int, lockWait: real, sourceLoss: bool, toDecision: real,
                             toQuote: real, memory: real, connections: int)

  datatype Reason = QueueDepth | LockWait | SourceLoss | ToDecision | ToQuote | Memory | Connections

  datatype PressureState = PressureState(shedding: bool, failures: nat, recoveries: nat, version: int,
                                         reasons: seq<Reason>, workerFailures: seq<string>)

  const SHED_ORDER := ["model", "grading", "sentinel", "dashboard_analytics"]
  const CORE_TIERS := {"ingestion", "risk", "kill_switch", "reconciliation", "protective_exit"}

  function PressureReasons(m: Metrics): seq<Reason> {
    var reasons := Note([], m.queueDepth > 100, QueueDepth);
    var reasons := Note(reasons, m.lockWait > 50.0, LockWait);
    var reasons := Note(reasons, m.sourceLoss, SourceLoss);
    var reasons := Note(reasons, m.toDecision > 1000.0, ToDecision);
    var reasons := Note(reasons, m.toQuote > 1000.0, ToQuote);
    var reasons := Note(reasons, m.memory > 85.0, Memory);
    Note(reasons, m.connections > 100, Connections)
  }

  predicate Pressured(m: Metrics) {
    PressureReasons(m) != []
  }

  /** One of the seven limits is exceeded. */
  predicate OverALimit(m: Metrics) {
    || m.queueDepth > 100
    || m.lockWait > 50.0
    || m.sourceLoss
    || m.toDecision > 1000.0
    || m.toQuote > 1000.0
    || m.memory > 85.0
    || m.connections > 100
  }

  function Rank(r: Reason): nat {
    match r
    case QueueDepth => 0
    case LockWait => 1
    case SourceLoss => 2
    case ToDecision => 3
    case ToQuote => 4
    case Memory => 5
    case Connections => 6
  }

  /** Each reason is there if and only if its metric is over its limit, once, in a fixed order. */
  predicate Publishes(m: Metrics, reasons: seq<Reason>) {
    && (Lists(reasons, QueueDepth) <==> m.queueDepth > 100)
    && (Lists(reasons, LockWait) <==> m.lockWait > 50.0)
    && (Lists(reasons, SourceLoss) <==> m.sourceLoss)
    && (Lists(reasons, ToDecision) <==> m.toDecision > 1000.0)
    && (Lists(reasons, ToQuote) <==> m.toQuote > 1000.0)
    && (Lists(reasons, Memory) <==> m.memory > 85.0)
    && (Lists(reasons, Connections) <==> m.connections > 100)
    && Ranked(reasons, Rank)
  }

  /** A window is judged by its metrics alone: the published reasons are those of the limits
      exceeded, and it is pressured if and only if there is one. */
  lemma ReasonsAreTheLimitsExceeded(m: Metrics)
    ensures Publishes(m, PressureReasons(m))
    ensures Pressured(m) <==> OverALimit(m)
  {
    hide Note, Ranked, Under, Lists;
    var reasons := NothingNoted(Rank);
    reasons := NoteInOrder(reasons, m.queueDepth > 100, QueueDepth, Rank, 0);
    reasons := NoteInOrder(reasons, m.lockWait > 50.0, LockWait, Rank, 1);
    reasons := NoteInOrder(reasons, m.sourceLoss, SourceLoss, Rank, 2);
    reasons := NoteInOrder(reasons, m.toDecision > 1000.0, ToDecision, Rank, 3);
    reasons := NoteInOrder(reasons, m.toQuote > 1000.0, ToQuote, Rank, 4);
    reasons := NoteInOrder(reasons, m.memory > 85.0, Memory, Rank, 5);
    reasons := NoteInOrder(reasons, m.connections > 100, Connections, Rank, 6);
  }

  datatype Thresholds = Thresholds(failures: nat, recoveries: nat)

  predicate Positive(k: Thresholds) {
    k.failures >= 1 && k.recoveries >= 1
  }

  /** The part of the governor that decides: its counters and the last version seen. */
  datatype Core = Core(failures: nat, recoveries: nat, shedding: bool, version: int)

  const FRESH := Core(0, 0, false, 0)

  function AfterSnapshot(k: Thresholds, c: Core, m: Metrics): Core {
    if m.version <= c.version then c
    else if Pressured(m) then
      Core(c.failures + 1, 0, c.shedding || c.failures + 1 >= k.failures, m.version)
    else if !c.shedding then Core(0, c.recoveries, false, m.version)
    else if c.recoveries + 1 >= k.recoveries then Core(0, 0, false, m.version)
    else Core(0, c.recoveries + 1, true, m.version)
  }

  class WorkloadGovernor {
    const thresholds: Thresholds
    var failures: nat
    var recoveries: nat
    var disabled: seq<string>
    var version: int
    var results: set<(int, string)>
    var workerFailures: seq<string>
    var state: PressureState

    predicate Valid()
      reads this
    {
      Positive(thresholds) && (disabled == [] || disabled == SHED_ORDER) && |workerFailures| <= 20
    }

    function View(): Core
      reads this
    {
      Core(failures, recoveries, disabled != [], version)
    }

    constructor (consecutiveFailures: int := 3, recoveryWindows: int := 3)
      ensures Valid() && View() == FRESH && results == {} && workerFailures == []
      ensures thresholds == Thresholds(if consecutiveFailures < 1 then 1 else consecutiveFailures,
                                       if recoveryWindows < 1 then 1 else recoveryWindows)
      ensures state == PressureState(false, 0, 0, 0, [], [])
    {
      thresholds := Thresholds(if consecutiveFailures < 1 then 1 else consecutiveFailures,
                               if recoveryWindows < 1 then 1 else recoveryWindows);
      failures, recoveries, disabled, version := 0, 0, [], 0;
      results, workerFailures := {}, [];
      state := PressureState(false, 0, 0, 0, [], []);
    }

    method Observe(m: Metrics) returns (answer: PressureState)
      requires Valid()
      modifies this`failures, this`recoveries, this`disabled, this`version, this`state
      ensures Valid() && View() == AfterSnapshot(thresholds, old(View()), m)
      ensures answer == state
      ensures state ==
        if m.version <= old(version) then old(state)
        else PressureState(disabled != [], failures, recoveries, version, PressureReasons(m), workerFailures)
      ensures disabled == if View().shedding then ["model", "grading", "sentinel", "dashboard_analytics"] else []
      ensures m.version > old(version) ==> Publishes(m, state.reasons)
    {
      if m.version <= version {
        return state;
      }
      version := m.version;
      var reasons := PressureReasons(m);
      ReasonsAreTheLimitsExceeded(m);
      if reasons != [] {
        failures := failures + 1;
        recoveries := 0;
        if failures >= thresholds.failures {
          disabled := SHED_ORDER;
        }
      } else {
        failures := 0;
        if disabled != [] {
          recoveries := recoveries + 1;
          if recoveries >= thresholds.recoveries {
            disabled := [];
            recoveries := 0;
          }
        }
      }
      state := PressureState(disabled != [], failures, recoveries, version, reasons, workerFailures);
      return state;
    }

    /** Core tiers are always allowed, the others unless they are shed. */
    method Allowed(tier: string) returns (allowed: bool)
      requires Valid()
      ensures tier in {"ingestion", "risk", "kill_switch", "reconciliation", "protective_exit"} ==> allowed
      ensures tier in {"model", "grading", "sentinel", "dashboard_analytics"} ==> (allowed <==> !View().shedding)
      ensures allowed <==> tier in CORE_TIERS || !(View().shedding && tier in SHED_ORDER)
    {
      if tier in CORE_TIERS {
        return true;
      }
      return tier !in disabled;
    }

    method RecordResult(identity: string, snapshotVersion: int) returns (accepted: bool)
      modifies this`results
      ensures (results, accepted) == Record(old(results), version, identity, snapshotVersion)
      ensures !accepted ==> results == old(results)
      ensures accepted && |old(results)| < 1000 ==> results == old(results) + {(version, identity)}
      ensures accepted && |old(results)| >= 1000 ==> forall item ::
        item in results <==> (item in old(results) || item == (version, identity)) && item.0 + 5 >= version
    {
      if snapshotVersion != version || identity == "" || (snapshotVersion, identity) in results {
        return false;
      }
      results := results + {(snapshotVersion, identity)};
      if |results| > 1000 {
        results := set item | item in results && item.0 >= version - 5;
      }
      return true;
    }

    /** The failure log keeps the last twenty entries. */
    method RecordWorkerFailure(tier: string, error: string)
      requires Valid()
      modifies this`workerFailures
      ensures Valid() && workerFailures == LastTwenty(old(workerFailures) + [FailureEntry(tier, error)])
      ensures |workerFailures| == if |old(workerFailures)| < 20 then |old(workerFailures)| + 1 else 20
      ensures workerFailures[|workerFailures| - 1] == tier + [':'] + error[..if |error| < 160 then |error| else 160]
    {
      workerFailures := workerFailures + [FailureEntry(tier, error)];
      if |workerFailures| > 20 {
        workerFailures := workerFailures[1..];
      }
    }
  }

  function FailureEntry(tier: string, error: string): string {
    tier + ":" + if |error| <= 160 then error else error[..160]
  }

  function LastTwenty(entries: seq<string>): seq<string> {
    if |entries| <= 20 then entries else entries[|entries| - 20..]
  }

  // ---------- shedding as a property of the history ----------

  /** The last `n` windows before position `e` were all of this kind. */
  predicate AllOf(h: seq<bool>, e: nat, n: nat, kind: bool) {
    n <= e <= |h| && forall i :: e - n <= i < e ==> h[i] == kind
  }

  /** Tiers are shed when some `failures` consecutive pressured windows ended at a moment
      since which no `recoveries` consecutive windows have all been clear. */
  ghost predicate ShedBy(k: Thresholds, h: seq<bool>) {
    exists e: nat :: AllOf(h, e, k.failures, true) && NotClearedSince(k, h, e)
  }

  ghost predicate NotClearedSince(k: Thresholds, h: seq<bool>, e: nat) {
    forall j: nat :: e + k.recoveries <= j <= |h| ==> !AllOf(h, j, k.recoveries, false)
  }

  function Trailing(h: seq<bool>, kind: bool): (n: nat)
    ensures n <= |h| && AllOf(h, |h|, n, kind)
    ensures n < |h| ==> h[|h| - 1 - n] != kind
  {
    if h != [] && h[|h| - 1] == kind then 1 + Trailing(h[..|h| - 1], kind) else 0
  }

  /** What the counters mean, in terms of the pressured flags of all windows so far. */
  ghost predicate Explains(k: Thresholds, h: seq<bool>, c: Core) {
    && c.failures == Trailing(h, true)
    && c.recoveries == (if c.shedding then Trailing(h, false) else 0)
    && (c.shedding <==> ShedBy(k, h))
  }

  lemma AllOfExtends(h: seq<bool>, b: bool, e: nat, n: nat, kind: bool)
    requires e <= |h|
    ensures AllOf(h + [b], e, n, kind) <==> AllOf(h, e, n, kind)
  {
    assert forall i :: 0 <= i < e ==> (h + [b])[i] == h[i];
  }

  lemma TrailingExtends(h: seq<bool>, b: bool, kind: bool)
    ensures Trailing(h + [b], kind) == if b == kind then Trailing(h, kind) + 1 else 0
  {
    assert (h + [b])[..|h|] == h;
  }

  lemma TrailingDecides(h: seq<bool>, n: nat, kind: bool)
    ensures AllOf(h, |h|, n, kind) <==> n <= Trailing(h, kind)
  {
  }

  /** A pressured window keeps what is shed, and sheds when it completes a run. */
  lemma ShedOnPressure(k: Thresholds, h: seq<bool>)
    requires Positive(k)
    ensures ShedBy(k, h + [true]) <==> ShedBy(k, h) || Trailing(h, true) + 1 >= k.failures
  {
    var g := h + [true];
    TrailingExtends(h, true, true);
    if Trailing(g, true) >= k.failures {
      assert AllOf(g, |g|, k.failures, true) && NotClearedSince(k, g, |g|);
    }
    if e: nat :| AllOf(h, e, k.failures, true) && NotClearedSince(k, h, e) {
      AllOfExtends(h, true, e, k.failures, true);
      forall j: nat | e + k.recoveries <= j <= |g|
        ensures !AllOf(g, j, k.recoveries, false)
      {
        if j <= |h| { AllOfExtends(h, true, j, k.recoveries, false); }
      }
    }
    if e: nat :| AllOf(g, e, k.failures, true) && NotClearedSince(k, g, e) {
      if e <= |h| {
        AllOfExtends(h, true, e, k.failures, true);
        NotClearedShrinks(k, h, true, e);
      } else {
        TrailingDecides(g, k.failures, true);
      }
    }
  }

  lemma NotClearedShrinks(k: Thresholds, h: seq<bool>, b: bool, e: nat)
    requires NotClearedSince(k, h + [b], e)
    ensures NotClearedSince(k, h, e)
  {
    forall j: nat | e + k.recoveries <= j <= |h|
      ensures !AllOf(h, j, k.recoveries, false)
    {
      AllOfExtends(h, b, j, k.recoveries, false);
    }
  }

  /** A clear window restores exactly when it completes a run of clear ones. */
  lemma ShedOnClear(k: Thresholds, h: seq<bool>)
    requires Positive(k)
    ensures ShedBy(k, h + [false]) <==> ShedBy(k, h) && Trailing(h, false) + 1 < k.recoveries
  {
    var g := h + [false];
    TrailingExtends(h, false, false);
    if e: nat :| AllOf(g, e, k.failures, true) && NotClearedSince(k, g, e) {
      assert g[e - 1];
      assert e <= |h|;
      AllOfExtends(h, false, e, k.failures, true);
      NotClearedShrinks(k, h, false, e);
      if Trailing(g, false) >= k.recoveries {
        TrailingDecides(g, k.recoveries, false);
        assert false;
      }
    }
    if ShedBy(k, h) && Trailing(g, false) < k.recoveries {
      var e: nat :| AllOf(h, e, k.failures, true) && NotClearedSince(k, h, e);
      AllOfExtends(h, false, e, k.failures, true);
      forall j: nat | e + k.recoveries <= j <= |g|
        ensures !AllOf(g, j, k.recoveries, false)
      {
        if j <= |h| {
          AllOfExtends(h, false, j, k.recoveries, false);
        } else {
          TrailingDecides(g, k.recoveries, false);
        }
      }
    }
  }

  lemma ObserveExplains(k: Thresholds, h: seq<bool>, c: Core, m: Metrics)
    requires Positive(k) && Explains(k, h, c) && m.version > c.version
    ensures Explains(k, h + [OverALimit(m)], AfterSnapshot(k, c, m))
  {
    hide PressureReasons, OverALimit, Publishes;
    ReasonsAreTheLimitsExceeded(m);
    TrailingExtends(h, Pressured(m), true);
    TrailingExtends(h, Pressured(m), false);
    if Pressured(m) {
      ShedOnPressure(k, h);
    } else {
      ShedOnClear(k, h);
    }
  }

  // ---------- streams of snapshots ----------

  function Feed(k: Thresholds, c: Core, stream: seq<Metrics>): Core
    decreases |stream|
  {
    if stream == [] then c else Feed(k, AfterSnapshot(k, c, stream[0]), stream[1..])
  }

  /** The snapshots that set a new version record, starting above `version`. */
  function Records(version: int, stream: seq<Metrics>): seq<Metrics>
    decreases |stream|
  {
    if stream == [] then []
    else if stream[0].version <= version then Records(version, stream[1..])
    else [stream[0]] + Records(stream[0].version, stream[1..])
  }

  /** Which of the windows went over a limit. */
  function Flags(stream: seq<Metrics>): (h: seq<bool>)
    ensures |h| == |stream|
  {
    seq(|stream|, i requires 0 <= i < |stream| => OverALimit(stream[i]))
  }

  lemma LateSnapshotIgnored(k: Thresholds, c: Core, m: Metrics)
    ensures AfterSnapshot(k, c, m).version == if m.version <= c.version then c.version else m.version
    ensures m.version <= c.version ==> AfterSnapshot(k, c, m) == c
  {
    hide PressureReasons;
  }

  /** Late and repeated snapshots change nothing: a stream has the effect of its records,
      whose versions are strictly increasing. */
  lemma {:induction false} OnlyRecordsCount(k: Thresholds, c: Core, stream: seq<Metrics>)
    ensures Feed(k, c, stream) == Feed(k, c, Records(c.version, stream))
    ensures var r := Records(c.version, stream);
      forall i, j :: 0 <= i < j < |r| ==> c.version < r[i].version < r[j].version
    ensures forall i :: 0 <= i < |Records(c.version, stream)| ==> c.version < Records(c.version, stream)[i].version
    decreases |stream|
  {
    hide AfterSnapshot;
    if stream != [] {
      LateSnapshotIgnored(k, c, stream[0]);
      OnlyRecordsCount(k, AfterSnapshot(k, c, stream[0]), stream[1..]);
      if stream[0].version > c.version {
        assert ([stream[0]] + Records(stream[0].version, stream[1..]))[1..] == Records(stream[0].version, stream[1..]);
      }
    }
  }

  lemma {:induction false} FeedExplains(k: Thresholds, h: seq<bool>, c: Core, stream: seq<Metrics>)
    requires Positive(k) && Explains(k, h, c)
    ensures Explains(k, h + Flags(Records(c.version, stream)), Feed(k, c, stream))
    decreases |stream|
  {
    hide AfterSnapshot, OverALimit, Explains;
    if stream == [] {
      assert h + Flags([]) == h;
    } else {
      var m, rest := stream[0], stream[1..];
      LateSnapshotIgnored(k, c, m);
      if m.version <= c.version {
        FeedExplains(k, h, c, rest);
      } else {
        ObserveExplains(k, h, c, m);
        FeedExplains(k, h + [OverALimit(m)], AfterSnapshot(k, c, m), rest);
        var tail := Records(m.version, rest);
        assert Flags([m] + tail) == [OverALimit(m)] + Flags(tail);
        assert h + [OverALimit(m)] + Flags(tail) == h + ([OverALimit(m)] + Flags(tail));
      }
    }
  }

  lemma {:induction false} VersionIsNewest(k: Thresholds, c: Core, stream: seq<Metrics>)
    ensures Feed(k, c, stream).version >= c.version
    ensures forall i :: 0 <= i < |stream| ==> stream[i].version <= Feed(k, c, stream).version
    ensures Feed(k, c, stream).version == c.version
            || exists i :: 0 <= i < |stream| && stream[i].version == Feed(k, c, stream).version
    decreases |stream|
  {
    hide AfterSnapshot;
    if stream != [] {
      var next := AfterSnapshot(k, c, stream[0]);
      LateSnapshotIgnored(k, c, stream[0]);
      VersionIsNewest(k, next, stream[1..]);
      assert forall i :: 1 <= i < |stream| ==> stream[i] == stream[1..][i - 1];
      if next.version != c.version && Feed(k, next, stream[1..]).version == next.version {
        assert stream[0].version == Feed(k, c, stream).version;
      }
    }
  }

  /** The counters refine the history: after any stream the governor sheds exactly when the
      history of its version records says so, and the two counters it publishes are the lengths
      of the current run of windows over a limit and, while it sheds, of clear ones. */
  lemma SheddingIsHistory(k: Thresholds, stream: seq<Metrics>)
    requires Positive(k)
    ensures var (c, h) := (Feed(k, FRESH, stream), Flags(Records(0, stream)));
      && (c.shedding <==> ShedBy(k, h))
      && c.failures == Trailing(h, true)
      && c.recoveries == if c.shedding then Trailing(h, false) else 0
  {
    assert Explains(k, [], FRESH);
    FeedExplains(k, [], FRESH, stream);
    assert [] + Flags(Records(0, stream)) == Flags(Records(0, stream));
  }

  // ---------- duplicate results ----------

  type Key = (int, string)

  function Record(results: set<Key>, version: int, identity: string, snapshot: int): (set<Key>, bool) {
    if snapshot != version || identity == "" || (snapshot, identity) in results then (results, false)
    else
      var grown := results + {(snapshot, identity)};
      (if |grown| > 1000 then set item | item in grown && item.0 >= version - 5 else grown, true)
  }

  /** The same, with a memory that is never pruned. */
  function RecordForever(results: set<Key>, version: int, identity: string, snapshot: int): (set<Key>, bool) {
    if snapshot != version || identity == "" || (snapshot, identity) in results then (results, false)
    else (results + {(snapshot, identity)}, true)
  }

  /** One event of a run: a snapshot of some version, or a worker's result. */
  datatype Event = Snapshot(version: int) | WorkerResult(identity: string, snapshot: int)

  function Answers(results: set<Key>, version: int, run: seq<Event>): seq<bool>
    decreases |run|
  {
    if run == [] then []
    else match run[0]
      case Snapshot(v) => Answers(results, if v <= version then version else v, run[1..])
      case WorkerResult(identity, snapshot) =>
        var (next, accepted) := Record(results, version, identity, snapshot);
        [accepted] + Answers(next, version, run[1..])
  }

  function AnswersForever(results: set<Key>, version: int, run: seq<Event>): seq<bool>
    decreases |run|
  {
    if run == [] then []
    else match run[0]
      case Snapshot(v) => AnswersForever(results, if v <= version then version else v, run[1..])
      case WorkerResult(identity, snapshot) =>
        var (next, accepted) := RecordForever(results, version, identity, snapshot);
        [accepted] + AnswersForever(next, version, run[1..])
  }

  /** The pruned memory agrees with the full one about the current version. */
  ghost predicate SameNow(pruned: set<Key>, full: set<Key>, version: int) {
    && pruned <= full
    && (forall key :: key in full ==> key.0 <= version)
    && (forall key :: key in full && key.0 == version ==> key in pruned)
  }

  /** Pruning is invisible: every answer is the answer of a memory that forgets nothing. */
  lemma {:induction false} PruningIsInvisible(pruned: set<Key>, full: set<Key>, version: int, run: seq<Event>)
    requires SameNow(pruned, full, version)
    ensures Answers(pruned, version, run) == AnswersForever(full, version, run)
    decreases |run|
  {
    if run != [] {
      match run[0]
      case Snapshot(v) =>
        PruningIsInvisible(pruned, full, if v <= version then version else v, run[1..]);
      case WorkerResult(identity, snapshot) =>
        var p, f := Record(pruned, version, identity, snapshot).0, RecordForever(full, version, identity, snapshot).0;
        assert SameNow(p, f, version);
        PruningIsInvisible(p, f, version, run[1..]);
    }
  }

  /** How often a run accepts this key. */
  function Acceptances(results: set<Key>, version: int, run: seq<Event>, key: Key): nat
    decreases |run|
  {
    if run == [] then 0
    else match run[0]
      case Snapshot(v) => Acceptances(results, if v <= version then version else v, run[1..], key)
      case WorkerResult(identity, snapshot) =>
        var (next, accepted) := Record(results, version, identity, snapshot);
        (if accepted && key == (snapshot, identity) then 1 else 0) + Acceptances(next, version, run[1..], key)
  }

  lemma {:induction false} AcceptedOnceFrom(results: set<Key>, version: int, run: seq<Event>, key: Key)
    ensures Acceptances(results, version, run, key) <= if key in results || key.0 < version then 0 else 1
    decreases |run|
  {
    if run != [] {
      match run[0]
      case Snapshot(v) =>
        AcceptedOnceFrom(results, if v <= version then version else v, run[1..], key);
      case WorkerResult(identity, snapshot) =>
        AcceptedOnceFrom(Record(results, version, identity, snapshot).0, version, run[1..], key);
    }
  }

  /** Starting from an empty memory, each (version, job) is accepted at most once. */
  lemma AcceptedOnce(run: seq<Event>, key: Key)
    ensures Acceptances({}, 0, run, key) <= 1
  {
    AcceptedOnceFrom({}, 0, run, key);
  }

  /** The version that a governor of version `version` has reached after these events. */
  function NewestFrom(version: int, run: seq<Event>): int
    decreases |run|
  {
    if run == [] then version
    else NewestFrom(if run[0].Snapshot? && run[0].version > version then run[0].version else version, run[1..])
  }

  /** The event at `j` reports this very result while its version is the current one. */
  predicate ReportedAt(version: int, run: seq<Event>, j: nat, result: Event) {
    j < |run| && result.WorkerResult? && run[j] == result && NewestFrom(version, run[..j]) == result.snapshot
  }

  ghost predicate Reported(version: int, run: seq<Event>, result: Event) {
    exists j: nat :: ReportedAt(version, run, j, result)
  }

  lemma ReportedLater(version: int, run: seq<Event>, result: Event)
    requires run != [] && result.WorkerResult?
    ensures Reported(version, run, result) <==>
      (run[0] == result && version == result.snapshot) || Reported(NewestFrom(version, run[..1]), run[1..], result)
  {
    var next, rest := NewestFrom(version, run[..1]), run[1..];
    assert NewestFrom(version, run[..1]) == NewestFrom(next, run[..1][1..]);
    forall j: nat | j < |rest|
      ensures ReportedAt(version, run, j + 1, result) <==> ReportedAt(next, rest, j, result)
    {
      assert run[..j + 1][1..] == rest[..j];
    }
    if j: nat :| ReportedAt(version, run, j, result) {
      if j == 0 {
        assert run[..0] == [];
      } else {
        assert ReportedAt(next, rest, j - 1, result);
      }
    }
    if run[0] == result && version == result.snapshot {
      assert run[..0] == [];
      assert ReportedAt(version, run, 0, result);
    }
    if j: nat :| ReportedAt(next, rest, j, result) {
      assert ReportedAt(version, run, j + 1, result);
    }
  }

  lemma {:induction false} NextAnswer(full: set<Key>, version: int, run: seq<Event>, result: Event)
    requires result.WorkerResult?
    ensures AnswersForever(full, version, run + [result]) == AnswersForever(full, version, run)
            + [result.snapshot == NewestFrom(version, run) && result.identity != ""
               && (result.snapshot, result.identity) !in full && !Reported(version, run, result)]
    decreases |run|
  {
    if run == [] {
      assert [result][1..] == [];
    } else {
      var next := NewestFrom(version, run[..1]);
      assert run[..1][1..] == [];
      assert (run + [result])[1..] == run[1..] + [result];
      ReportedLater(version, run, result);
      if run[0].WorkerResult? {
        NextAnswer(RecordForever(full, version, run[0].identity, run[0].snapshot).0, version, run[1..], result);
      } else {
        NextAnswer(full, next, run[1..], result);
      }
    }
  }

  /** The rule that a caller sees, whatever has been forgotten: a result is accepted if and only
      if it names a job, is about the newest snapshot of the run so far, and has not been reported
      since that snapshot became the newest. */
  lemma AcceptedIff(run: seq<Event>, identity: string, snapshot: int)
    ensures Answers({}, 0, run + [WorkerResult(identity, snapshot)]) == Answers({}, 0, run)
            + [identity != "" && snapshot == NewestFrom(0, run) && !Reported(0, run, WorkerResult(identity, snapshot))]
  {
    hide Answers, AnswersForever, Reported;
    NextAnswer({}, 0, run, WorkerResult(identity, snapshot));
    PruningIsInvisible({}, {}, 0, run);
    PruningIsInvisible({}, {}, 0, run + [WorkerResult(identity, snapshot)]);
  }
}
