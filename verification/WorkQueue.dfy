/** The bounded work queue: jobs are claimed, then finished or failed; a failed job goes
    back to the front until its attempts are used up, and is then a dead letter. */
module WorkQueue {
  import opened Common
  import opened Options

  datatype Job = Job(identity: string, payload: string, attempts: nat)

  datatype Queue = Queue(maxItems: nat, retryLimit: nat, queued: seq<Job>, claimed: map<string, Job>,
                         dead: seq<Job>, identities: set<string>)

  datatype FailOutcome = StaleClaim | DeadLetter | Requeued

  function AtLeastOne(n: int): nat {
    if n < 1 then 1 else n
  }

  function Empty(maxItems: int, retryLimit: int): Queue {
    Queue(AtLeastOne(maxItems), AtLeastOne(retryLimit), [], map[], [], {})
  }

  function Enqueue(q: Queue, identity: string, payload: string): (Queue, bool) {
    if identity == "" || identity in q.identities || |q.queued| + |q.claimed| >= q.maxItems then (q, false)
    else (q.(queued := q.queued + [Job(identity, payload, 0)], identities := q.identities + {identity}), true)
  }

  function Claim(q: Queue): (Queue, Option<Job>) {
    if q.queued == [] then (q, None)
    else
      var job := q.queued[0].(attempts := q.queued[0].attempts + 1);
      (q.(queued := q.queued[1..], claimed := q.claimed[job.identity := job]), Some(job))
  }

  function Finish(q: Queue, identity: string): (Queue, bool) {
    if identity !in q.claimed then (q, false)
    else (q.(claimed := q.claimed - {identity}, identities := q.identities - {identity}), true)
  }

  function Fail(q: Queue, identity: string): (Queue, FailOutcome) {
    if identity !in q.claimed then (q, StaleClaim)
    else
      var job, rest := q.claimed[identity], q.claimed - {identity};
      if job.attempts >= q.retryLimit then (q.(claimed := rest, dead := q.dead + [job]), DeadLetter)
      else (q.(claimed := rest, queued := [job] + q.queued), Requeued)
  }

  class BoundedWorkQueue {
    const maxItems: nat
    const retryLimit: nat
    var queued: seq<Job>
    var claimed: map<string, Job>
    var dead: seq<Job>
    var identities: set<string>

    function View(): Queue
      reads this
    {
      Queue(maxItems, retryLimit, queued, claimed, dead, identities)
    }

    constructor (maxItems: int := 100, retryLimit: int := 3)
      ensures View() == Empty(maxItems, retryLimit)
    {
      this.maxItems := AtLeastOne(maxItems);
      this.retryLimit := AtLeastOne(retryLimit);
      queued, claimed, dead, identities := [], map[], [], {};
    }

    method Add(identity: string, payload: string) returns (accepted: bool)
      modifies this
      ensures (View(), accepted) == Enqueue(old(View()), identity, payload)
    {
      if identity == "" || identity in identities || |queued| + |claimed| >= maxItems {
        return false;
      }
      queued := queued + [Job(identity, payload, 0)];
      identities := identities + {identity};
      return true;
    }

    method Take() returns (job: Option<Job>)
      modifies this
      ensures (View(), job) == Claim(old(View()))
    {
      if queued == [] {
        return None;
      }
      var first := queued[0];
      queued := queued[1..];
      first := first.(attempts := first.attempts + 1);
      claimed := claimed[first.identity := first];
      return Some(first);
    }

    method Complete(identity: string) returns (known: bool)
      modifies this
      ensures (View(), known) == Finish(old(View()), identity)
    {
      if identity !in claimed {
        return false;
      }
      claimed := claimed - {identity};
      identities := identities - {identity};
      return true;
    }

    method Reject(identity: string) returns (outcome: FailOutcome)
      modifies this
      ensures (View(), outcome) == Fail(old(View()), identity)
    {
      if identity !in claimed {
        return StaleClaim;
      }
      var job := claimed[identity];
      claimed := claimed - {identity};
      if job.attempts >= retryLimit {
        dead := dead + [job];
        return DeadLetter;
      }
      queued := [job] + queued;
      return Requeued;
    }
  }

  // ---------- runs ----------

  datatype Op =
    | DoEnqueue(identity: string, payload: string)
    | DoClaim
    | DoFinish(identity: string)
    | DoFail(identity: string)

  /** A queue beside the history of its run: the identities accepted and the identities
      resolved, both in order, the finished jobs, and the number of claims handed out. */
  datatype Ledger = Ledger(q: Queue, accepted: seq<string>, resolved: seq<string>, finished: seq<Job>, claims: nat)

  function Step(l: Ledger, op: Op): Ledger {
    match op
    case DoEnqueue(identity, payload) =>
      var (q, accepted) := Enqueue(l.q, identity, payload);
      l.(q := q, accepted := if accepted then l.accepted + [identity] else l.accepted)
    case DoClaim =>
      var (q, job) := Claim(l.q);
      l.(q := q, claims := if job.Some? then l.claims + 1 else l.claims)
    case DoFinish(identity) =>
      var (q, known) := Finish(l.q, identity);
      if known then
        l.(q := q, resolved := l.resolved + [identity], finished := l.finished + [l.q.claimed[identity]])
      else l.(q := q)
    case DoFail(identity) =>
      var (q, outcome) := Fail(l.q, identity);
      l.(q := q, resolved := if outcome.DeadLetter? then l.resolved + [identity] else l.resolved)
  }

  function Run(l: Ledger, ops: seq<Op>): Ledger
    decreases |ops|
  {
    if ops == [] then l else Run(Step(l, ops[0]), ops[1..])
  }

  function Start(maxItems: int, retryLimit: int): Ledger {
    Ledger(Empty(maxItems, retryLimit), [], [], [], 0)
  }

  function Ids(jobs: seq<Job>): (ids: seq<string>)
    ensures |ids| == |jobs| && forall i :: 0 <= i < |jobs| ==> ids[i] == jobs[i].identity
  {
    seq(|jobs|, i requires 0 <= i < |jobs| => jobs[i].identity)
  }

  lemma IdsJoin(a: seq<Job>, b: seq<Job>)
    ensures Ids(a + b) == Ids(a) + Ids(b)
  {
  }

  /** Attempts spent on a sequence, and on a dictionary, of jobs. */
  function Spent(jobs: seq<Job>): nat {
    if jobs == [] then 0 else jobs[0].attempts + Spent(jobs[1..])
  }

  ghost function SpentMap(m: map<string, Job>): nat
    decreases |m|
  {
    if m == map[] then 0
    else
      var k :| k in m;
      m[k].attempts + SpentMap(m - {k})
  }

  lemma {:induction false} SpentJoin(a: seq<Job>, b: seq<Job>)
    ensures Spent(a + b) == Spent(a) + Spent(b)
  {
    if a == [] {
      assert a + b == b;
    } else {
      assert (a + b)[1..] == a[1..] + b;
      SpentJoin(a[1..], b);
    }
  }

  lemma {:induction false} SpentMapRemove(m: map<string, Job>, k: string)
    requires k in m
    ensures SpentMap(m) == m[k].attempts + SpentMap(m - {k})
    decreases |m|
  {
    var j :| j in m && SpentMap(m) == m[j].attempts + SpentMap(m - {j});
    if j != k {
      assert k in m - {j} && |m - {j}| < |m|;
      SpentMapRemove(m - {j}, k);
      assert j in m - {k} && |m - {k}| < |m|;
      SpentMapRemove(m - {k}, j);
      assert m - {j} - {k} == m - {k} - {j};
    }
  }

  /** No identity is held twice, and the identity set is exactly the identities held. */
  predicate Distinct(q: Queue) {
    && (forall i, j :: 0 <= i < j < |q.queued| ==> q.queued[i].identity != q.queued[j].identity)
    && (forall i, j :: 0 <= i < j < |q.dead| ==> q.dead[i].identity != q.dead[j].identity)
    && (forall i, j :: 0 <= i < |q.queued| && 0 <= j < |q.dead| ==> q.queued[i].identity != q.dead[j].identity)
    && (forall i :: 0 <= i < |q.queued| ==> q.queued[i].identity !in q.claimed)
    && (forall i :: 0 <= i < |q.dead| ==> q.dead[i].identity !in q.claimed)
    && (forall k :: k in q.claimed ==> q.claimed[k].identity == k)
  }

  ghost predicate Known(q: Queue) {
    forall id :: id in q.identities <==> id in Ids(q.queued) || id in q.claimed || id in Ids(q.dead)
  }

  predicate Attempts(l: Ledger) {
    var q := l.q;
    && q.retryLimit >= 1
    && (forall i :: 0 <= i < |q.queued| ==> q.queued[i].attempts < q.retryLimit)
    && (forall k :: k in q.claimed ==> 1 <= q.claimed[k].attempts <= q.retryLimit)
    && (forall i :: 0 <= i < |q.dead| ==> q.dead[i].attempts == q.retryLimit)
    && (forall i :: 0 <= i < |l.finished| ==> 1 <= l.finished[i].attempts <= q.retryLimit)
  }

  predicate Bounded(q: Queue) {
    |q.queued| + |q.claimed| <= q.maxItems
  }

  /** Every accepted job is somewhere, exactly once. */
  predicate Conserved(l: Ledger) {
    |l.accepted| == |l.finished| + |l.q.queued| + |l.q.claimed| + |l.q.dead|
  }

  ghost predicate ClaimsAccounted(l: Ledger) {
    l.claims == Spent(l.q.queued) + SpentMap(l.q.claimed) + Spent(l.q.dead) + Spent(l.finished)
  }

  ghost predicate Inv(l: Ledger) {
    Distinct(l.q) && Known(l.q) && Attempts(l) && Bounded(l.q) && Conserved(l) && ClaimsAccounted(l)
  }

  lemma EnqueueKeepsIdentities(q: Queue, identity: string, payload: string)
    requires Distinct(q) && Known(q)
    ensures Distinct(Enqueue(q, identity, payload).0) && Known(Enqueue(q, identity, payload).0)
  {
    IdsJoin(q.queued, [Job(identity, payload, 0)]);
    assert Ids([Job(identity, payload, 0)]) == [identity];
    forall i | 0 <= i < |q.queued|
      ensures q.queued[i].identity in q.identities
    {
      assert Ids(q.queued)[i] in q.identities;
    }
    forall i | 0 <= i < |q.dead|
      ensures q.dead[i].identity in q.identities
    {
      assert Ids(q.dead)[i] in q.identities;
    }
  }

  lemma ClaimKeepsDistinct(q: Queue)
    requires Distinct(q)
    ensures Distinct(Claim(q).0)
  {
  }

  lemma ClaimKeepsKnown(q: Queue)
    requires Known(q)
    ensures Known(Claim(q).0)
  {
    if q.queued != [] {
      var r := Claim(q).0;
      assert q.queued == [q.queued[0]] + r.queued;
      IdsJoin([q.queued[0]], r.queued);
      assert Ids([q.queued[0]]) == [q.queued[0].identity];
      assert r.claimed.Keys == q.claimed.Keys + {q.queued[0].identity};
    }
  }

  lemma FinishKeepsIdentities(q: Queue, identity: string)
    requires Distinct(q) && Known(q)
    ensures Distinct(Finish(q, identity).0) && Known(Finish(q, identity).0)
  {
  }

  lemma FailKeepsIdentities(q: Queue, identity: string)
    requires Distinct(q) && Known(q)
    ensures Distinct(Fail(q, identity).0) && Known(Fail(q, identity).0)
  {
    if identity in q.claimed {
      var job := q.claimed[identity];
      IdsJoin(q.dead, [job]);
      IdsJoin([job], q.queued);
      assert Ids([job]) == [identity];
    }
  }

  lemma StepKeepsIdentities(l: Ledger, op: Op)
    requires Distinct(l.q) && Known(l.q)
    ensures Distinct(Step(l, op).q) && Known(Step(l, op).q)
  {
    hide Distinct, Known;
    match op
    case DoEnqueue(identity, payload) => EnqueueKeepsIdentities(l.q, identity, payload);
    case DoClaim => ClaimKeepsDistinct(l.q); ClaimKeepsKnown(l.q);
    case DoFinish(identity) => FinishKeepsIdentities(l.q, identity);
    case DoFail(identity) => FailKeepsIdentities(l.q, identity);
  }

  lemma StepKeepsAttempts(l: Ledger, op: Op)
    requires Attempts(l)
    ensures Attempts(Step(l, op))
  {
  }

  lemma StepKeepsCounts(l: Ledger, op: Op)
    requires Distinct(l.q) && Bounded(l.q) && Conserved(l)
    ensures Bounded(Step(l, op).q) && Conserved(Step(l, op))
  {
    var q, r := l.q, Step(l, op).q;
    if op.DoClaim? && r != q {
      assert r.claimed.Keys == q.claimed.Keys + {q.queued[0].identity};
    } else if (op.DoFinish? || op.DoFail?) && r != q {
      assert r.claimed.Keys == q.claimed.Keys - {op.identity};
    }
  }

  lemma StepKeepsClaims(l: Ledger, op: Op)
    requires Distinct(l.q) && ClaimsAccounted(l)
    ensures ClaimsAccounted(Step(l, op))
  {
    var q, r := l.q, Step(l, op).q;
    if r != q {
      match op
      case DoEnqueue(identity, payload) => SpentJoin(q.queued, [Job(identity, payload, 0)]);
      case DoClaim =>
        var id := q.queued[0].identity;
        SpentMapRemove(r.claimed, id);
        assert r.claimed - {id} == q.claimed;
      case DoFinish(identity) =>
        SpentMapRemove(q.claimed, identity);
        SpentJoin(l.finished, [q.claimed[identity]]);
      case DoFail(identity) =>
        SpentMapRemove(q.claimed, identity);
        SpentJoin(q.dead, [q.claimed[identity]]);
        SpentJoin([q.claimed[identity]], q.queued);
    }
  }

  lemma StepKeepsInv(l: Ledger, op: Op)
    requires Inv(l)
    ensures Inv(Step(l, op)) && Step(l, op).q.retryLimit == l.q.retryLimit && Step(l, op).q.maxItems == l.q.maxItems
  {
    hide Distinct, Known, Attempts, Bounded, Conserved, ClaimsAccounted;
    StepKeepsIdentities(l, op);
    StepKeepsAttempts(l, op);
    StepKeepsCounts(l, op);
    StepKeepsClaims(l, op);
  }

  lemma {:induction false} InvAlongRun(l: Ledger, ops: seq<Op>)
    requires Inv(l)
    ensures Inv(Run(l, ops)) && Run(l, ops).q.retryLimit == l.q.retryLimit && Run(l, ops).q.maxItems == l.q.maxItems
    decreases |ops|
  {
    hide Inv, Step;
    if ops != [] {
      StepKeepsInv(l, ops[0]);
      InvAlongRun(Step(l, ops[0]), ops[1..]);
    }
  }

  /** What holds after any sequence of operations on a new queue, in any interleaving of
      any number of producers and consumers, since every operation holds the lock. */
  lemma QueueSafety(maxItems: int, retryLimit: int, ops: seq<Op>)
    ensures var l := Run(Start(maxItems, retryLimit), ops);
      && Distinct(l.q) && Known(l.q)
      && |l.accepted| == |l.finished| + |l.q.queued| + |l.q.claimed| + |l.q.dead|
      && |l.q.queued| + |l.q.claimed| <= AtLeastOne(maxItems)
      && (forall i :: 0 <= i < |l.q.dead| ==> l.q.dead[i].attempts == AtLeastOne(retryLimit))
  {
    InvAlongRun(Start(maxItems, retryLimit), ops);
  }

  lemma {:induction false} SpentAtMost(jobs: seq<Job>, limit: nat)
    requires forall i :: 0 <= i < |jobs| ==> jobs[i].attempts <= limit
    ensures Spent(jobs) <= limit * |jobs|
  {
    if jobs != [] {
      SpentAtMost(jobs[1..], limit);
      Distribute(limit, 1, |jobs| - 1);
    }
  }

  lemma {:induction false} SpentMapAtMost(m: map<string, Job>, limit: nat)
    requires forall k :: k in m ==> m[k].attempts <= limit
    ensures SpentMap(m) <= limit * |m|
    decreases |m|
  {
    if m != map[] {
      var k :| k in m && SpentMap(m) == m[k].attempts + SpentMap(m - {k});
      var rest := m - {k};
      assert rest.Keys == m.Keys - {k};
      SpentMapAtMost(rest, limit);
      assert |m| == |rest| + 1;
      Distribute(limit, 1, |rest|);
    }
  }

  lemma SumAtMost(limit: nat, a: nat, b: nat, c: nat, d: nat, sa: nat, sb: nat, sc: nat, sd: nat)
    requires sa <= limit * a && sb <= limit * b && sc <= limit * c && sd <= limit * d
    ensures sa + sb + sc + sd <= limit * (a + b + c + d)
  {
    Distribute(limit, a + b + c, d);
    Distribute(limit, a + b, c);
    Distribute(limit, a, b);
  }

  lemma AccountedIsBounded(l: Ledger)
    requires Attempts(l) && Conserved(l) && ClaimsAccounted(l)
    ensures l.claims <= l.q.retryLimit * |l.accepted|
  {
    var q := l.q;
    SpentAtMost(q.queued, q.retryLimit);
    SpentAtMost(q.dead, q.retryLimit);
    SpentAtMost(l.finished, q.retryLimit);
    SpentMapAtMost(q.claimed, q.retryLimit);
    hide *;
    SumAtMost(q.retryLimit, |l.finished|, |q.queued|, |q.claimed|, |q.dead|,
              Spent(l.finished), Spent(q.queued), SpentMap(q.claimed), Spent(q.dead));
  }

  /** Retries are bounded overall: at most `retryLimit` claims per accepted job. */
  lemma ClaimsBounded(maxItems: int, retryLimit: int, ops: seq<Op>)
    ensures var l := Run(Start(maxItems, retryLimit), ops);
      l.claims <= AtLeastOne(retryLimit) * |l.accepted|
  {
    InvAlongRun(Start(maxItems, retryLimit), ops);
    AccountedIsBounded(Run(Start(maxItems, retryLimit), ops));
  }

  // ---------- a single consumer ----------

  /** The run of one consumer: it claims only when it holds nothing. */
  ghost predicate OneAtATime(l: Ledger, ops: seq<Op>)
    decreases |ops|
  {
    ops == [] || ((ops[0].DoClaim? ==> l.q.claimed == map[]) && OneAtATime(Step(l, ops[0]), ops[1..]))
  }

  /** The accepted jobs, in order, are the resolved ones, the one in hand, the queued ones. */
  ghost predicate OrderedBy(l: Ledger, hand: seq<string>) {
    && l.accepted == l.resolved + hand + Ids(l.q.queued)
    && (hand == [] ==> l.q.claimed == map[])
    && (hand != [] ==> |hand| == 1 && l.q.claimed.Keys == {hand[0]})
  }

  ghost predicate InOrder(l: Ledger) {
    exists hand: seq<string> :: OrderedBy(l, hand)
  }

  lemma EnqueueKeepsOrder(l: Ledger, identity: string, payload: string, hand: seq<string>)
    requires OrderedBy(l, hand)
    ensures OrderedBy(Step(l, DoEnqueue(identity, payload)), hand)
  {
    IdsJoin(l.q.queued, [Job(identity, payload, 0)]);
    assert Ids([Job(identity, payload, 0)]) == [identity];
  }

  lemma ClaimKeepsOrder(l: Ledger)
    requires OrderedBy(l, []) && l.q.queued != []
    ensures OrderedBy(Step(l, DoClaim), [l.q.queued[0].identity])
  {
    var first, rest := l.q.queued[0], l.q.queued[1..];
    assert l.q.queued == [first] + rest;
    IdsJoin([first], rest);
    assert Ids([first]) == [first.identity];
    assert Step(l, DoClaim).q.claimed.Keys == {first.identity};
  }

  lemma FinishKeepsOrder(l: Ledger, identity: string)
    requires OrderedBy(l, [identity])
    ensures OrderedBy(Step(l, DoFinish(identity)), [])
  {
    assert l.q.claimed.Keys == {identity};
    assert (l.q.claimed - {identity}).Keys == {};
  }

  lemma FailKeepsOrder(l: Ledger, identity: string)
    requires OrderedBy(l, [identity]) && Distinct(l.q)
    ensures OrderedBy(Step(l, DoFail(identity)), [])
  {
    assert l.q.claimed.Keys == {identity};
    assert (l.q.claimed - {identity}).Keys == {};
    var job := l.q.claimed[identity];
    IdsJoin([job], l.q.queued);
    assert Ids([job]) == [identity];
  }

  lemma StepKeepsOrder(l: Ledger, op: Op)
    requires Distinct(l.q) && InOrder(l) && (op.DoClaim? ==> l.q.claimed == map[])
    ensures InOrder(Step(l, op))
  {
    var hand: seq<string> :| OrderedBy(l, hand);
    match op
    case DoEnqueue(identity, payload) => EnqueueKeepsOrder(l, identity, payload, hand);
    case DoClaim =>
      assert l.q.claimed.Keys == {};
      assert hand == [];
      if l.q.queued != [] { ClaimKeepsOrder(l); }
    case DoFinish(identity) =>
      if identity in l.q.claimed.Keys {
        assert hand == [identity];
        FinishKeepsOrder(l, identity);
      }
    case DoFail(identity) =>
      if identity in l.q.claimed.Keys {
        assert hand == [identity];
        FailKeepsOrder(l, identity);
      }
  }

  lemma {:induction false} OrderAlongRun(l: Ledger, ops: seq<Op>)
    requires Distinct(l.q) && Known(l.q) && InOrder(l) && OneAtATime(l, ops)
    ensures InOrder(Run(l, ops))
    decreases |ops|
  {
    if ops != [] {
      StepKeepsIdentities(l, ops[0]);
      StepKeepsOrder(l, ops[0]);
      OrderAlongRun(Step(l, ops[0]), ops[1..]);
    }
  }

  /** With a single consumer, jobs are resolved in the order in which they were accepted,
      however often they are retried. */
  lemma ResolvedInOrder(maxItems: int, retryLimit: int, ops: seq<Op>)
    requires OneAtATime(Start(maxItems, retryLimit), ops)
    ensures var l := Run(Start(maxItems, retryLimit), ops); l.resolved <= l.accepted
  {
    var start := Start(maxItems, retryLimit);
    assert OrderedBy(start, []);
    OrderAlongRun(start, ops);
  }
}
