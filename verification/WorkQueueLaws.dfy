/** What the four operations of `WorkQueue` answer and leave behind after any operations. */
module WorkQueueLaws {
  import opened Options
  import opened WorkQueue

  /** The queue after these operations. */
  function After(maxItems: int, retryLimit: int, ops: seq<Op>): Queue {
    Run(Start(maxItems, retryLimit), ops).q
  }

  /** The limits are those asked for, and at least one. */
  lemma LimitsAreKept(maxItems: int, retryLimit: int, ops: seq<Op>)
    ensures var q := After(maxItems, retryLimit, ops);
      && q.maxItems >= 1 && q.retryLimit >= 1
      && (maxItems >= 1 ==> q.maxItems == maxItems) && (retryLimit >= 1 ==> q.retryLimit == retryLimit)
      && (maxItems < 1 ==> q.maxItems == 1) && (retryLimit < 1 ==> q.retryLimit == 1)
  {
    InvAlongRun(Start(maxItems, retryLimit), ops);
  }

  /** A job of this identity is queued, claimed or dead. */
  ghost predicate Holds(q: Queue, identity: string) {
    || (exists i :: 0 <= i < |q.queued| && q.queued[i].identity == identity)
    || identity in q.claimed
    || (exists i :: 0 <= i < |q.dead| && q.dead[i].identity == identity)
  }

  lemma HeldIsKnown(q: Queue, identity: string)
    requires Known(q)
    ensures identity in q.identities <==> Holds(q, identity)
  {
    if identity in Ids(q.queued) {
      var i :| 0 <= i < |q.queued| && Ids(q.queued)[i] == identity;
      assert q.queued[i].identity == identity;
    }
    if identity in Ids(q.dead) {
      var i :| 0 <= i < |q.dead| && Ids(q.dead)[i] == identity;
      assert q.dead[i].identity == identity;
    }
    if i :| 0 <= i < |q.queued| && q.queued[i].identity == identity {
      assert Ids(q.queued)[i] == identity;
    }
    if i :| 0 <= i < |q.dead| && q.dead[i].identity == identity {
      assert Ids(q.dead)[i] == identity;
    }
  }

  /** A job is accepted exactly if it has an identity that no job held has, dead ones included, and
      fewer jobs than the capacity are queued and claimed; it then waits last, untried. */
  lemma AddMeans(maxItems: int, retryLimit: int, ops: seq<Op>, identity: string, payload: string)
    ensures var q := After(maxItems, retryLimit, ops);
      var after, accepted := Enqueue(q, identity, payload).0, Enqueue(q, identity, payload).1;
      && (accepted <==> |identity| > 0 && !Holds(q, identity) && |q.queued| + |q.claimed| < q.maxItems)
      && (!accepted ==> after == q)
      && (accepted ==>
            && after.queued == q.queued + [Job(identity, payload, 0)] && after.claimed == q.claimed
            && after.dead == q.dead)
  {
    InvAlongRun(Start(maxItems, retryLimit), ops);
    HeldIsKnown(After(maxItems, retryLimit, ops), identity);
  }

  /** A claim hands out the job at the front, tried once more, and nothing if none is queued. */
  lemma TakeMeans(maxItems: int, retryLimit: int, ops: seq<Op>)
    ensures var q := After(maxItems, retryLimit, ops);
      var after, job := Claim(q).0, Claim(q).1;
      && (job == None <==> |q.queued| == 0)
      && (job == None ==> after == q)
      && (job.Some? ==>
            var first := q.queued[0];
            && job.value == Job(first.identity, first.payload, first.attempts + 1)
            && q.queued == [first] + after.queued && after.dead == q.dead
            && first.identity !in q.claimed && after.claimed == q.claimed[first.identity := job.value])
  {
    InvAlongRun(Start(maxItems, retryLimit), ops);
    QueuedIsUnclaimed(After(maxItems, retryLimit, ops));
    hide Inv, Run, Start;
  }

  lemma QueuedIsUnclaimed(q: Queue)
    requires Distinct(q)
    ensures q.queued != [] ==> q.queued[0].identity !in q.claimed && q.queued == [q.queued[0]] + q.queued[1..]
  {
  }

  /** A job is finished exactly if it was claimed; its identity is then held no more, so it can be
      accepted again. */
  lemma CompleteMeans(maxItems: int, retryLimit: int, ops: seq<Op>, identity: string)
    ensures var q := After(maxItems, retryLimit, ops);
      var after, known := Finish(q, identity).0, Finish(q, identity).1;
      && (known <==> identity in q.claimed)
      && (!known ==> after == q)
      && (known ==>
            && after.claimed == q.claimed - {identity} && after.queued == q.queued && after.dead == q.dead
            && !Holds(after, identity) && identity !in after.identities)
  {
    InvAlongRun(Start(maxItems, retryLimit), ops);
    var q := After(maxItems, retryLimit, ops);
    FinishKeepsIdentities(q, identity);
    HeldIsKnown(Finish(q, identity).0, identity);
  }

  /** A failed job that was claimed goes back to the front while it has been tried fewer times than the
      limit, and is a dead letter from the limit on; its identity stays held, and its payload is
      kept. */
  lemma RejectMeans(maxItems: int, retryLimit: int, ops: seq<Op>, identity: string)
    ensures var q := After(maxItems, retryLimit, ops);
      var after, outcome := Fail(q, identity).0, Fail(q, identity).1;
      if identity !in q.claimed then outcome == StaleClaim && after == q
      else
        var job := q.claimed[identity];
        && job.identity == identity && job.attempts <= q.retryLimit
        && after.claimed == q.claimed - {identity} && after.identities == q.identities
        && (if job.attempts < q.retryLimit
            then outcome == Requeued && after.queued == [job] + q.queued && after.dead == q.dead
            else outcome == DeadLetter && after.dead == q.dead + [job] && after.queued == q.queued)
  {
    InvAlongRun(Start(maxItems, retryLimit), ops);
    if identity in After(maxItems, retryLimit, ops).claimed {
      ClaimedIsSound(Run(Start(maxItems, retryLimit), ops), identity);
    }
    hide Inv, Run, Start;
  }

  lemma ClaimedIsSound(l: Ledger, identity: string)
    requires Inv(l) && identity in l.q.claimed
    ensures l.q.claimed[identity].identity == identity && l.q.claimed[identity].attempts <= l.q.retryLimit
  {
  }
}
