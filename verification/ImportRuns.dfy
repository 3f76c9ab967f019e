/** What holds over whole runs of the job queue: any interleaving of calls by any
    number of workers, with a clock that never runs backwards. */
module ImportRuns {
  import opened Wrappers
  import opened ImportQueue

  datatype Event = Event(now: Time, call: Call)

  /** The table after a run that started empty. */
  ghost function After(c: Config, es: seq<Event>): Table
  {
    if es == [] then map[] else
      var k := |es| - 1;
      Next(c, After(c, es[..k]), es[k].call, es[k].now)
  }

  /** What the service makes sure of before it changes a row: fresh ids, and a
      claim takes the oldest claimable job. Reports carry whatever copy of the
      job their sender holds. */
  ghost predicate Allowed(c: Config, t: Table, e: Event)
  {
    match e.call
    case Enqueue(id, _, _) => id !in t
    case Claim(_, id) => Oldest(c, t, e.now, id)
    case _ => true
  }

  ghost predicate Run(c: Config, es: seq<Event>)
  {
    es == [] ||
    var k := |es| - 1;
    && Run(c, es[..k])
    && (k > 0 ==> es[k - 1].now <= es[k].now)
    && Allowed(c, After(c, es[..k]), es[k])
  }

  predicate Claims(e: Event, id: JobId) { e.call.Claim? && e.call.id == id }

  /** A claim or a checkpoint: what refreshes the lock time. */
  predicate Heartbeat(e: Event, id: JobId)
  {
    Claims(e, id) || (e.call.Checkpoint? && e.call.id == id)
  }

  /** Event `k` returned the job to QUEUED or RETRY. */
  ghost predicate Returns(c: Config, es: seq<Event>, k: nat, id: JobId)
    requires k < |es|
  {
    && id in After(c, es[..k]) && !Waiting(After(c, es[..k])[id])
    && id in After(c, es[..k + 1]) && Waiting(After(c, es[..k + 1])[id])
  }

  ghost predicate Silent(es: seq<Event>, h: nat, k: nat, id: JobId)
    requires h < k <= |es|
  {
    forall m :: h < m < k ==> !Heartbeat(es[m], id)
  }

  /** No heartbeat of the job came after event `h` and before event `j`, for
      longer than the lease. */
  ghost predicate SilentSince(c: Config, es: seq<Event>, h: nat, j: nat, id: JobId)
    requires h < j < |es|
  {
    && Heartbeat(es[h], id)
    && Silent(es, h, j, id)
    && es[j].now - es[h].now > c.Expiry()
  }

  // ------------------------------------------------------------------ prefixes

  lemma AfterStep(c: Config, es: seq<Event>, k: nat)
    requires k < |es|
    ensures After(c, es[..k + 1]) == Next(c, After(c, es[..k]), es[k].call, es[k].now)
  {
    assert es[..k + 1][..k] == es[..k];
  }

  lemma {:induction false} RunPrefix(c: Config, es: seq<Event>, k: nat)
    requires Run(c, es) && k <= |es|
    ensures Run(c, es[..k])
  {
    if k < |es| {
      RunPrefix(c, es[..|es| - 1], k);
      assert es[..|es| - 1][..k] == es[..k];
    } else {
      assert es[..k] == es;
    }
  }

  lemma RunAt(c: Config, es: seq<Event>, k: nat)
    requires Run(c, es) && k < |es|
    ensures Allowed(c, After(c, es[..k]), es[k]) && (k > 0 ==> es[k - 1].now <= es[k].now)
  {
    RunPrefix(c, es, k + 1);
    assert es[..k + 1][..k] == es[..k];
  }

  lemma {:induction false} TimeMoves(c: Config, es: seq<Event>, i: nat, j: nat)
    requires Run(c, es) && i <= j < |es|
    ensures es[i].now <= es[j].now
    decreases j - i
  {
    if i < j {
      TimeMoves(c, es, i, j - 1);
      RunAt(c, es, j);
    }
  }

  lemma {:induction false} JobsStay(c: Config, es: seq<Event>, i: nat, j: nat, id: JobId)
    requires i <= j <= |es| && id in After(c, es[..i])
    ensures id in After(c, es[..j])
    decreases j - i
  {
    if i < j {
      JobsStay(c, es, i, j - 1, id);
      AfterStep(c, es, j - 1);
    }
  }

  lemma {:induction false} RowsKeyed(c: Config, es: seq<Event>)
    ensures Keyed(After(c, es))
  {
    if es != [] {
      RowsKeyed(c, es[..|es| - 1]);
    }
  }

  // ---------------------------------------------------------- lease exclusivity

  lemma ClaimTakes(c: Config, es: seq<Event>, i: nat, id: JobId)
    requires Run(c, es) && i < |es| && Claims(es[i], id)
    ensures id in After(c, es[..i]) && Claimable(c, After(c, es[..i])[id], es[i].now)
    ensures id in After(c, es[..i + 1]) && After(c, es[..i + 1])[id].status.Processing? && !Waiting(After(c, es[..i + 1])[id])
    ensures After(c, es[..i + 1])[id].lockedAt == Some(es[i].now)
  {
    RunAt(c, es, i);
    AfterStep(c, es, i);
    RowsKeyed(c, es[..i]);
  }

  /** Only a claim puts a job in hand, only a heartbeat moves its lock time. */
  lemma QuietRow(c: Config, t: Table, e: Event, id: JobId)
    requires Keyed(t) && id in Next(c, t, e.call, e.now) && Next(c, t, e.call, e.now)[id].status.Processing?
    ensures Heartbeat(e, id) ==> Next(c, t, e.call, e.now)[id].lockedAt == Some(e.now)
    ensures !Heartbeat(e, id) ==> id in t && t[id].status.Processing? && t[id].lockedAt == Next(c, t, e.call, e.now)[id].lockedAt
  {
  }

  lemma BeatOrQuiet(c: Config, es: seq<Event>, k: nat, id: JobId)
    requires k < |es| && id in After(c, es[..k + 1]) && After(c, es[..k + 1])[id].status.Processing?
    ensures Heartbeat(es[k], id) ==> After(c, es[..k + 1])[id].lockedAt == Some(es[k].now)
    ensures !Heartbeat(es[k], id) ==>
      id in After(c, es[..k]) && After(c, es[..k])[id].status.Processing?
        && After(c, es[..k])[id].lockedAt == After(c, es[..k + 1])[id].lockedAt
  {
    AfterStep(c, es, k);
    RowsKeyed(c, es[..k]);
    QuietRow(c, After(c, es[..k]), es[k], id);
  }

  lemma SilenceBegins(es: seq<Event>, h: nat, id: JobId)
    requires h < |es|
    ensures Silent(es, h, h + 1, id)
  {
  }

  lemma SilenceGrows(es: seq<Event>, h: nat, k: nat, id: JobId)
    requires h < k < |es| && Silent(es, h, k, id) && !Heartbeat(es[k], id)
    ensures Silent(es, h, k + 1, id)
  {
  }

  /** The lock time of a job in hand is the time of its last heartbeat. */
  lemma {:induction false} LastBeat(c: Config, es: seq<Event>, i: nat, k: nat, id: JobId) returns (h: nat)
    requires Run(c, es) && i < k <= |es| && Claims(es[i], id)
    requires id in After(c, es[..k]) && After(c, es[..k])[id].status.Processing?
    ensures i <= h < k && Heartbeat(es[h], id) && Silent(es, h, k, id)
    ensures After(c, es[..k])[id].lockedAt == Some(es[h].now)
    decreases k
  {
    BeatOrQuiet(c, es, k - 1, id);
    if Heartbeat(es[k - 1], id) {
      h := k - 1;
      SilenceBegins(es, h, id);
    } else {
      h := LastBeat(c, es, i, k - 1, id);
      SilenceGrows(es, h, k - 1, id);
    }
  }

  lemma {:induction false} Returned(c: Config, es: seq<Event>, i: nat, j: nat, id: JobId) returns (k: nat)
    requires i < j <= |es| && id in After(c, es[..i]) && !Waiting(After(c, es[..i])[id])
    requires id in After(c, es[..j]) && Waiting(After(c, es[..j])[id])
    ensures i <= k < j && Returns(c, es, k, id)
    decreases j
  {
    JobsStay(c, es, i, j - 1, id);
    if Waiting(After(c, es[..j - 1])[id]) {
      k := Returned(c, es, i, j - 1, id);
    } else {
      k := j - 1;
    }
  }

  /** Lease exclusivity: between two claims of one job, some call has returned it
      to the queue, or its holder has been silent for longer than the lease and
      the stale timeout. */
  lemma LeaseExclusive(c: Config, es: seq<Event>, i: nat, j: nat, id: JobId)
    requires Run(c, es) && i < j < |es| && Claims(es[i], id) && Claims(es[j], id)
    ensures (exists k :: i < k < j && Returns(c, es, k, id)) || (exists h :: i <= h < j && SilentSince(c, es, h, j, id))
  {
    ClaimTakes(c, es, i, id);
    ClaimTakes(c, es, j, id);
    if Waiting(After(c, es[..j])[id]) {
      var k := Returned(c, es, i + 1, j, id);
    } else {
      ExpiredWhileSilent(c, es, i, j, id);
    }
  }

  lemma ExpiredWhileSilent(c: Config, es: seq<Event>, i: nat, j: nat, id: JobId)
    requires Run(c, es) && i < j < |es| && Claims(es[i], id)
    requires id in After(c, es[..j]) && Claimable(c, After(c, es[..j])[id], es[j].now) && !Waiting(After(c, es[..j])[id])
    ensures exists h :: i <= h < j && SilentSince(c, es, h, j, id)
  {
    var h := LastBeat(c, es, i, j, id);
    assert SilentSince(c, es, h, j, id);
  }

  /** A job in hand always carries its owner and a lock time that is not in the
      future. */
  lemma {:induction false} ProcessingIsLocked(c: Config, es: seq<Event>, id: JobId)
    requires Run(c, es) && id in After(c, es) && After(c, es)[id].status.Processing?
    ensures After(c, es)[id].lockedBy.Some? && After(c, es)[id].lockedAt.Some?
    ensures es != [] && After(c, es)[id].lockedAt.value <= es[|es| - 1].now
  {
    var k := |es| - 1;
    RowsKeyed(c, es[..k]);
    var e := es[k];
    if id in After(c, es[..k]) && After(c, es[..k])[id].status.Processing? {
      ProcessingIsLocked(c, es[..k], id);
    }
  }

  /** So a job whose holder has gone is claimable again once the lease and the
      stale timeout have passed, whatever else happened. */
  lemma AbandonedBecomesClaimable(c: Config, es: seq<Event>, id: JobId, now: Time)
    requires Run(c, es) && id in After(c, es) && After(c, es)[id].status.Processing?
    requires es != [] ==> now > es[|es| - 1].now + c.Expiry()
    ensures Claimable(c, After(c, es)[id], now)
  {
    ProcessingIsLocked(c, es, id);
  }

  // ------------------------------------------------------------- retry budget

  /** Only the current holder reports on job `id`, and the job is not recovered. A
      failure reported after a cancellation is let through. */
  ghost predicate HolderReports(t: Table, e: Event, id: JobId)
  {
    match e.call
    case Complete(held) => held.id == id && id in t ==> Holds(t[id], held)
    case Fail(held, _) => held.id == id && id in t ==> Holds(t[id], held) || t[id].status.Cancelled?
    case FailPermanent(held, _) => held.id == id && id in t ==> Holds(t[id], held)
    case RequeueRecovered(held) => held.id != id
    case _ => true
  }

  /** And its lease does not run out: no claim takes it out of another's hands. */
  ghost predicate Orderly(t: Table, e: Event, id: JobId)
  {
    HolderReports(t, e, id) && (Claims(e, id) && id in t ==> Waiting(t[id]))
  }

  ghost predicate Holds(j: Job, held: Job)
  {
    j.status.Processing? && held.attempts == j.attempts && held.maxAttempts == j.maxAttempts
  }

  ghost predicate OrderlyRun(c: Config, es: seq<Event>, id: JobId)
  {
    forall k :: 0 <= k < |es| ==> Orderly(After(c, es[..k]), es[k], id)
  }

  /** The event starts the job's count of attempts afresh. */
  predicate Resets(e: Event, id: JobId)
  {
    (e.call.Enqueue? || e.call.ManualRetry?) && e.call.id == id
  }

  /** The times of the claims since the job was last enqueued or manually retried. */
  function ClaimTimes(es: seq<Event>, id: JobId): seq<Time>
  {
    if es == [] then [] else
      var k := |es| - 1;
      if Resets(es[k], id) then []
      else if Claims(es[k], id) then ClaimTimes(es[..k], id) + [es[k].now]
      else ClaimTimes(es[..k], id)
  }

  /** The earliest time by which `n` claims can be followed by another one. */
  function Backoff(c: Config, n: nat): nat { c.retryBaseMs * (Pow2(n) - 1) }

  ghost predicate Paced(c: Config, times: seq<Time>)
  {
    forall k :: 0 <= k < |times| ==> times[k] >= times[0] + Backoff(c, k)
  }

  /** What the row of an orderly job looks like after `times` claims. */
  ghost predicate Budgeted(c: Config, j: Job, times: seq<Time>, now: Time)
  {
    && j.attempts == |times| <= j.maxAttempts
    && (Waiting(j) ==> j.attempts < j.maxAttempts)
    && (j.status.Queued? ==> times == [])
    && (j.status.Processing? ==> times != [] && now >= times[0] + Backoff(c, |times| - 1))
    && (j.status.Retry? ==> times != [] && j.nextAttemptAt >= times[0] + Backoff(c, |times|))
    && Paced(c, times)
  }

  lemma BackoffStep(c: Config, n: nat)
    requires n >= 1
    ensures Backoff(c, n) == Backoff(c, n - 1) + Delay(c, n)
  {
    assert Pow2(n) == 2 * Pow2(n - 1);
    Spread(c.retryBaseMs, Pow2(n - 1));
  }

  lemma Spread(b: nat, p: nat)
    ensures b * (2 * p - 1) == b * (p - 1) + b * p
  {
  }

  lemma ClaimPaces(c: Config, times: seq<Time>, now: Time)
    requires Paced(c, times) && (times != [] ==> now >= times[0] + Backoff(c, |times|))
    ensures Paced(c, times + [now])
  {
    assert Backoff(c, 0) == 0;
    var t := times + [now];
    forall k | 0 <= k < |t| ensures t[k] >= t[0] + Backoff(c, k) {
      if k < |times| {
        assert t[k] == times[k] && t[0] == times[0];
      }
    }
  }

  lemma RowStaysBudgeted(c: Config, t: Table, e: Event, id: JobId, times: seq<Time>, before: Time)
    requires Keyed(t) && id in t && Budgeted(c, t[id], times, before) && before <= e.now
    requires Allowed(c, t, e) && Orderly(t, e, id) && t[id].maxAttempts >= 1
    ensures
      var times' := if Resets(e, id) then [] else if Claims(e, id) then times + [e.now] else times;
      id in Next(c, t, e.call, e.now) && Budgeted(c, Next(c, t, e.call, e.now)[id], times', e.now)
  {
    var j := t[id];
    if Claims(e, id) {
      ClaimPaces(c, times, e.now);
    } else if e.call.Fail? && e.call.held.id == id && !j.status.Cancelled? {
      BackoffStep(c, |times|);
    }
  }

  lemma OrderlyPrefix(c: Config, es: seq<Event>, k: nat, id: JobId)
    requires OrderlyRun(c, es, id) && k < |es|
    ensures OrderlyRun(c, es[..k], id) && Orderly(After(c, es[..k]), es[k], id)
  {
    forall m | 0 <= m < k ensures Orderly(After(c, es[..k][..m]), es[..k][m], id) {
      assert es[..k][..m] == es[..m];
    }
  }

  /** Retry budget and backoff: while only the holder reports on a job, its
      attempts are the claims since it was last enqueued or manually retried, they
      never exceed the maximum, a waiting job has attempts left (so it is terminal
      after at most that many claims), and the (k+1)-th claim comes at least
      base * (2^k - 1) after the first. */
  lemma {:induction false} RetryBudget(c: Config, es: seq<Event>, id: JobId)
    requires Run(c, es) && OrderlyRun(c, es, id) && c.maxJobAttempts >= 1 && id in After(c, es)
    ensures es != [] && After(c, es)[id].maxAttempts == c.maxJobAttempts
    ensures Budgeted(c, After(c, es)[id], ClaimTimes(es, id), es[|es| - 1].now)
  {
    var k := |es| - 1;
    var t, e := After(c, es[..k]), es[k];
    RowsKeyed(c, es[..k]);
    if id in t {
      OrderlyPrefix(c, es, k, id);
      RetryBudget(c, es[..k], id);
      RowStaysBudgeted(c, t, e, id, ClaimTimes(es[..k], id), es[k - 1].now);
    } else {
      NewRowIsBudgeted(c, t, e, id);
    }
  }

  lemma NewRowIsBudgeted(c: Config, t: Table, e: Event, id: JobId)
    requires id !in t && id in Next(c, t, e.call, e.now) && c.maxJobAttempts >= 1
    ensures Resets(e, id) && Budgeted(c, Next(c, t, e.call, e.now)[id], [], e.now)
    ensures Next(c, t, e.call, e.now)[id].maxAttempts == c.maxJobAttempts
  {
  }

  // ------------------------------------------------------------ when retries are due

  predicate FailureOf(e: Event, id: JobId) { e.call.Fail? && e.call.held.id == id }

  /** Event `k` is the failure that put the job on retry, and nothing has claimed or
      reset the job since. */
  ghost predicate PutOnRetryAt(es: seq<Event>, k: nat, id: JobId)
  {
    k < |es| && FailureOf(es[k], id) && forall m :: k < m < |es| ==> !Claims(es[m], id) && !Resets(es[m], id)
  }

  lemma RetryStep(c: Config, t: Table, e: Event, id: JobId, n: nat)
    requires Keyed(t) && Allowed(c, t, e) && Orderly(t, e, id)
    requires id in Next(c, t, e.call, e.now) && Next(c, t, e.call, e.now)[id].status.Retry?
    requires id in t ==> t[id].attempts == n && (t[id].status.Processing? ==> n > 0)
    ensures FailureOf(e, id) && id in t && t[id].status.Processing? ==>
      n > 0 && Next(c, t, e.call, e.now)[id].nextAttemptAt == e.now + c.retryBaseMs * Pow2(n - 1)
    ensures !(FailureOf(e, id) && id in t && t[id].status.Processing?) ==>
      && id in t && t[id].status.Retry? && !Claims(e, id) && !Resets(e, id)
      && t[id].nextAttemptAt == Next(c, t, e.call, e.now)[id].nextAttemptAt
  {
  }

  /** The last event put the job on retry. */
  ghost predicate JustFailed(c: Config, es: seq<Event>, id: JobId)
    requires es != []
  {
    var t := After(c, es[..|es| - 1]);
    FailureOf(es[|es| - 1], id) && id in t && t[id].status.Processing?
  }

  lemma RetryComesFrom(c: Config, es: seq<Event>, id: JobId)
    requires Run(c, es) && OrderlyRun(c, es, id) && c.maxJobAttempts >= 1 && es != []
    requires id in After(c, es) && After(c, es)[id].status.Retry?
    ensures var e, t, n := es[|es| - 1], After(c, es[..|es| - 1]), |ClaimTimes(es, id)|;
      if JustFailed(c, es, id) then
        n > 0 && After(c, es)[id].nextAttemptAt == e.now + c.retryBaseMs * Pow2(n - 1)
      else
        && id in t && t[id].status.Retry? && !Claims(e, id) && !Resets(e, id) && ClaimTimes(es[..|es| - 1], id) == ClaimTimes(es, id)
        && t[id].nextAttemptAt == After(c, es)[id].nextAttemptAt
  {
    var n := |es| - 1;
    RowsKeyed(c, es[..n]);
    OrderlyPrefix(c, es, n, id);
    if id in After(c, es[..n]) {
      RetryBudget(c, es[..n], id);
    }
    RetryStep(c, After(c, es[..n]), es[n], id, |ClaimTimes(es[..n], id)|);
  }

  /** The job has waited since event `k`, which put it on retry, and is due
      base * 2^(n - 1) after it, where `n` counts the claims so far. */
  ghost predicate DueFrom(c: Config, es: seq<Event>, k: nat, id: JobId)
  {
    && PutOnRetryAt(es, k, id) && ClaimTimes(es, id) != [] && id in After(c, es)
    && After(c, es)[id].nextAttemptAt == es[k].now + c.retryBaseMs * Pow2(|ClaimTimes(es, id)| - 1)
  }

  lemma DueNow(c: Config, es: seq<Event>, id: JobId)
    requires es != [] && JustFailed(c, es, id) && id in After(c, es) && ClaimTimes(es, id) != []
    requires After(c, es)[id].nextAttemptAt == es[|es| - 1].now + c.retryBaseMs * Pow2(|ClaimTimes(es, id)| - 1)
    ensures DueFrom(c, es, |es| - 1, id)
  {
  }

  lemma StillDue(c: Config, es: seq<Event>, k: nat, id: JobId)
    requires es != [] && DueFrom(c, es[..|es| - 1], k, id) && id in After(c, es)
    requires !Claims(es[|es| - 1], id) && !Resets(es[|es| - 1], id) && ClaimTimes(es[..|es| - 1], id) == ClaimTimes(es, id)
    requires After(c, es[..|es| - 1])[id].nextAttemptAt == After(c, es)[id].nextAttemptAt
    ensures DueFrom(c, es, k, id)
  {
    var before := es[..|es| - 1];
    assert before[k] == es[k];
    forall m | k < m < |es| ensures !Claims(es[m], id) && !Resets(es[m], id) {
      assert m < |before| ==> before[m] == es[m];
    }
  }

  /** On an orderly run a job that waits for a retry after `n` claims is due exactly
      base * 2^(n - 1) after the failure that put it there. */
  lemma {:induction false} RetryIsDue(c: Config, es: seq<Event>, id: JobId) returns (k: nat)
    requires Run(c, es) && OrderlyRun(c, es, id) && c.maxJobAttempts >= 1
    requires id in After(c, es) && After(c, es)[id].status.Retry?
    ensures DueFrom(c, es, k, id)
  {
    var n := |es| - 1;
    RetryComesFrom(c, es, id);
    if JustFailed(c, es, id) {
      k := n;
      DueNow(c, es, id);
    } else {
      OrderlyPrefix(c, es, n, id);
      RunPrefix(c, es, n);
      k := RetryIsDue(c, es[..n], id);
      StillDue(c, es, k, id);
    }
  }

  /** So the next claim may come from that moment on, and not before. */
  lemma RetryWindow(c: Config, es: seq<Event>, id: JobId, now: Time) returns (k: nat)
    requires Run(c, es) && OrderlyRun(c, es, id) && c.maxJobAttempts >= 1
    requires id in After(c, es) && After(c, es)[id].status.Retry?
    ensures PutOnRetryAt(es, k, id) && ClaimTimes(es, id) != []
    ensures Due(c, After(c, es)[id], now) <==> now >= es[k].now + c.retryBaseMs * Pow2(|ClaimTimes(es, id)| - 1)
  {
    k := RetryIsDue(c, es, id);
  }

  /** The call is prompt: a retry is claimed the moment it is due, and no attempt of
      the job takes longer than `d` to fail. */
  ghost predicate Prompt(t: Table, e: Event, id: JobId, times: seq<Time>, d: nat)
  {
    && (Claims(e, id) && id in t && t[id].status.Retry? ==> e.now == t[id].nextAttemptAt)
    && (FailureOf(e, id) && id in t && t[id].status.Processing? && times != [] ==> e.now <= times[|times| - 1] + d)
  }

  ghost predicate PromptRun(c: Config, es: seq<Event>, id: JobId, d: nat)
  {
    forall k :: 0 <= k < |es| ==> Prompt(After(c, es[..k]), es[k], id, ClaimTimes(es[..k], id), d)
  }

  /** The latest time by which `n` attempts of at most `d` each can be over. */
  function Latest(c: Config, n: nat, d: nat): nat { n * d + Backoff(c, n) }

  ghost predicate Brisk(c: Config, times: seq<Time>, d: nat)
  {
    forall k :: 0 <= k < |times| ==> times[k] <= times[0] + Latest(c, k, d)
  }

  ghost predicate Hurried(c: Config, j: Job, times: seq<Time>, d: nat)
  {
    && Brisk(c, times, d) && j.attempts == |times|
    && (j.status.Processing? || j.status.Retry? ==> times != [])
    && (j.status.Queued? ==> times == [])
    && (j.status.Retry? ==> j.nextAttemptAt <= times[0] + Latest(c, |times|, d))
  }

  lemma LatestStep(c: Config, n: nat, d: nat)
    requires n >= 1
    ensures Latest(c, n, d) == Latest(c, n - 1, d) + d + c.retryBaseMs * Pow2(n - 1)
  {
    BackoffStep(c, n);
    Multiple(n, d);
  }

  lemma Multiple(n: nat, d: nat)
    requires n >= 1
    ensures n * d == (n - 1) * d + d
  {
  }

  lemma ClaimIsBrisk(c: Config, times: seq<Time>, now: Time, d: nat)
    requires Brisk(c, times, d) && (times != [] ==> now <= times[0] + Latest(c, |times|, d))
    ensures Brisk(c, times + [now], d)
  {
    var t := times + [now];
    forall k | 0 <= k < |t| ensures t[k] <= t[0] + Latest(c, k, d) {
      if k < |times| {
        assert t[k] == times[k] && t[0] == times[0];
      } else if times == [] {
        assert Latest(c, 0, d) >= 0;
      }
    }
  }

  lemma RowStaysHurried(c: Config, t: Table, e: Event, id: JobId, times: seq<Time>, d: nat)
    requires Keyed(t) && id in t && Hurried(c, t[id], times, d) && Prompt(t, e, id, times, d)
    requires Allowed(c, t, e) && Orderly(t, e, id)
    ensures
      var times' := if Resets(e, id) then [] else if Claims(e, id) then times + [e.now] else times;
      id in Next(c, t, e.call, e.now) && Hurried(c, Next(c, t, e.call, e.now)[id], times', d)
  {
    if Claims(e, id) {
      ClaimIsBrisk(c, times, e.now, d);
    } else if FailureOf(e, id) && t[id].status.Processing? {
      LatestStep(c, |times|, d);
    }
  }

  lemma PromptPrefix(c: Config, es: seq<Event>, k: nat, id: JobId, d: nat)
    requires PromptRun(c, es, id, d) && k < |es|
    ensures PromptRun(c, es[..k], id, d) && Prompt(After(c, es[..k]), es[k], id, ClaimTimes(es[..k], id), d)
  {
    forall m | 0 <= m < k ensures Prompt(After(c, es[..k][..m]), es[..k][m], id, ClaimTimes(es[..k][..m], id), d) {
      assert es[..k][..m] == es[..m];
    }
  }

  /** The backoff is not longer than it should be either: if retries are claimed the
      moment they are due and no attempt lasts longer than `d`, the (k+1)-th claim
      comes at most k * d + base * (2^k - 1) after the first. */
  lemma {:induction false} PromptClaims(c: Config, es: seq<Event>, id: JobId, d: nat)
    requires Run(c, es) && OrderlyRun(c, es, id) && PromptRun(c, es, id, d) && id in After(c, es)
    ensures Hurried(c, After(c, es)[id], ClaimTimes(es, id), d)
  {
    var k := |es| - 1;
    RowsKeyed(c, es[..k]);
    if id in After(c, es[..k]) {
      OrderlyPrefix(c, es, k, id);
      PromptPrefix(c, es, k, id, d);
      PromptClaims(c, es[..k], id, d);
      RowStaysHurried(c, After(c, es[..k]), es[k], id, ClaimTimes(es[..k], id), d);
    }
  }

  // ------------------------------------------------------------------ bookkeeping

  /** The checkpoint of the last call that names the job. */
  function LastSaved(es: seq<Event>, id: JobId): nat
  {
    if es == [] then 0 else
      var e := es[|es| - 1];
      if e.call.Checkpoint? && e.call.id == id then e.call.checkpoint
      else if e.call.Enqueue? && e.call.id == id then 0
      else LastSaved(es[..|es| - 1], id)
  }

  /** The worker of the last claim of the job. */
  function LastClaimant(es: seq<Event>, id: JobId): Option<nat>
  {
    if es == [] then None else
      var e := es[|es| - 1];
      if Claims(e, id) then Some(e.call.worker) else LastClaimant(es[..|es| - 1], id)
  }

  /** What the row of any job shows, whoever called what in between: the checkpoint
      last saved; while in hand, the worker that claimed it last and no error; a time
      of completion exactly if it is over; an error if it failed. */
  ghost predicate Kept(j: Job, saved: nat, claimant: Option<nat>)
  {
    j.checkpoint == saved && Held(j, claimant) && Ended(j)
  }

  ghost predicate Held(j: Job, claimant: Option<nat>)
  {
    j.status == Processing ==> j.lockedBy == claimant && claimant.Some? && j.error == None
  }

  ghost predicate Ended(j: Job)
  {
    && (j.completedAt.Some? <==> j.status in {Completed, Failed, Status.Cancelled})
    && (j.status in {Retry, Failed} ==> j.error.Some?)
    && (j.status == Completed ==> j.error == None)
  }

  lemma StepKeepsCheckpoint(c: Config, t: Table, e: Event, id: JobId, es: seq<Event>)
    requires Keyed(t) && Allowed(c, t, e) && id in Next(c, t, e.call, e.now)
    requires es != [] && es[|es| - 1] == e
    requires id in t ==> t[id].checkpoint == LastSaved(es[..|es| - 1], id)
    ensures Next(c, t, e.call, e.now)[id].checkpoint == LastSaved(es, id)
  {
  }

  lemma StepKeepsHeld(c: Config, t: Table, e: Event, id: JobId, es: seq<Event>)
    requires Keyed(t) && Allowed(c, t, e) && id in Next(c, t, e.call, e.now)
    requires es != [] && es[|es| - 1] == e
    requires id in t ==> Held(t[id], LastClaimant(es[..|es| - 1], id))
    ensures Held(Next(c, t, e.call, e.now)[id], LastClaimant(es, id))
  {
  }

  lemma StepKeepsEnded(c: Config, t: Table, e: Event, id: JobId)
    requires Keyed(t) && Allowed(c, t, e) && id in Next(c, t, e.call, e.now)
    requires id in t ==> Ended(t[id])
    ensures Ended(Next(c, t, e.call, e.now)[id])
  {
  }

  lemma {:induction false} RowsAreKept(c: Config, es: seq<Event>, id: JobId)
    requires Run(c, es) && id in After(c, es)
    ensures Kept(After(c, es)[id], LastSaved(es, id), LastClaimant(es, id))
  {
    var k := |es| - 1;
    RowsKeyed(c, es[..k]);
    if id in After(c, es[..k]) {
      RowsAreKept(c, es[..k], id);
    }
    StepKeepsCheckpoint(c, After(c, es[..k]), es[k], id, es);
    StepKeepsHeld(c, After(c, es[..k]), es[k], id, es);
    StepKeepsEnded(c, After(c, es[..k]), es[k], id);
  }

  // -------------------------------------------------------- the budget overrun

  ghost predicate WithinBudget(t: Table, id: JobId)
  {
    id in t ==> t[id].attempts <= t[id].maxAttempts
  }

  /** The attempts stayed within the maximum throughout the run. */
  ghost predicate AlwaysWithinBudget(c: Config, es: seq<Event>, id: JobId)
  {
    forall k :: 0 <= k <= |es| ==> WithinBudget(After(c, es[..k]), id)
  }

  /** The event claims the job although no attempt is left. */
  ghost predicate ClaimsSpent(t: Table, e: Event, id: JobId)
  {
    Claims(e, id) && id in t && t[id].attempts >= t[id].maxAttempts
  }

  ghost predicate NeverClaimsSpent(c: Config, es: seq<Event>, id: JobId)
  {
    forall k :: 0 <= k < |es| ==> !ClaimsSpent(After(c, es[..k]), es[k], id)
  }

  lemma StepStaysWithin(c: Config, t: Table, e: Event, id: JobId)
    requires Keyed(t) && WithinBudget(t, id) && !ClaimsSpent(t, e, id)
    ensures WithinBudget(Next(c, t, e.call, e.now), id)
  {
  }

  lemma {:induction false} UnspentStaysWithin(c: Config, es: seq<Event>, k: nat, id: JobId)
    requires NeverClaimsSpent(c, es, id) && k <= |es|
    ensures WithinBudget(After(c, es[..k]), id)
  {
    if k > 0 {
      UnspentStaysWithin(c, es, k - 1, id);
      AfterStep(c, es, k - 1);
      RowsKeyed(c, es[..k - 1]);
      StepStaysWithin(c, After(c, es[..k - 1]), es[k - 1], id);
    }
  }

  /** On every run, whoever reports and whatever is recovered: the attempts of a job
      stay within the maximum if and only if no claim takes it with no attempt left,
      which is what a claim does not look at. */
  lemma BudgetCondition(c: Config, es: seq<Event>, id: JobId)
    requires Run(c, es)
    ensures AlwaysWithinBudget(c, es, id) <==> NeverClaimsSpent(c, es, id)
  {
    if NeverClaimsSpent(c, es, id) {
      forall k | 0 <= k <= |es| ensures WithinBudget(After(c, es[..k]), id) {
        UnspentStaysWithin(c, es, k, id);
      }
    } else {
      var k :| 0 <= k < |es| && ClaimsSpent(After(c, es[..k]), es[k], id);
      AfterStep(c, es, k);
      RowsKeyed(c, es[..k]);
      assert !WithinBudget(After(c, es[..k + 1]), id);
    }
  }

  // --------------------------------------------------- when only holders report

  ghost predicate HeldRun(c: Config, es: seq<Event>, id: JobId)
  {
    forall k :: 0 <= k < |es| ==> HolderReports(After(c, es[..k]), es[k], id)
  }

  /** The event claims the job while it is in hand and its attempts are used up. */
  ghost predicate TakesExhausted(t: Table, e: Event, id: JobId)
  {
    Claims(e, id) && id in t && t[id].status.Processing? && t[id].attempts == t[id].maxAttempts
  }

  ghost predicate NeverTakesExhausted(c: Config, es: seq<Event>, id: JobId)
  {
    forall k :: 0 <= k < |es| ==>
      !TakesExhausted(After(c, es[..k]), es[k], id) && (c.maxJobAttempts == 0 ==> !Claims(es[k], id))
  }

  /** A job that waits has an attempt left, any other has none too many. */
  ghost predicate Spare(c: Config, t: Table, id: JobId)
  {
    id in t ==>
      && t[id].maxAttempts == c.maxJobAttempts
      && t[id].attempts <= t[id].maxAttempts && (Waiting(t[id]) && c.maxJobAttempts > 0 ==> t[id].attempts < t[id].maxAttempts)
  }

  lemma StaysSpare(c: Config, t: Table, e: Event, id: JobId)
    requires Keyed(t) && Spare(c, t, id) && Allowed(c, t, e) && HolderReports(t, e, id)
    requires !TakesExhausted(t, e, id) && (c.maxJobAttempts == 0 ==> !Claims(e, id))
    ensures Spare(c, Next(c, t, e.call, e.now), id)
  {
  }

  lemma HeldPrefix(c: Config, es: seq<Event>, k: nat, id: JobId)
    requires HeldRun(c, es, id) && k <= |es|
    ensures HeldRun(c, es[..k], id)
  {
    forall m | 0 <= m < k ensures HolderReports(After(c, es[..k][..m]), es[..k][m], id) {
      assert es[..k][..m] == es[..m];
    }
  }

  lemma NeverTakesPrefix(c: Config, es: seq<Event>, k: nat, id: JobId)
    requires NeverTakesExhausted(c, es, id) && k <= |es|
    ensures NeverTakesExhausted(c, es[..k], id)
  {
    forall m | 0 <= m < k
      ensures !TakesExhausted(After(c, es[..k][..m]), es[..k][m], id) && (c.maxJobAttempts == 0 ==> !Claims(es[..k][m], id))
    {
      assert es[..k][..m] == es[..m];
    }
  }

  lemma {:induction false} SpareThroughout(c: Config, es: seq<Event>, id: JobId)
    requires Run(c, es) && HeldRun(c, es, id) && NeverTakesExhausted(c, es, id)
    ensures Spare(c, After(c, es), id)
  {
    if es != [] {
      var k := |es| - 1;
      HeldPrefix(c, es, k, id);
      NeverTakesPrefix(c, es, k, id);
      SpareThroughout(c, es[..k], id);
      RowsKeyed(c, es[..k]);
      assert HolderReports(After(c, es[..k]), es[k], id) && !TakesExhausted(After(c, es[..k]), es[k], id);
      StaysSpare(c, After(c, es[..k]), es[k], id);
    }
  }

  /** While only the holder reports on a job and it is not recovered, even if leases
      run out: its attempts stay within the maximum if and only if no claim takes
      the job in hand when its attempts are used up. (A maximum of 0 allows no claim
      at all.) */
  lemma HeldBudgetCondition(c: Config, es: seq<Event>, id: JobId)
    requires Run(c, es) && HeldRun(c, es, id)
    ensures AlwaysWithinBudget(c, es, id) <==> NeverTakesExhausted(c, es, id)
  {
    if NeverTakesExhausted(c, es, id) {
      forall k | 0 <= k <= |es| ensures WithinBudget(After(c, es[..k]), id) {
        RunPrefix(c, es, k);
        HeldPrefix(c, es, k, id);
        NeverTakesPrefix(c, es, k, id);
        SpareThroughout(c, es[..k], id);
      }
    } else {
      var k :| 0 <= k < |es| && (TakesExhausted(After(c, es[..k]), es[k], id) || (c.maxJobAttempts == 0 && Claims(es[k], id)));
      ExhaustedExceeds(c, es, k, id);
    }
  }

  lemma ExhaustedExceeds(c: Config, es: seq<Event>, k: nat, id: JobId)
    requires Run(c, es) && k < |es|
    requires TakesExhausted(After(c, es[..k]), es[k], id) || (c.maxJobAttempts == 0 && Claims(es[k], id))
    ensures !WithinBudget(After(c, es[..k + 1]), id)
  {
    AfterStep(c, es, k);
    RowsKeyed(c, es[..k]);
    RunAt(c, es, k);
    MaximumStays(c, es[..k], id);
  }

  lemma {:induction false} MaximumStays(c: Config, es: seq<Event>, id: JobId)
    requires id in After(c, es)
    ensures After(c, es)[id].maxAttempts == c.maxJobAttempts
  {
    var k := |es| - 1;
    if id in After(c, es[..k]) {
      MaximumStays(c, es[..k], id);
    }
  }

  /** Leases that run out one after the other: job 0 claimed `n` times. */
  lemma {:induction false} ClaimedRepeatedly(c: Config, n: nat) returns (es: seq<Event>)
    ensures Run(c, es) && HeldRun(c, es, 0) && es != []
    ensures OnlyJob(After(c, es), n, c.maxJobAttempts, es[|es| - 1].now)
  {
    if n == 0 {
      var e := Event(0, Enqueue(0, 0, 0));
      Extended(c, [], e, map[0 := NewJob(c, 0, 0, 0, 0)]);
      es := [] + [e];
    } else {
      var before := ClaimedRepeatedly(c, n - 1);
      var e := Event(before[|before| - 1].now + c.Expiry() + 1, Claim(n, 0));
      var t := After(c, before);
      assert Oldest(c, t, e.now, 0);
      Extended(c, before, e, Next(c, t, e.call, e.now));
      HeldExtended(c, before, e, 0);
      es := before + [e];
    }
  }

  /** Job 0 is the only one, has been claimed `n` times and last at `at`. */
  ghost predicate OnlyJob(t: Table, n: nat, most: nat, at: Time)
  {
    && t.Keys == {0} && t[0].id == 0 && t[0].attempts == n && t[0].maxAttempts == most
    && (if n == 0 then t[0].status.Queued? && t[0].nextAttemptAt <= at else t[0].status.Processing? && t[0].lockedAt == Some(at))
  }

  lemma HeldExtended(c: Config, es: seq<Event>, e: Event, id: JobId)
    requires HeldRun(c, es, id) && HolderReports(After(c, es), e, id)
    ensures HeldRun(c, es + [e], id)
  {
    var all := es + [e];
    forall k | 0 <= k < |all| ensures HolderReports(After(c, all[..k]), all[k], id) {
      assert all[..k] == if k < |es| then es[..k] else es;
    }
  }

  ghost predicate Exceeds(t: Table, id: JobId, excess: nat)
  {
    id in t && t[id].attempts == t[id].maxAttempts + excess
  }

  /** Such claims occur, whatever the maximum: leases that run out one after the
      other take the attempts of a job as far beyond it as one likes. */
  lemma BudgetCanBeOverrun(c: Config, excess: nat)
    ensures exists es :: Run(c, es) && HeldRun(c, es, 0) && Exceeds(After(c, es), 0, excess)
  {
    var es := ClaimedRepeatedly(c, c.maxJobAttempts + excess);
    assert Exceeds(After(c, es), 0, excess);
  }

  lemma NeverTakesExtended(c: Config, es: seq<Event>, e: Event, id: JobId)
    requires NeverTakesExhausted(c, es, id)
    requires !TakesExhausted(After(c, es), e, id) && (c.maxJobAttempts == 0 ==> !Claims(e, id))
    ensures NeverTakesExhausted(c, es + [e], id)
  {
    var all := es + [e];
    forall k | 0 <= k < |all|
      ensures !TakesExhausted(After(c, all[..k]), all[k], id) && (c.maxJobAttempts == 0 ==> !Claims(all[k], id))
    {
      assert all[..k] == if k < |es| then es[..k] else es;
    }
  }

  /** Job 0 is the only one and waits after `n` claims. */
  ghost predicate OnlyWaits(t: Table, n: nat, most: nat, at: Time)
  {
    && t.Keys == {0} && t[0].id == 0 && t[0].attempts == n && t[0].maxAttempts == most
    && t[0].status.Queued? && t[0].nextAttemptAt <= at
  }

  /** One more claim and recovery of a waiting job. */
  lemma ClaimAndRecover(c: Config, es: seq<Event>, n: nat, at: Time) returns (longer: seq<Event>)
    requires Run(c, es) && es != [] && es[|es| - 1].now == at && NeverTakesExhausted(c, es, 0)
    requires OnlyWaits(After(c, es), n, c.maxJobAttempts, at) && c.maxJobAttempts >= 1
    ensures Run(c, longer) && longer != [] && longer[|longer| - 1].now == at && NeverTakesExhausted(c, longer, 0)
    ensures OnlyWaits(After(c, longer), n + 1, c.maxJobAttempts, at)
  {
    var t, claim := After(c, es), Event(at, Claim(n, 0));
    var es1, t1 := es + [claim], Next(c, t, claim.call, at);
    assert Oldest(c, t, at, 0);
    Extended(c, es, claim, t1);
    NeverTakesExtended(c, es, claim, 0);
    var recover := Event(at, RequeueRecovered(t1[0]));
    Extended(c, es1, recover, Next(c, t1, recover.call, at));
    NeverTakesExtended(c, es1, recover, 0);
    longer := es1 + [recover];
  }

  lemma {:induction false} RecoveredRepeatedly(c: Config, n: nat) returns (es: seq<Event>)
    requires c.maxJobAttempts >= 1
    ensures Run(c, es) && es != [] && es[|es| - 1].now == 0 && NeverTakesExhausted(c, es, 0)
    ensures OnlyWaits(After(c, es), n, c.maxJobAttempts, 0)
  {
    if n == 0 {
      var e := Event(0, Enqueue(0, 0, 0));
      Extended(c, [], e, map[0 := NewJob(c, 0, 0, 0, 0)]);
      NeverTakesExtended(c, [], e, 0);
      es := [] + [e];
    } else {
      var before := RecoveredRepeatedly(c, n - 1);
      es := ClaimAndRecover(c, before, n - 1, 0);
    }
  }

  /** Recovery overruns the maximum too, without any claim of a job in hand and
      without any lease running out: each recovery puts the job back with the
      attempts it has used. */
  lemma RecoveryCanOverrun(c: Config, excess: nat)
    requires c.maxJobAttempts >= 1
    ensures exists es :: Run(c, es) && NeverTakesExhausted(c, es, 0) && Exceeds(After(c, es), 0, excess)
  {
    var es := RecoveredRepeatedly(c, c.maxJobAttempts + excess);
    assert Exceeds(After(c, es), 0, excess);
  }

  // ---------------------------------------------------------------- cancellation

  /** The event takes job `id` out of cancellation: none of these calls looks at the
      status that the job has by then. */
  predicate Revives(e: Event, id: JobId)
  {
    match e.call
    case Complete(held) => held.id == id
    case FailPermanent(held, _) => held.id == id
    case RequeueRecovered(held) => held.id == id && Live(held)
    case ManualRetry(o) => o == id
    case _ => false
  }

  ghost predicate Cancelled(t: Table, id: JobId) { id in t && t[id].status.Cancelled? }

  lemma CancelledStep(c: Config, es: seq<Event>, k: nat, id: JobId)
    requires Run(c, es) && k < |es| && Cancelled(After(c, es[..k]), id)
    ensures Cancelled(After(c, es[..k + 1]), id) <==> !Revives(es[k], id)
  {
    AfterStep(c, es, k);
    RowsKeyed(c, es[..k]);
    RunAt(c, es, k);
  }

  lemma {:induction false} StaysCancelled(c: Config, es: seq<Event>, i: nat, k: nat, id: JobId)
    requires Run(c, es) && i <= k <= |es| && Cancelled(After(c, es[..i]), id)
    requires forall m :: i <= m < |es| ==> !Revives(es[m], id)
    ensures Cancelled(After(c, es[..k]), id)
    decreases k - i
  {
    if i < k {
      StaysCancelled(c, es, i, k - 1, id);
      CancelledStep(c, es, k - 1, id);
    }
  }

  /** A job that is cancelled after `i` events stays so for the rest of the run if
      and only if no completion, permanent failure, recovery with a live copy or
      manual retry names it. */
  lemma CancellationCondition(c: Config, es: seq<Event>, i: nat, id: JobId)
    requires Run(c, es) && i <= |es| && Cancelled(After(c, es[..i]), id)
    ensures (forall k :: i <= k <= |es| ==> Cancelled(After(c, es[..k]), id)) <==> forall m :: i <= m < |es| ==> !Revives(es[m], id)
  {
    if forall m :: i <= m < |es| ==> !Revives(es[m], id) {
      forall k | i <= k <= |es| ensures Cancelled(After(c, es[..k]), id) {
        StaysCancelled(c, es, i, k, id);
      }
    } else {
      var m :| i <= m < |es| && Revives(es[m], id);
      if Cancelled(After(c, es[..m]), id) {
        CancelledStep(c, es, m, id);
        assert !Cancelled(After(c, es[..m + 1]), id);
      } else {
        assert !Cancelled(After(c, es[..m]), id);
      }
    }
  }

  lemma Extended(c: Config, es: seq<Event>, e: Event, t: Table)
    requires Run(c, es) && Allowed(c, After(c, es), e) && (es != [] ==> es[|es| - 1].now <= e.now)
    requires t == Next(c, After(c, es), e.call, e.now)
    ensures Run(c, es + [e]) && After(c, es + [e]) == t
  {
    assert (es + [e])[..|es|] == es;
  }
}
