/** The worker's polling: overlapping ticks claim jobs up to a concurrency limit
    that each of them checks before it awaits a claim. */
module ImportWorker {
  import opened Wrappers

  /** The worker between two scheduling points: the counter it keeps, the jobs
      that really are running, and the ticks that await an answer to a claim. */
  datatype State = State(active: nat, running: multiset<nat>, awaiting: nat)

  datatype Event =
    | TickStarts
    | ClaimAnswered(answer: Option<nat>)
    | JobEnds(job: nat)

  /** The head of the tick's loop: awaits a claim if the limit leaves room. */
  function LoopHead(limit: nat, s: State): State
  {
    if s.active < limit then s.(awaiting := s.awaiting + 1) else s
  }

  ghost predicate Possible(s: State, e: Event)
  {
    match e
    case TickStarts => true
    case ClaimAnswered(_) => s.awaiting > 0
    case JobEnds(job) => job in s.running && s.active > 0
  }

  function Next(limit: nat, s: State, e: Event): State
    requires Possible(s, e)
  {
    match e
    case TickStarts => LoopHead(limit, s)
    case ClaimAnswered(None) => s.(awaiting := s.awaiting - 1)
    case ClaimAnswered(Some(job)) =>
      LoopHead(limit, State(s.active + 1, s.running + multiset{job}, s.awaiting - 1))
    case JobEnds(job) =>
      LoopHead(limit, State(s.active - 1, s.running - multiset{job}, s.awaiting))
  }

  const Idle := State(0, multiset{}, 0)

  class Worker {
    const concurrency: nat
    var active: nat
    ghost var running: multiset<nat>
    ghost var awaiting: nat

    ghost function Now(): State
      reads this
    {
      State(active, running, awaiting)
    }

    constructor (concurrency: nat)
      ensures this.concurrency == concurrency && Now() == Idle
    {
      this.concurrency := concurrency;
      active, running, awaiting := 0, multiset{}, 0;
    }

    /** Runs a tick up to its first await; says whether it asks for a job. */
    method Tick() returns (asks: bool)
      modifies this
      ensures Now() == Next(concurrency, old(Now()), TickStarts)
      ensures asks <==> old(active) < concurrency
      ensures active == old(active) && running == old(running) && awaiting == old(awaiting) + (if asks then 1 else 0)
    {
      asks := active < concurrency;
      if asks {
        awaiting := awaiting + 1;
      }
    }

    /** Continues a tick with the answer to its claim, up to its next await. */
    method Answered(job: Option<nat>) returns (asks: bool)
      requires awaiting > 0
      modifies this
      ensures Now() == Next(concurrency, old(Now()), ClaimAnswered(job))
      ensures awaiting == old(awaiting) - 1 + (if asks then 1 else 0)
      ensures job.None? ==> !asks && active == old(active) && running == old(running)
      ensures job.Some? ==> active == old(active) + 1 && running == old(running) + multiset{job.value}
      ensures job.Some? ==> (asks <==> old(active) + 1 < concurrency)
    {
      awaiting := awaiting - 1;
      if job.None? {
        return false;
      }
      active := active + 1;
      running := running + multiset{job.value};
      asks := Tick();
    }

    /** What runs when a job has finished either way: frees its place and ticks. */
    method Finished(job: nat) returns (asks: bool)
      requires job in running && active > 0
      modifies this
      ensures Now() == Next(concurrency, old(Now()), JobEnds(job))
      ensures active == old(active) - 1 && running == old(running) - multiset{job}
      ensures (asks <==> old(active) - 1 < concurrency) && awaiting == old(awaiting) + (if asks then 1 else 0)
    {
      active := active - 1;
      running := running - multiset{job};
      asks := Tick();
    }
  }

  // ------------------------------------------------------------- whole runs

  /** `s` is the state after the run `es`, in which never more than `ticks` ticks
      awaited a claim at once. */
  ghost predicate Reaches(limit: nat, ticks: nat, es: seq<Event>, s: State)
  {
    if es == [] then s == Idle else
      var before, e := es[..|es| - 1], es[|es| - 1];
      exists p :: Reaches(limit, ticks, before, p) && Follows(limit, ticks, p, e, s)
  }

  ghost predicate Follows(limit: nat, ticks: nat, p: State, e: Event, s: State)
  {
    Possible(p, e) && s == Next(limit, p, e) && s.awaiting <= ticks
  }

  /** The counter is the number of running jobs, and it stays below the limit
      plus the number of ticks that may await a claim at once. */
  lemma {:induction false} ActiveIsBounded(limit: nat, ticks: nat, es: seq<Event>, s: State)
    requires Reaches(limit, ticks, es, s) && limit >= 1
    ensures s.active == |s.running|
    ensures s.active + s.awaiting <= limit - 1 + ticks || s == Idle
    ensures ticks >= 1 ==> s.active <= limit - 1 + ticks
    ensures ticks == 1 ==> s.active <= limit
  {
    if es != [] {
      var e := es[|es| - 1];
      var p :| Reaches(limit, ticks, es[..|es| - 1], p) && Follows(limit, ticks, p, e, s);
      ActiveIsBounded(limit, ticks, es[..|es| - 1], p);
    }
  }

  lemma Reached(limit: nat, ticks: nat, es: seq<Event>, p: State, e: Event)
    requires Reaches(limit, ticks, es, p) && Possible(p, e) && Next(limit, p, e).awaiting <= ticks
    ensures Reaches(limit, ticks, es + [e], Next(limit, p, e))
  {
    assert (es + [e])[..|es + [e]| - 1] == es;
    assert Follows(limit, ticks, p, e, Next(limit, p, e));
  }

  lemma {:induction false} TicksCanPile(limit: nat, ticks: nat, n: nat) returns (es: seq<Event>)
    requires n <= ticks && limit >= 1
    ensures Reaches(limit, ticks, es, State(0, multiset{}, n))
  {
    if n == 0 {
      es := [];
    } else {
      var before := TicksCanPile(limit, ticks, n - 1);
      Reached(limit, ticks, before, State(0, multiset{}, n - 1), TickStarts);
      es := before + [TickStarts];
    }
  }

  /** The bound is reached, whatever the limit and the number of ticks. */
  lemma {:induction false} BoundIsTight(limit: nat, ticks: nat, n: nat) returns (es: seq<Event>, s: State)
    requires limit >= 1 && ticks >= 1 && n <= limit - 1 + ticks
    ensures Reaches(limit, ticks, es, s) && s.active == n
    ensures s.awaiting == if n < limit then ticks else limit - 1 + ticks - n
  {
    if n == 0 {
      es := TicksCanPile(limit, ticks, ticks);
      s := State(0, multiset{}, ticks);
    } else {
      var before, p := BoundIsTight(limit, ticks, n - 1);
      Reached(limit, ticks, before, p, ClaimAnswered(Some(0)));
      es, s := before + [ClaimAnswered(Some(0))], Next(limit, p, ClaimAnswered(Some(0)));
    }
  }
}
