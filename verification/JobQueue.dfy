/**
  The job-claim protocol of the replication engine (poll, replication-engine/src/index.ts).

  A poll claims the oldest QUEUED row that no other claim has locked (FOR UPDATE SKIP LOCKED), marks it RUNNING, and
  marks it COMPLETED in a second statement. Polls overlap freely, within one process (setInterval does not wait) and
  across replicas; any poll may fail or crash at any point.
 */
module JobQueue {
  import opened Wrappers

  type JobId = nat
  type PollId = nat

  datatype Status = Queued | Running | Completed

  datatype Job = Job(created: int, status: Status)

  /** Claiming: the claim statement holds the row lock. Working: the claim is committed, completion is pending. */
  datatype Phase = Claiming(job: JobId) | Working(job: JobId)

  datatype State = State(jobs: map<JobId, Job>, polls: map<PollId, Phase>)

  datatype Event =
    | Enqueue(j: JobId, created: int)
    | Empty(p: PollId)            // the claim finds no row
    | Lock(p: PollId, j: JobId)   // the claim locks its row
    | Commit(p: PollId)           // the claim commits: RUNNING
    | Abort(p: PollId)            // the claim fails or the worker crashes before it commits
    | Complete(p: PollId)         // COMPLETED
    | Drop(p: PollId)             // the completion fails or the worker crashes before it

  predicate Locked(s: State, j: JobId) { exists p | p in s.polls :: s.polls[p] == Claiming(j) }

  predicate IsQueued(s: State, j: JobId) { j in s.jobs && s.jobs[j].status == Queued }

  predicate Eligible(s: State, j: JobId) { IsQueued(s, j) && !Locked(s, j) }

  predicate Enabled(s: State, e: Event)
  {
    match e
    case Enqueue(j, _) => j !in s.jobs
    case Empty(p) => p !in s.polls && forall j | j in s.jobs :: !Eligible(s, j)
    case Lock(p, j) =>
      && p !in s.polls && j in s.jobs && Eligible(s, j)
      && forall k | k in s.jobs && Eligible(s, k) :: s.jobs[j].created <= s.jobs[k].created
    case Commit(p) => p in s.polls && s.polls[p].Claiming? && s.polls[p].job in s.jobs
    case Abort(p) => p in s.polls && s.polls[p].Claiming?
    case Complete(p) => p in s.polls && s.polls[p].Working? && s.polls[p].job in s.jobs
    case Drop(p) => p in s.polls && s.polls[p].Working?
  }

  function SetStatus(s: State, j: JobId, st: Status): State
    requires j in s.jobs
  {
    s.(jobs := s.jobs[j := s.jobs[j].(status := st)])
  }

  function Step(s: State, e: Event): State
    requires Enabled(s, e)
  {
    match e
    case Enqueue(j, created) => s.(jobs := s.jobs[j := Job(created, Queued)])
    case Empty(_) => s
    case Lock(p, j) => s.(polls := s.polls[p := Claiming(j)])
    case Commit(p) => SetStatus(s, s.polls[p].job, Running).(polls := s.polls[p := Working(s.polls[p].job)])
    case Complete(p) => SetStatus(s, s.polls[p].job, Completed).(polls := s.polls - {p})
    case Abort(p) => s.(polls := s.polls - {p})
    case Drop(p) => s.(polls := s.polls - {p})
  }

  predicate Legal(s: State, es: seq<Event>)
    decreases |es|
  {
    es == [] || (Enabled(s, es[0]) && Legal(Step(s, es[0]), es[1..]))
  }

  function Run(s: State, es: seq<Event>): State
    requires Legal(s, es)
    decreases |es|
  {
    if es == [] then s else Run(Step(s, es[0]), es[1..])
  }

  // ---- invariant ----

  /** Every poll has its own job; a locked job is still QUEUED and a worked one RUNNING. */
  predicate Inv(s: State)
  {
    && (forall p | p in s.polls :: s.polls[p].job in s.jobs
          && s.jobs[s.polls[p].job].status == (if s.polls[p].Claiming? then Queued else Running))
    && (forall p, q | p in s.polls && q in s.polls && p != q :: s.polls[p].job != s.polls[q].job)
  }

  lemma {:induction false} InvKept(s: State, e: Event)
    requires Inv(s) && Enabled(s, e)
    ensures Inv(Step(s, e))
  {
    if e.Lock? {
      forall q | q in s.polls ensures s.polls[q].job != e.j {
        assert s.polls[q] != Claiming(e.j);
      }
    }
  }

  lemma {:induction false} InvOverRun(s: State, es: seq<Event>)
    requires Inv(s) && Legal(s, es)
    ensures Inv(Run(s, es))
    decreases |es|
  {
    if es != [] { InvKept(s, es[0]); InvOverRun(Step(s, es[0]), es[1..]); }
  }

  // ---- each job is claimed at most once, and its status only moves forward ----

  function StatusRank(st: Status): nat { match st case Queued => 0 case Running => 1 case Completed => 2 }

  /** 1 when the job has left the queue. */
  function Claimed(s: State, j: JobId): nat { if j in s.jobs && s.jobs[j].status != Queued then 1 else 0 }

  function ClaimsBy(s: State, e: Event, j: JobId): nat
    requires Enabled(s, e)
  {
    if e.Commit? && s.polls[e.p].job == j then 1 else 0
  }

  /** How often a run commits a claim of job `j`. */
  function ClaimCount(s: State, es: seq<Event>, j: JobId): nat
    requires Legal(s, es)
    decreases |es|
  {
    if es == [] then 0 else ClaimsBy(s, es[0], j) + ClaimCount(Step(s, es[0]), es[1..], j)
  }

  /** The number of committed claims is exactly the job's move out of the queue: 0 or 1, never more. */
  lemma {:induction false} ClaimedAtMostOnce(s: State, es: seq<Event>, j: JobId)
    requires Inv(s) && Legal(s, es)
    ensures Claimed(Run(s, es), j) == Claimed(s, j) + ClaimCount(s, es, j) <= 1
    decreases |es|
  {
    if es != [] {
      InvKept(s, es[0]);
      ClaimedAtMostOnce(Step(s, es[0]), es[1..], j);
    }
  }

  lemma {:induction false} StatusMovesForward(s: State, es: seq<Event>, j: JobId)
    requires Inv(s) && Legal(s, es) && j in s.jobs
    ensures j in Run(s, es).jobs && Run(s, es).jobs[j].created == s.jobs[j].created
    ensures StatusRank(Run(s, es).jobs[j].status) >= StatusRank(s.jobs[j].status)
    decreases |es|
  {
    if es != [] {
      InvKept(s, es[0]);
      StatusMovesForward(Step(s, es[0]), es[1..], j);
    }
  }

  /** A poll works alone: no job is ever in the hands of two polls. */
  lemma {:induction false} HeldByOneWorker(s: State, es: seq<Event>, p: PollId, q: PollId)
    requires Inv(s) && Legal(s, es)
    requires p in Run(s, es).polls && q in Run(s, es).polls && Run(s, es).polls[p].job == Run(s, es).polls[q].job
    ensures p == q
  {
    InvOverRun(s, es);
  }

  // ---- conservation ----

  function WithStatus(jobs: map<JobId, Job>, st: Status): set<JobId> { set j | j in jobs && jobs[j].status == st }

  predicate Worked(s: State, j: JobId) { exists p | p in s.polls :: s.polls[p] == Working(j) }

  function InFlight(s: State): set<JobId> { set j | j in s.jobs && Worked(s, j) }

  /** RUNNING rows that no poll will ever complete. */
  function Orphans(s: State): set<JobId> { WithStatus(s.jobs, Running) - InFlight(s) }

  function Drops(es: seq<Event>): nat
  {
    if es == [] then 0 else (if es[0].Drop? then 1 else 0) + Drops(es[1..])
  }

  /** Which jobs are worked after a step: only the event's own poll changes hands. */
  lemma {:induction false} WorkedAfter(s: State, e: Event, k: JobId)
    requires Inv(s) && Enabled(s, e)
    ensures Worked(Step(s, e), k) <==> match e
              case Commit(p) => Worked(s, k) || s.polls[p].job == k
              case Complete(p) => Worked(s, k) && s.polls[p].job != k
              case Drop(p) => Worked(s, k) && s.polls[p].job != k
              case _ => Worked(s, k)
  {
    var s' := Step(s, e);
    if Worked(s, k) {
      var q :| q in s.polls && s.polls[q] == Working(k);
      if q in s'.polls { assert s'.polls[q] == Working(k); }
    }
    if e.Commit? { assert s'.polls[e.p] == Working(s.polls[e.p].job); }
  }

  lemma {:induction false} OrphanAfter(s: State, e: Event, k: JobId)
    requires Inv(s) && Enabled(s, e)
    ensures k in Orphans(Step(s, e)) <==> k in Orphans(s) || (e.Drop? && s.polls[e.p].job == k)
  {
    WorkedAfter(s, e, k);
    if e.Drop? || e.Complete? { assert s.polls[e.p] == Working(s.polls[e.p].job); }
  }

  lemma {:induction false} OneMore(a: set<JobId>, b: set<JobId>, j: JobId)
    requires j !in a && forall k :: k in b <==> k in a || k == j
    ensures |b| == |a| + 1
  {
    assert b == a + {j};
  }

  lemma {:induction false} SameSize(a: set<JobId>, b: set<JobId>)
    requires forall k :: k in b <==> k in a
    ensures |b| == |a|
  {
    assert b == a;
  }

  lemma {:induction false} WorkedIsNoOrphan(s: State, p: PollId)
    requires p in s.polls && s.polls[p].Working?
    ensures s.polls[p].job !in Orphans(s)
  {
    assert s.polls[p] == Working(s.polls[p].job);
  }

  lemma {:induction false} DropAddsOneOrphan(s: State, e: Event)
    requires Inv(s) && Enabled(s, e)
    ensures |Orphans(Step(s, e))| == |Orphans(s)| + (if e.Drop? then 1 else 0)
  {
    if e.Drop? {
      var j := s.polls[e.p].job;
      forall k ensures k in Orphans(Step(s, e)) <==> k in Orphans(s) || k == j { OrphanAfter(s, e, k); }
      WorkedIsNoOrphan(s, e.p);
      OneMore(Orphans(s), Orphans(Step(s, e)), j);
    } else {
      forall k ensures k in Orphans(Step(s, e)) <==> k in Orphans(s) { OrphanAfter(s, e, k); }
      SameSize(Orphans(s), Orphans(Step(s, e)));
    }
  }

  lemma {:induction false} OneOrphanPerDrop(s: State, es: seq<Event>)
    requires Inv(s) && Legal(s, es)
    ensures |Orphans(Run(s, es))| == |Orphans(s)| + Drops(es)
    decreases |es|
  {
    if es != [] {
      InvKept(s, es[0]);
      DropAddsOneOrphan(s, es[0]);
      OneOrphanPerDrop(Step(s, es[0]), es[1..]);
    }
  }

  lemma {:induction false} Partition(s: State)
    requires Inv(s)
    ensures |s.jobs| == |WithStatus(s.jobs, Queued)| + |InFlight(s)| + |Orphans(s)| + |WithStatus(s.jobs, Completed)|
  {
    var q, r, c := WithStatus(s.jobs, Queued), WithStatus(s.jobs, Running), WithStatus(s.jobs, Completed);
    assert InFlight(s) <= r;
    assert r == InFlight(s) + Orphans(s);
    assert s.jobs.Keys == q + r + c;
  }

  /** From an idle queue: every job is queued, in flight, orphaned (one per crash or failed completion) or completed. */
  lemma {:induction false} JobsAreConserved(s: State, es: seq<Event>)
    requires Inv(s) && Legal(s, es) && Orphans(s) == {}
    ensures var t := Run(s, es);
            |t.jobs| == |WithStatus(t.jobs, Queued)| + |InFlight(t)| + Drops(es) + |WithStatus(t.jobs, Completed)|
  {
    InvOverRun(s, es);
    OneOrphanPerDrop(s, es);
    Partition(Run(s, es));
  }

  /** Nothing in this engine reclaims an orphan: it stays RUNNING in every continuation. */
  lemma {:induction false} OrphansStayOrphans(s: State, es: seq<Event>, j: JobId)
    requires Inv(s) && Legal(s, es) && j in Orphans(s)
    ensures j in Orphans(Run(s, es))
    decreases |es|
  {
    if es != [] {
      var s' := Step(s, es[0]);
      InvKept(s, es[0]);
      WorkedAfter(s, es[0], j);
      assert (es[0].Commit? || es[0].Complete?) && s.polls[es[0].p].job == j ==> Worked(s, j);
      OrphansStayOrphans(s', es[1..], j);
    }
  }

  predicate CompletedIn(s: State, j: JobId) { j in s.jobs && s.jobs[j].status == Completed }

  /** Some continuation completes the job. */
  ghost predicate CanComplete(s: State, j: JobId) { exists es :: Legal(s, es) && CompletedIn(Run(s, es), j) }

  /** A RUNNING job can still be completed exactly when some poll is working on it. */
  lemma {:induction false} CanCompleteIff(s: State, j: JobId)
    requires Inv(s) && j in WithStatus(s.jobs, Running)
    ensures CanComplete(s, j) <==> j in InFlight(s)
  {
    if j in InFlight(s) {
      var p :| p in s.polls && s.polls[p] == Working(j);
      RunOne(s, [Complete(p)]);
      assert CompletedIn(Run(s, [Complete(p)]), j);
    } else {
      forall es | Legal(s, es) ensures !CompletedIn(Run(s, es), j) { OrphansStayOrphans(s, es, j); }
    }
  }

  /** Claimed, then the worker dies: the job is RUNNING and no continuation completes it. */
  lemma {:induction false} CrashOrphansForGood(s: State, p: PollId, j: JobId)
    requires Inv(s) && Enabled(s, Lock(p, j))
    ensures var es := [Lock(p, j), Commit(p), Drop(p)];
      && Legal(s, es) && j in WithStatus(Run(s, es).jobs, Running) && !CanComplete(Run(s, es), j)
  {
    var es := [Lock(p, j), Commit(p), Drop(p)];
    var s1 := Step(s, es[0]);
    var s2 := Step(s1, es[1]);
    RunThree(s, es);
    InvOverRun(s, es);
    InvKept(s, es[0]);
    InvKept(s1, es[1]);
    OrphanAfter(s2, es[2], j);
    CanCompleteIff(Run(s, es), j);
  }

  // ---- progress ----

  function Potential(s: State): nat { 2 * |WithStatus(s.jobs, Queued)| + |WithStatus(s.jobs, Running)| }

  /** Claims and completions of a run, less 2 for every job it enqueues. */
  function Work(es: seq<Event>): int
  {
    if es == [] then 0
    else WorkOf(es[0]) + Work(es[1..])
  }

  lemma {:induction false} StatusMoves(jobs: map<JobId, Job>, j: JobId, st: Status, x: Status)
    requires j in jobs && jobs[j].status != st
    ensures |WithStatus(jobs[j := jobs[j].(status := st)], x)|
         == |WithStatus(jobs, x)| + (if x == st then 1 else if x == jobs[j].status then -1 else 0)
  {
    var a, b := WithStatus(jobs, x), WithStatus(jobs[j := jobs[j].(status := st)], x);
    if x == st { OneMore(a, b, j); }
    else if x == jobs[j].status { OneMore(b, a, j); }
    else { SameSize(a, b); }
  }

  lemma {:induction false} EnqueueAdds(jobs: map<JobId, Job>, j: JobId, created: int)
    requires j !in jobs
    ensures var after := jobs[j := Job(created, Queued)];
      && |WithStatus(after, Queued)| == |WithStatus(jobs, Queued)| + 1
      && |WithStatus(after, Running)| == |WithStatus(jobs, Running)|
  {
    var after := jobs[j := Job(created, Queued)];
    OneMore(WithStatus(jobs, Queued), WithStatus(after, Queued), j);
    SameSize(WithStatus(jobs, Running), WithStatus(after, Running));
  }

  function WorkOf(e: Event): int { if e.Commit? || e.Complete? then 1 else if e.Enqueue? then -2 else 0 }

  lemma {:induction false} PotentialFalls(s: State, e: Event)
    requires Inv(s) && Enabled(s, e)
    ensures Potential(Step(s, e)) == Potential(s) - WorkOf(e)
  {
    if e.Enqueue? {
      EnqueueAdds(s.jobs, e.j, e.created);
    } else if e.Commit? || e.Complete? {
      var j, st := s.polls[e.p].job, if e.Commit? then Running else Completed;
      StatusMoves(s.jobs, j, st, Queued);
      StatusMoves(s.jobs, j, st, Running);
    }
  }

  /** 2·queued + running pays for every claim and completion of a run, so boundedly many drain the queue. */
  lemma {:induction false} WorkIsPaid(s: State, es: seq<Event>)
    requires Inv(s) && Legal(s, es)
    ensures Potential(Run(s, es)) == Potential(s) - Work(es)
    decreases |es|
  {
    if es != [] {
      InvKept(s, es[0]);
      PotentialFalls(s, es[0]);
      WorkIsPaid(Step(s, es[0]), es[1..]);
    }
  }

  // ---- bounded overtaking ----

  function ClaimsInFlight(s: State): set<PollId> { set p | p in s.polls && s.polls[p].Claiming? }

  function OlderQueued(s: State, j: JobId): set<JobId>
    requires j in s.jobs
  {
    set k | k in s.jobs && s.jobs[k].status == Queued && s.jobs[k].created < s.jobs[j].created
  }

  /** A set whose members are each locked by some claim in `ps` is no larger than `ps`. */
  lemma {:induction false} LockersBound(s: State, ks: set<JobId>, ps: set<PollId>)
    requires forall k | k in ks :: exists p :: p in ps && p in s.polls && s.polls[p] == Claiming(k)
    ensures |ks| <= |ps|
    decreases ks
  {
    if ks != {} {
      var k :| k in ks;
      var p :| p in ps && p in s.polls && s.polls[p] == Claiming(k);
      var ks', ps' := ks - {k}, ps - {p};
      forall i | i in ks' ensures exists q :: q in ps' && q in s.polls && s.polls[q] == Claiming(i) {
        var q :| q in ps && q in s.polls && s.polls[q] == Claiming(i);
        assert q in ps';
      }
      LockersBound(s, ks', ps');
    }
  }

  /**
    When a claim locks job `j`, every strictly older QUEUED job is locked by another claim still in flight, so at most
    as many jobs are overtaken as there are other claims in flight; with none, `j` is a first-created job.
   */
  lemma {:induction false} OvertakingIsBounded(s: State, p: PollId, j: JobId)
    requires Inv(s) && Enabled(s, Lock(p, j))
    ensures forall k | k in OlderQueued(s, j) :: Locked(s, k)
    ensures |OlderQueued(s, j)| <= |ClaimsInFlight(s)| == |ClaimsInFlight(Step(s, Lock(p, j)))| - 1
    ensures ClaimsInFlight(s) == {} ==>
              forall k | k in s.jobs && s.jobs[k].status == Queued :: s.jobs[j].created <= s.jobs[k].created
  {
    forall k | k in OlderQueued(s, j) ensures Locked(s, k) { assert !Eligible(s, k); }
    forall k | k in OlderQueued(s, j)
      ensures exists q :: q in ClaimsInFlight(s) && q in s.polls && s.polls[q] == Claiming(k)
    {
      var q :| q in s.polls && s.polls[q] == Claiming(k);
      assert q in ClaimsInFlight(s);
    }
    LockersBound(s, OlderQueued(s, j), ClaimsInFlight(s));
    assert ClaimsInFlight(Step(s, Lock(p, j))) == ClaimsInFlight(s) + {p};
    if ClaimsInFlight(s) == {} {
      forall k | k in s.jobs && s.jobs[k].status == Queued ensures s.jobs[j].created <= s.jobs[k].created {
        assert k !in OlderQueued(s, j);
      }
    }
  }

  // ---- the engine ----

  class JobTable {
    var jobs: map<JobId, Job>
    var polls: map<PollId, Phase>

    ghost function Contents(): State reads this { State(jobs, polls) }

    constructor ()
      ensures Contents() == State(map[], map[]) && Inv(Contents())
    {
      jobs, polls := map[], map[];
    }

    /** `SELECT id ... WHERE status = 'QUEUED' ORDER BY created_at LIMIT 1 FOR UPDATE SKIP LOCKED` */
    method SelectOldest() returns (r: Option<JobId>)
      ensures r.None? ==> forall j | j in jobs :: !Eligible(Contents(), j)
      ensures r.Some? ==> r.value in jobs && Eligible(Contents(), r.value)
                          && forall k | k in jobs && Eligible(Contents(), k) :: jobs[r.value].created <= jobs[k].created
    {
      r := None;
      var todo := jobs.Keys;
      while todo != {}
        invariant todo <= jobs.Keys
        invariant r.None? ==> forall j | j in jobs && j !in todo :: !Eligible(Contents(), j)
        invariant r.Some? ==> r.value in jobs && Eligible(Contents(), r.value)
                              && forall k | k in jobs && k !in todo && Eligible(Contents(), k) ::
                                   jobs[r.value].created <= jobs[k].created
        decreases todo
      {
        var j :| j in todo;
        todo := todo - {j};
        var locked := exists p | p in polls :: polls[p] == Claiming(j);
        if jobs[j].status == Queued && !locked && (r.None? || jobs[j].created < jobs[r.value].created) {
          r := Some(j);
        }
      }
    }

    /** One undisturbed poll; `claimOk` and `completeOk` say whether its two statements succeed. */
    method Poll(p: PollId, claimOk: bool, completeOk: bool) returns (es: seq<Event>)
      requires Inv(Contents()) && p !in polls
      modifies this
      ensures Legal(old(Contents()), es) && Contents() == Run(old(Contents()), es) && Inv(Contents())
      ensures p !in polls
      ensures |es| == 1 ==> es == [Empty(p)] && Contents() == old(Contents())
      ensures |es| > 1 ==> es[0].Lock? && es == (if !claimOk then [es[0], Abort(p)]
                                                 else [es[0], Commit(p), if completeOk then Complete(p) else Drop(p)])
    {
      ghost var s0 := Contents();
      var picked := SelectOldest();
      if picked.None? {
        es := [Empty(p)];
        assert Step(s0, es[0]) == s0 && es[1..] == [];
        return;
      }
      var j := picked.value;
      polls := polls[p := Claiming(j)];
      ghost var s1 := Contents();
      assert Enabled(s0, Lock(p, j)) && s1 == Step(s0, Lock(p, j));
      InvKept(s0, Lock(p, j));
      if !claimOk {
        polls := polls - {p};
        es := [Lock(p, j), Abort(p)];
        RunTwo(s0, es);
        InvKept(s1, Abort(p));
        return;
      }
      jobs := jobs[j := jobs[j].(status := Running)];
      polls := polls[p := Working(j)];
      ghost var s2 := Contents();
      assert s2 == Step(s1, Commit(p));
      InvKept(s1, Commit(p));
      if completeOk { jobs := jobs[j := jobs[j].(status := Completed)]; }
      polls := polls - {p};
      es := [Lock(p, j), Commit(p), if completeOk then Complete(p) else Drop(p)];
      assert Contents() == Step(s2, es[2]);
      InvKept(s2, es[2]);
      RunThree(s0, es);
    }
  }

  lemma {:induction false} RunOne(s: State, es: seq<Event>)
    requires |es| == 1 && Enabled(s, es[0])
    ensures Legal(s, es) && Run(s, es) == Step(s, es[0])
  {
    var s1, rest := Step(s, es[0]), es[1..];
    assert rest == [];
    assert Legal(s1, rest) && Run(s1, rest) == s1;
  }

  lemma {:induction false} RunTwo(s: State, es: seq<Event>)
    requires |es| == 2 && Enabled(s, es[0]) && Enabled(Step(s, es[0]), es[1])
    ensures Legal(s, es) && Run(s, es) == Step(Step(s, es[0]), es[1])
  {
    RunOne(Step(s, es[0]), es[1..]);
  }

  lemma {:induction false} RunThree(s: State, es: seq<Event>)
    requires |es| == 3 && Enabled(s, es[0]) && Enabled(Step(s, es[0]), es[1])
    requires Enabled(Step(Step(s, es[0]), es[1]), es[2])
    ensures Legal(s, es) && Run(s, es) == Step(Step(Step(s, es[0]), es[1]), es[2])
  {
    var t := es[1..];
    assert t[0] == es[1] && t[1] == es[2];
    RunTwo(Step(s, es[0]), t);
  }
}
