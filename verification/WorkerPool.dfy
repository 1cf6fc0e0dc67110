/**
 worker_pool.c, worker.c and the accept loop of server.c: the accept thread
 and the workers interleave at every access to what they share.
 */
module WorkerPool {
  import opened BlockNumbers
  import opened FileBlocks
  import opened Session
  import opened SessionJobs
  import SR = SessionRuns

  /** `queued`: the start event waits in the dispatcher. `stale`: operations
      submitted by earlier sessions of the slot that are still outstanding. */
  datatype Job = Job(c: Ctx, active: bool, queued: bool, stale: multiset<Op>)

  /** `posting`: between `is_active = false` and `sem_post`. */
  datatype Worker = Worker(available: nat, jobs: seq<Job>, posting: bool)

  /** Where the accept thread is. */
  datatype Phase =
    | Idle
    | Waiting(w: nat)             // in sem_wait
    | Scanning(w: nat, i: nat)    // about to look at slot i
    | Chosen(w: nat, i: nat)      // slot i initialised, receiving a request
    | Starting(w: nat, i: nat)    // slot i active, start event not yet submitted

  datatype Pool = Pool(workers: seq<Worker>, phase: Phase)

  datatype Step =
    | Choose(w: nat)
    | Take
    | Look(cfg: Config, ring: seq<Slot>)
    | Abandon                                    // time-out, signal or unusable message
    | Activate
    | Launch(ok: bool)
    | Deliver(w: nat, i: nat, e: Event)
    | DeliverStale(w: nat, i: nat, e: Event)     // completion of an earlier session
    | Post(w: nat)

  predicate ExistsSlot(p: Pool, w: nat, i: nat)
  {
    w < |p.workers| && i < |p.workers[w].jobs|
  }

  predicate Can(p: Pool, t: Step)
  {
    match t
    case Choose(w) => p.phase.Idle? && w < |p.workers|
    case Take => p.phase.Waiting? && p.phase.w < |p.workers| && p.workers[p.phase.w].available > 0
    case Look(cfg, ring) =>
      p.phase.Scanning? && ExistsSlot(p, p.phase.w, p.phase.i) && SR.ValidSetup(cfg, ring)
    case Abandon => p.phase.Chosen?
    case Activate => p.phase.Chosen? && ExistsSlot(p, p.phase.w, p.phase.i)
    case Launch(ok) => p.phase.Starting? && ExistsSlot(p, p.phase.w, p.phase.i)
    case Deliver(w, i, e) =>
      && ExistsSlot(p, w, i) && !p.workers[w].posting
      && Enabled(p.workers[w].jobs[i].c, e) && (e.Start? ==> p.workers[w].jobs[i].queued)
    case DeliverStale(w, i, e) =>
      && ExistsSlot(p, w, i) && !p.workers[w].posting && !e.Start?
      && ValidSession(p.workers[w].jobs[i].c.s) && Deliverable(p.workers[w].jobs[i].c.s, e)
      && Completed(e) <= p.workers[w].jobs[i].stale && Returns(p.workers[w].jobs[i].c.s, e)
    case Post(w) => w < |p.workers| && p.workers[w].posting
  }

  function SetJob(p: Pool, w: nat, i: nat, job: Job): (p': Pool)
    requires ExistsSlot(p, w, i)
  {
    var worker := p.workers[w];
    p.(workers := p.workers[w := worker.(jobs := worker.jobs[i := job])])
  }

  /** The worker has handled an event of the slot: a closed session gives the
      slot back, and the semaphore is posted next. */
  function Handled(p: Pool, w: nat, i: nat, job: Job): (p': Pool)
    requires ExistsSlot(p, w, i)
  {
    var worker := p.workers[w];
    var closed := ReportsClosed(job.c);
    p.(workers := p.workers[w := worker.(
      jobs := worker.jobs[i := job.(active := job.active && !closed)],
      posting := closed)])
  }

  /** A completion that the session takes for one of its own. */
  function HandleStale(c: Ctx, e: Event): (r: Ctx)
    requires ValidSession(c.s) && Deliverable(c.s, e)
  {
    var r := React(c.s, e);
    Ctx(r.s, Perform(c.io.(pendingJobs := Wrap8(c.io.pendingJobs - 1)), r.acts))
  }

  function Next(p: Pool, t: Step): (p': Pool)
    requires Can(p, t)
  {
    match t
    case Choose(w) => p.(phase := Waiting(w))
    case Take =>
      var w := p.phase.w;
      p.(phase := Scanning(w, 0), workers := p.workers[w := p.workers[w].(available := p.workers[w].available - 1)])
    case Look(cfg, ring) =>
      var w, i := p.phase.w, p.phase.i;
      var job := p.workers[w].jobs[i];
      if job.active then p.(phase := Scanning(w, i + 1))
      else SetJob(p, w, i, Job(InitialCtx(cfg, ring), false, job.queued, job.stale + job.c.io.outstanding)).(phase := Chosen(w, i))
    case Abandon => p.(phase := Idle)
    case Activate =>
      var w, i := p.phase.w, p.phase.i;
      SetJob(p, w, i, p.workers[w].jobs[i].(active := true)).(phase := Starting(w, i))
    case Launch(ok) =>
      var w, i := p.phase.w, p.phase.i;
      var job := p.workers[w].jobs[i];
      SetJob(p, w, i, if ok then job.(queued := true) else job.(active := false)).(phase := Idle)
    case Deliver(w, i, e) =>
      var job := p.workers[w].jobs[i];
      Handled(p, w, i, job.(c := HandleEvent(job.c, e), queued := job.queued && !e.Start?))
    case DeliverStale(w, i, e) =>
      var job := p.workers[w].jobs[i];
      Handled(p, w, i, job.(c := HandleStale(job.c, e), stale := job.stale - Completed(e)))
    case Post(w) =>
      p.(workers := p.workers[w := p.workers[w].(available := p.workers[w].available + 1, posting := false)])
  }

  predicate InitialWorker(worker: Worker)
  {
    && worker.available == |worker.jobs| && !worker.posting
    && forall i :: 0 <= i < |worker.jobs| ==>
         var job := worker.jobs[i];
         !job.active && !job.queued && job.stale == multiset{} && job.c.io.outstanding == multiset{}
  }

  /** `worker_pool_init`: every slot is free and has its credit. */
  predicate InitialPool(p: Pool)
  {
    && p.phase.Idle?
    && forall w :: 0 <= w < |p.workers| ==> InitialWorker(p.workers[w])
  }

  predicate ValidRun(p: Pool, run: seq<Step>)
    decreases |run|, 0
  {
    run == [] || (ValidRun(p, run[..|run| - 1]) && Can(Exec(p, run[..|run| - 1]), run[|run| - 1]))
  }

  function Exec(p: Pool, run: seq<Step>): (p': Pool)
    requires ValidRun(p, run)
    decreases |run|, 1
  {
    if run == [] then p else Next(Exec(p, run[..|run| - 1]), run[|run| - 1])
  }

  /** No session ever has more than 255 operations outstanding. */
  predicate Moderate(p: Pool)
  {
    forall w, i :: 0 <= w < |p.workers| && 0 <= i < |p.workers[w].jobs| ==>
                     |p.workers[w].jobs[i].c.io.outstanding| <= 255
  }

  predicate AlwaysModerate(p: Pool, run: seq<Step>)
    requires ValidRun(p, run)
  {
    Moderate(Exec(p, run)) && (run == [] || AlwaysModerate(p, run[..|run| - 1]))
  }

  // ---------------------------------------------------------- lost credits

  /** The accept thread leaves a round without using the credit it took: the
      round was abandoned, or the start event could not be submitted. */
  predicate LosesCredit(t: Step)
  {
    t.Abandon? || t == Launch(false)
  }

  function LostAfter(p: Pool, lost: seq<nat>, t: Step): (lost': seq<nat>)
    requires Can(p, t)
    ensures |lost'| == |lost|
  {
    if LosesCredit(t) && p.phase.w < |lost| then lost[p.phase.w := lost[p.phase.w] + 1] else lost
  }

  /** For each worker, how many rounds of the run lost one of its credits. */
  function LostCredits(p: Pool, run: seq<Step>): (lost: seq<nat>)
    requires ValidRun(p, run)
    ensures |lost| == |p.workers|
  {
    if run == [] then seq(|p.workers|, _ => 0)
    else LostAfter(Exec(p, run[..|run| - 1]), LostCredits(p, run[..|run| - 1]), run[|run| - 1])
  }

  // ------------------------------------------------------------- invariant

  /** Number of inactive slots. */
  function Free(jobs: seq<Job>): (n: nat)
    ensures n <= |jobs|
  {
    if jobs == [] then 0 else Free(jobs[..|jobs| - 1]) + if jobs[|jobs| - 1].active then 0 else 1
  }

  predicate JobInv(job: Job)
  {
    && job.stale == multiset{}
    && (!job.active || job.queued ==> job.c.io.outstanding == multiset{})
    && (job.queued ==> job.active)
    && (job.active ==> ValidSession(job.c.s) && JobsCounted(job.c.io))
  }

  /** The accept thread has taken a credit of the worker and not used it. */
  predicate Holds(phase: Phase, w: nat)
  {
    (phase.Scanning? || phase.Chosen?) && phase.w == w
  }

  /** Every free slot is accounted for: by the semaphore, by the accept thread,
      by a post under way, or by a credit that was lost. */
  predicate Credits(worker: Worker, held: bool, lost: nat)
  {
    worker.available + (if held then 1 else 0) + (if worker.posting then 1 else 0) + lost == Free(worker.jobs)
  }

  /** Initialised and untouched since. */
  predicate Fresh(c: Ctx)
  {
    ValidSession(c.s) && c.io.outstanding == multiset{} && c.io.pendingJobs == 0
  }

  predicate PhaseInv(p: Pool)
  {
    match p.phase
    case Idle => true
    case Waiting(w) => w < |p.workers|
    case Scanning(w, i) =>
      w < |p.workers| && exists j :: i <= j < |p.workers[w].jobs| && !p.workers[w].jobs[j].active
    case Chosen(w, i) =>
      && ExistsSlot(p, w, i) && !p.workers[w].jobs[i].active
      && Fresh(p.workers[w].jobs[i].c)
    case Starting(w, i) =>
      && ExistsSlot(p, w, i) && p.workers[w].jobs[i].active && !p.workers[w].jobs[i].queued
      && Fresh(p.workers[w].jobs[i].c)
  }

  predicate WorkerInv(worker: Worker, held: bool, lost: nat)
  {
    Credits(worker, held, lost) && forall i :: 0 <= i < |worker.jobs| ==> JobInv(worker.jobs[i])
  }

  predicate Inv(p: Pool, lost: seq<nat>)
  {
    && PhaseInv(p) && |lost| == |p.workers|
    && forall w :: 0 <= w < |p.workers| ==> WorkerInv(p.workers[w], Holds(p.phase, w), lost[w])
  }

  lemma {:induction false} FreeAfter(jobs: seq<Job>, i: nat, job: Job)
    requires i < |jobs|
    ensures Free(jobs[i := job]) ==
              Free(jobs) + (if job.active then 0 else 1) - (if jobs[i].active then 0 else 1)
    decreases |jobs|
  {
    var last := |jobs| - 1;
    if i < last {
      assert jobs[i := job][..last] == jobs[..last][i := job];
      FreeAfter(jobs[..last], i, job);
    } else {
      assert jobs[i := job][..last] == jobs[..last];
    }
  }

  lemma {:induction false} FreeIsAll(jobs: seq<Job>)
    ensures Free(jobs) == |jobs| <==> forall i :: 0 <= i < |jobs| ==> !jobs[i].active
    decreases |jobs|
  {
    if jobs != [] {
      var before := jobs[..|jobs| - 1];
      FreeIsAll(before);
      assert forall i :: 0 <= i < |before| ==> before[i] == jobs[i];
    }
  }

  lemma {:induction false} SomeFree(jobs: seq<Job>) returns (j: nat)
    requires Free(jobs) > 0
    ensures j < |jobs| && !jobs[j].active
    decreases |jobs|
  {
    if jobs[|jobs| - 1].active {
      j := SomeFree(jobs[..|jobs| - 1]);
    } else {
      j := |jobs| - 1;
    }
  }

  lemma InitialInv(p: Pool)
    requires InitialPool(p)
    ensures Inv(p, seq(|p.workers|, _ => 0))
  {
    forall w | 0 <= w < |p.workers| ensures WorkerInv(p.workers[w], false, 0) {
      assert InitialWorker(p.workers[w]);
      FreeIsAll(p.workers[w].jobs);
    }
  }

  /** Replacing one job of one worker. */
  lemma JobReplaced(worker: Worker, held: bool, lost: nat, i: nat, job: Job,
                    worker': Worker, held': bool, lost': nat)
    requires WorkerInv(worker, held, lost) && i < |worker.jobs| && JobInv(job)
    requires worker'.jobs == worker.jobs[i := job]
    requires worker'.available + (if held' then 1 else 0) + (if worker'.posting then 1 else 0) + lost'
          == worker.available + (if held then 1 else 0) + (if worker.posting then 1 else 0) + lost
             + (if job.active then 0 else 1) - (if worker.jobs[i].active then 0 else 1)
    ensures WorkerInv(worker', held', lost')
  {
    FreeAfter(worker.jobs, i, job);
    hide Free, JobInv;
  }

  /** Only worker `w` has changed, apart from the accept thread. */
  lemma OneWorker(p: Pool, lost: seq<nat>, p': Pool, lost': seq<nat>, w: nat)
    requires Inv(p, lost) && w < |p.workers| && |p'.workers| == |p.workers|
    requires forall v :: 0 <= v < |p.workers| && v != w ==> p'.workers[v] == p.workers[v]
    requires forall v :: 0 <= v < |p.workers| && v != w ==> Holds(p'.phase, v) == Holds(p.phase, v)
    requires |lost'| == |lost| && forall v :: 0 <= v < |lost| && v != w ==> lost'[v] == lost[v]
    requires WorkerInv(p'.workers[w], Holds(p'.phase, w), lost'[w]) && PhaseInv(p')
    ensures Inv(p', lost')
  {
    hide WorkerInv, PhaseInv, Holds;
  }

  // ---------------------------------------------------- accept thread steps

  lemma TakeKeeps(p: Pool, lost: seq<nat>)
    requires Inv(p, lost) && Can(p, Take)
    ensures Inv(Next(p, Take), LostAfter(p, lost, Take))
  {
    var w := p.phase.w;
    assert WorkerInv(p.workers[w], false, lost[w]);
    var j := SomeFree(p.workers[w].jobs);
    assert !Next(p, Take).workers[w].jobs[j].active;
    OneWorker(p, lost, Next(p, Take), lost, w);
  }

  /** A busy slot is passed over. */
  lemma PassOver(p: Pool, lost: seq<nat>, w: nat, i: nat)
    requires Inv(p, lost) && p.phase == Scanning(w, i) && ExistsSlot(p, w, i) && p.workers[w].jobs[i].active
    ensures Inv(p.(phase := Scanning(w, i + 1)), lost)
  {
    hide WorkerInv, Fresh;
    var jobs := p.workers[w].jobs;
    var j :| i <= j < |jobs| && !jobs[j].active;
    assert i + 1 <= j;
  }

  lemma LookKeeps(p: Pool, lost: seq<nat>, cfg: Config, ring: seq<Slot>)
    requires Inv(p, lost) && Can(p, Look(cfg, ring))
    ensures Inv(Next(p, Look(cfg, ring)), LostAfter(p, lost, Look(cfg, ring)))
  {
    var w, i, p' := p.phase.w, p.phase.i, Next(p, Look(cfg, ring));
    var worker := p.workers[w];
    if worker.jobs[i].active {
      hide Inv;
      PassOver(p, lost, w, i);
    } else {
      assert WorkerInv(worker, true, lost[w]) && JobInv(worker.jobs[i]);
      hide InitialSession;
      JobReplaced(worker, true, lost[w], i, p'.workers[w].jobs[i], p'.workers[w], true, lost[w]);
      OneWorker(p, lost, p', lost, w);
    }
  }

  lemma ActivateKeeps(p: Pool, lost: seq<nat>)
    requires Inv(p, lost) && Can(p, Activate)
    ensures Inv(Next(p, Activate), LostAfter(p, lost, Activate))
  {
    var w, i, p' := p.phase.w, p.phase.i, Next(p, Activate);
    assert WorkerInv(p.workers[w], true, lost[w]) && JobInv(p.workers[w].jobs[i]);
    JobReplaced(p.workers[w], true, lost[w], i, p'.workers[w].jobs[i], p'.workers[w], false, lost[w]);
    OneWorker(p, lost, p', lost, w);
  }

  lemma LaunchKeeps(p: Pool, lost: seq<nat>, ok: bool)
    requires Inv(p, lost) && Can(p, Launch(ok))
    ensures Inv(Next(p, Launch(ok)), LostAfter(p, lost, Launch(ok)))
  {
    var w, i, p' := p.phase.w, p.phase.i, Next(p, Launch(ok));
    assert WorkerInv(p.workers[w], false, lost[w]) && JobInv(p.workers[w].jobs[i]);
    var lost' := LostAfter(p, lost, Launch(ok));
    JobReplaced(p.workers[w], false, lost[w], i, p'.workers[w].jobs[i], p'.workers[w], false, lost'[w]);
    OneWorker(p, lost, p', lost', w);
  }

  /** Abandoning a round leaves the slot free but does not return its credit. */
  lemma AbandonKeeps(p: Pool, lost: seq<nat>)
    requires Inv(p, lost) && Can(p, Abandon)
    ensures Inv(Next(p, Abandon), LostAfter(p, lost, Abandon))
    ensures Next(p, Abandon).workers == p.workers
  {
    hide JobInv, Free;
    var w := p.phase.w;
    assert WorkerInv(p.workers[w], true, lost[w]);
    OneWorker(p, lost, Next(p, Abandon), LostAfter(p, lost, Abandon), w);
  }

  // ------------------------------------------------------------ worker steps

  /** A slot that receives a completion or its start event is active. */
  lemma DeliveredIsActive(p: Pool, lost: seq<nat>, w: nat, i: nat, e: Event)
    requires Inv(p, lost) && Can(p, Deliver(w, i, e))
    ensures p.workers[w].jobs[i].active
    ensures p.phase.Chosen? || p.phase.Starting? ==> !(p.phase.w == w && p.phase.i == i)
  {
    assert WorkerInv(p.workers[w], Holds(p.phase, w), lost[w]) && JobInv(p.workers[w].jobs[i]);
    if !e.Start? {
      assert |Completed(e)| == 1;
    }
    hide Enabled, Free;
  }

  /** A session that is not the last to hear of its operations keeps its slot;
      one that closes leaves nothing behind. */
  lemma HandledJob(job: Job, e: Event)
    requires JobInv(job) && job.active && Enabled(job.c, e) && (e.Start? ==> job.queued)
    requires |HandleEvent(job.c, e).io.outstanding| <= 255
    ensures var c := HandleEvent(job.c, e);
            JobInv(job.(c := c, queued := job.queued && !e.Start?, active := !ReportsClosed(c)))
  {
    hide HandleEvent, ValidSession, JobsCounted, ReportsClosed;
    HandleEventKeeps(job.c, e);
    ClosedIff(HandleEvent(job.c, e));
    if !e.Start? {
      assert |Completed(e)| == 1;
    }
  }

  /** What a worker does to an active slot does not disturb the accept thread. */
  lemma PhaseUndisturbed(p: Pool, p': Pool, w: nat, i: nat)
    requires PhaseInv(p) && ExistsSlot(p, w, i) && p.workers[w].jobs[i].active && p'.phase == p.phase
    requires p.phase.Chosen? || p.phase.Starting? ==> !(p.phase.w == w && p.phase.i == i)
    requires |p'.workers| == |p.workers|
    requires forall v :: 0 <= v < |p.workers| && v != w ==> p'.workers[v] == p.workers[v]
    requires |p'.workers[w].jobs| == |p.workers[w].jobs|
    requires forall j :: 0 <= j < |p.workers[w].jobs| && j != i ==> p'.workers[w].jobs[j] == p.workers[w].jobs[j]
    ensures PhaseInv(p')
  {
    hide Fresh;
    if p.phase.Scanning? {
      var j :| p.phase.i <= j < |p.workers[p.phase.w].jobs| && !p.workers[p.phase.w].jobs[j].active;
      assert !p'.workers[p.phase.w].jobs[j].active;
    }
  }

  lemma DeliverKeeps(p: Pool, lost: seq<nat>, w: nat, i: nat, e: Event)
    requires Inv(p, lost) && Can(p, Deliver(w, i, e)) && Moderate(Next(p, Deliver(w, i, e)))
    ensures Inv(Next(p, Deliver(w, i, e)), LostAfter(p, lost, Deliver(w, i, e)))
  {
    hide Free, HandleEvent, Enabled, ReportsClosed;
    var p', worker := Next(p, Deliver(w, i, e)), p.workers[w];
    DeliveredIsActive(p, lost, w, i, e);
    assert WorkerInv(worker, Holds(p.phase, w), lost[w]) && JobInv(worker.jobs[i]);
    var job' := p'.workers[w].jobs[i];
    assert |job'.c.io.outstanding| <= 255;
    HandledJob(worker.jobs[i], e);
    JobReplaced(worker, Holds(p.phase, w), lost[w], i, job', p'.workers[w], Holds(p.phase, w), lost[w]);
    PhaseUndisturbed(p, p', w, i);
    OneWorker(p, lost, p', lost, w);
  }

  lemma PostKeeps(p: Pool, lost: seq<nat>, w: nat)
    requires Inv(p, lost) && Can(p, Post(w))
    ensures Inv(Next(p, Post(w)), LostAfter(p, lost, Post(w)))
  {
    hide JobInv, Free;
    assert WorkerInv(p.workers[w], Holds(p.phase, w), lost[w]);
    OneWorker(p, lost, Next(p, Post(w)), lost, w);
  }

  lemma CompletesOne(e: Event)
    ensures !e.Start? ==> |Completed(e)| == 1
  {
  }

  /** No completion of an earlier session is outstanding. */
  lemma NothingStale(p: Pool, lost: seq<nat>, w: nat, i: nat, e: Event)
    requires Inv(p, lost)
    ensures !Can(p, DeliverStale(w, i, e))
  {
    CompletesOne(e);
    if ExistsSlot(p, w, i) {
      assert WorkerInv(p.workers[w], Holds(p.phase, w), lost[w]) && JobInv(p.workers[w].jobs[i]);
    }
    hide Free, ValidSession, Deliverable;
  }

  lemma StepKeeps(p: Pool, lost: seq<nat>, t: Step)
    requires Inv(p, lost) && Can(p, t) && Moderate(Next(p, t))
    ensures Inv(Next(p, t), LostAfter(p, lost, t))
  {
    match t
    case Choose(w) =>
      hide WorkerInv;
    case Take => TakeKeeps(p, lost);
    case Look(cfg, ring) => LookKeeps(p, lost, cfg, ring);
    case Abandon => AbandonKeeps(p, lost);
    case Activate => ActivateKeeps(p, lost);
    case Launch(ok) => LaunchKeeps(p, lost, ok);
    case Deliver(w, i, e) => DeliverKeeps(p, lost, w, i, e);
    case DeliverStale(w, i, e) => NothingStale(p, lost, w, i, e);
    case Post(w) => PostKeeps(p, lost, w);
  }

  lemma {:induction false} RunKeeps(p: Pool, run: seq<Step>)
    requires InitialPool(p) && ValidRun(p, run) && AlwaysModerate(p, run)
    ensures Inv(Exec(p, run), LostCredits(p, run))
  {
    hide Inv, InitialPool, Can, Next, Moderate, LostAfter;
    if run == [] {
      InitialInv(p);
    } else {
      RunKeeps(p, run[..|run| - 1]);
      StepKeeps(Exec(p, run[..|run| - 1]), LostCredits(p, run[..|run| - 1]), run[|run| - 1]);
    }
  }

  // ------------------------------------------------------------- guarantees

  /** Over every interleaving each free slot of a worker is matched by one
      credit, in the semaphore, in the hands of the accept thread, in a post
      under way, or lost. So the scan never runs past the last slot, and the
      slot it finds is free. */
  lemma CreditsBalance(p: Pool, run: seq<Step>)
    requires InitialPool(p) && ValidRun(p, run) && AlwaysModerate(p, run)
    ensures var q, lost := Exec(p, run), LostCredits(p, run);
            && |lost| == |q.workers|
            && (forall w :: 0 <= w < |q.workers| ==> Credits(q.workers[w], Holds(q.phase, w), lost[w]))
            && (q.phase.Scanning? ==> ExistsSlot(q, q.phase.w, q.phase.i))
            && (q.phase.Chosen? ==> ExistsSlot(q, q.phase.w, q.phase.i)
                                    && !q.workers[q.phase.w].jobs[q.phase.i].active)
  {
    hide Exec, ValidRun, InitialPool, Free, LostCredits;
    RunKeeps(p, run);
    var q, lost := Exec(p, run), LostCredits(p, run);
    forall w | 0 <= w < |q.workers| ensures Credits(q.workers[w], Holds(q.phase, w), lost[w]) {
      assert WorkerInv(q.workers[w], Holds(q.phase, w), lost[w]);
    }
  }

  /** Slots are reused safely: in every run a completion that is delivered was
      submitted by the session that now has the slot, and a slot that is not
      active has nothing outstanding. */
  lemma SlotReuseSafe(p: Pool, run: seq<Step>, w: nat, i: nat)
    requires InitialPool(p) && ValidRun(p, run) && AlwaysModerate(p, run)
    requires ExistsSlot(Exec(p, run), w, i)
    ensures var job := Exec(p, run).workers[w].jobs[i];
            && job.stale == multiset{}
            && (!job.active ==> job.c.io.outstanding == multiset{} && !job.queued)
            && (job.active ==> JobsCounted(job.c.io))
    ensures forall e :: !Can(Exec(p, run), DeliverStale(w, i, e))
  {
    RunKeeps(p, run);
    var q, lost := Exec(p, run), LostCredits(p, run);
    forall e ensures !Can(q, DeliverStale(w, i, e)) {
      NothingStale(q, lost, w, i, e);
    }
    assert WorkerInv(q.workers[w], Holds(q.phase, w), lost[w]) && JobInv(q.workers[w].jobs[i]);
    hide Exec, ValidRun, InitialPool, Free, Can;
  }

  /** A round that ends well leaves its slot active with the start event queued;
      one whose start event cannot be submitted leaves it free, without it. No
      other slot and no semaphore changes. */
  lemma RoundEnds(p: Pool, ok: bool)
    requires Can(p, Launch(ok))
    ensures var w, i, p' := p.phase.w, p.phase.i, Next(p, Launch(ok));
            var before, after := p.workers[w], p'.workers[w];
            && p'.phase == Idle && |p'.workers| == |p.workers|
            && after.available == before.available && after.posting == before.posting
            && |after.jobs| == |before.jobs|
            && (p.workers[w].jobs[i].active && !p.workers[w].jobs[i].queued ==>
                  after.jobs[i].active == ok && after.jobs[i].queued == ok)
            && (forall v :: 0 <= v < |p.workers| && v != w ==> p'.workers[v] == p.workers[v])
            && (forall j :: 0 <= j < |before.jobs| && j != i ==> after.jobs[j] == before.jobs[j])
  {
  }

  /** A worker frees the slot of a session, and goes on to post its credit, if and
      only if the session reports CLOSED. */
  lemma SlotFreedIff(p: Pool, w: nat, i: nat, e: Event)
    requires Can(p, Deliver(w, i, e)) && p.workers[w].jobs[i].active
    ensures var job', worker' := Next(p, Deliver(w, i, e)).workers[w].jobs[i], Next(p, Deliver(w, i, e)).workers[w];
            && (!job'.active <==> ReportsClosed(HandleEvent(p.workers[w].jobs[i].c, e)))
            && (worker'.posting <==> !job'.active)
            && job'.c == HandleEvent(p.workers[w].jobs[i].c, e)
  {
    hide HandleEvent, ReportsClosed;
  }

  // ---------------------------------------------------------- load balancing

  /** `get_least_busy_worker`: the first worker with the most credits. With
      the credits covered by free slots no subtraction wraps. */
  method LeastBusyWorker(maxJobs: nat, available: seq<nat>) returns (least: nat)
    requires 1 <= |available| && forall w :: 0 <= w < |available| ==> available[w] <= maxJobs
    ensures least < |available|
    ensures forall w :: 0 <= w < |available| ==> available[w] <= available[least]
    ensures forall w :: 0 <= w < least ==> available[w] < available[least]
  {
    least := 0;
    var leastBusy := maxJobs + 1;    // SIZE_MAX
    var i := 0;
    while i < |available|
      invariant 0 <= i <= |available|
      invariant i == 0 ==> least == 0 && leastBusy == maxJobs + 1
      invariant i > 0 ==> least < i && leastBusy == maxJobs - available[least]
      invariant forall w :: 0 <= w < i ==> available[w] <= available[least]
      invariant forall w :: 0 <= w < least ==> available[w] < available[least]
      invariant i > 0 ==> leastBusy > 0
    {
      var busy := maxJobs - available[i];
      if busy == 0 {
        least := i;
        break;
      }
      if busy < leastBusy {
        least, leastBusy := i, busy;
      }
      i := i + 1;
    }
  }

  /** The part of `struct worker` the accept thread and the worker share. */
  class SharedWorker {
    const active: array<bool>
    var available: nat

    /** `worker_init`. */
    constructor (maxJobs: nat)
      ensures fresh(active) && active.Length == maxJobs && available == maxJobs
      ensures forall i :: 0 <= i < maxJobs ==> !active[i]
    {
      active := new bool[maxJobs](_ => false);
      available := maxJobs;
    }

    function FreeSlots(n: nat): (count: nat)
      requires n <= active.Length
      reads active
      ensures count > 0 ==> exists j :: 0 <= j < n && !active[j]
    {
      if n == 0 then 0 else FreeSlots(n - 1) + if active[n - 1] then 0 else 1
    }

    /** `worker_pool_get_job` once `sem_wait` has succeeded: the scan ends at
        the first free slot, not at `unreachable()`. */
    method GetJob() returns (i: nat)
      requires 0 < available <= FreeSlots(active.Length)
      modifies this`available
      ensures available == old(available) - 1
      ensures i < active.Length && !active[i]
      ensures forall j :: 0 <= j < i ==> active[j]
    {
      available := available - 1;
      i := 0;
      while active[i]
        invariant i < active.Length
        invariant forall j :: 0 <= j < i ==> active[j]
        decreases active.Length - i
      {
        i := i + 1;
      }
    }

    /** `worker_pool_start_job`; `submitted` is the dispatcher's answer. */
    method StartJob(i: nat, submitted: bool) returns (ok: bool)
      requires i < active.Length && !active[i]
      modifies active
      ensures ok == submitted
      ensures active[..] == old(active[..])[i := submitted]
    {
      active[i] := true;
      if !submitted {
        active[i] := false;
        return false;
      }
      return true;
    }

    /** `worker_routine`, when the session of slot `i` has terminated. */
    method Release(i: nat)
      requires i < active.Length
      modifies this`available, active
      ensures available == old(available) + 1
      ensures active[..] == old(active[..])[i := false]
    {
      active[i] := false;
      available := available + 1;
    }
  }
}
