/**
 When the accept thread waits for ever although slots are free: credits that
 were lost are never returned.
 */
module WorkerStarvation {
  import opened Session
  import opened WorkerPool
  import SR = SessionRuns

  predicate AllFree(worker: Worker)
  {
    forall i :: 0 <= i < |worker.jobs| ==> !worker.jobs[i].active
  }

  predicate IdleJob(job: Job)
  {
    && !job.active && !job.queued && job.stale == multiset{} && job.c.io.outstanding == multiset{}
  }

  /** The accept thread waits for worker `w`, which has no credit left and
      nothing to do. */
  predicate Starved(p: Pool, w: nat)
  {
    && p.phase == Waiting(w) && w < |p.workers|
    && p.workers[w].available == 0 && !p.workers[w].posting
    && forall i :: 0 <= i < |p.workers[w].jobs| ==> IdleJob(p.workers[w].jobs[i])
  }

  lemma IdleReceivesNothing(p: Pool, w: nat, i: nat, e: Event)
    requires ExistsSlot(p, w, i) && IdleJob(p.workers[w].jobs[i])
    ensures !Can(p, Deliver(w, i, e)) && !Can(p, DeliverStale(w, i, e))
  {
    CompletesOne(e);
  }

  /** No step of any thread takes a starved accept thread further. */
  lemma StarvedStays(p: Pool, w: nat, t: Step)
    requires Starved(p, w) && Can(p, t)
    ensures Starved(Next(p, t), w) && !t.Take?
  {
    hide Enabled, HandleEvent, IdleJob;
    match t
    case Deliver(v, i, e) =>
      if v == w {
        IdleReceivesNothing(p, w, i, e);
      }
    case DeliverStale(v, i, e) =>
      if v == w {
        IdleReceivesNothing(p, w, i, e);
      }
    case _ =>
  }

  lemma {:induction false} StarvedForever(p: Pool, run: seq<Step>, more: seq<Step>, w: nat)
    requires ValidRun(p, run) && ValidRun(p, run + more) && Starved(Exec(p, run), w)
    ensures Starved(Exec(p, run + more), w)
    ensures more != [] ==> !more[|more| - 1].Take?
    decreases |more|
  {
    hide Starved, Can, Next;
    if more == [] {
      assert run + more == run;
    } else {
      var before := run + more[..|more| - 1];
      assert (run + more)[..|run + more| - 1] == before;
      StarvedForever(p, run, more[..|more| - 1], w);
      StarvedStays(Exec(p, before), w, more[|more| - 1]);
    }
  }

  /** The run goes on with `more`, at the end of which the accept thread takes a credit. */
  predicate TakesLater(p: Pool, run: seq<Step>, more: seq<Step>)
    requires ValidRun(p, run)
  {
    ValidRun(p, run + more) && more != [] && more[|more| - 1].Take?
  }

  lemma OneStep(p: Pool, run: seq<Step>, t: Step)
    requires ValidRun(p, run) && Can(Exec(p, run), t)
    ensures ValidRun(p, run + [t]) && Exec(p, run + [t]) == Next(Exec(p, run), t)
  {
    assert (run + [t])[..|run + [t]| - 1] == run;
    hide Can, Next;
  }

  /** The thread that waits for a worker is starved exactly when the worker has
      lost as many credits as it has slots. */
  lemma StarvedIffAllLost(p: Pool, run: seq<Step>, w: nat)
    requires InitialPool(p) && ValidRun(p, run) && AlwaysModerate(p, run)
    requires Exec(p, run).phase == Waiting(w)
    ensures w < |Exec(p, run).workers| == |LostCredits(p, run)|
    ensures Starved(Exec(p, run), w) <==> LostCredits(p, run)[w] == |Exec(p, run).workers[w].jobs|
    ensures var worker := Exec(p, run).workers[w];
            AllFree(worker) && worker.available == 0 && !worker.posting ==> Starved(Exec(p, run), w)
  {
    hide Exec, ValidRun, LostCredits, Free;
    RunKeeps(p, run);
    var q, lost := Exec(p, run), LostCredits(p, run);
    assert WorkerInv(q.workers[w], false, lost[w]);
    FreeIsAll(q.workers[w].jobs);
    assert forall i :: 0 <= i < |q.workers[w].jobs| ==> JobInv(q.workers[w].jobs[i]);
  }

  lemma StarvedIsFree(p: Pool, w: nat)
    requires Starved(p, w)
    ensures AllFree(p.workers[w])
  {
  }

  lemma TakeAgain(p: Pool, run: seq<Step>, w: nat) returns (more: seq<Step>)
    requires ValidRun(p, run) && Exec(p, run).phase == Waiting(w) && w < |Exec(p, run).workers|
    requires Exec(p, run).workers[w].available > 0 || Exec(p, run).workers[w].posting
    ensures TakesLater(p, run, more)
  {
    hide Exec, ValidRun;
    var q := Exec(p, run);
    if q.workers[w].available > 0 {
      OneStep(p, run, Take);
      more := [Take];
    } else {
      OneStep(p, run, Post(w));
      OneStep(p, run + [Post(w)], Take);
      assert run + [Post(w)] + [Take] == run + [Post(w), Take];
      more := [Post(w), Take];
    }
  }

  /** All slots of the worker the accept thread waits for are free, and yet in
      no continuation whatever does it take a credit again, if and only if as
      many credits of the worker were lost, in rounds that were abandoned or
      could not submit their start event, as it has slots. */
  lemma StarvesIff(p: Pool, run: seq<Step>, w: nat)
    requires InitialPool(p) && ValidRun(p, run) && AlwaysModerate(p, run)
    requires Exec(p, run).phase == Waiting(w)
    ensures w < |Exec(p, run).workers| == |LostCredits(p, run)|
    ensures AllFree(Exec(p, run).workers[w]) && !(exists more :: TakesLater(p, run, more))
            <==> LostCredits(p, run)[w] == |Exec(p, run).workers[w].jobs|
  {
    hide Exec, ValidRun, LostCredits, IdleJob;
    StarvedIffAllLost(p, run, w);
    var q := Exec(p, run);
    if Starved(q, w) {
      StarvedIsFree(q, w);
      forall more | TakesLater(p, run, more) ensures false {
        StarvedForever(p, run, more, w);
      }
    } else if AllFree(q.workers[w]) {
      var more := TakeAgain(p, run, w);
      assert TakesLater(p, run, more);
    }
  }

  // ------------------------------------------------- a run that ends starved

  /** The worker that `get_least_busy_worker` returns when nobody interferes. */
  predicate IsLeastBusy(workers: seq<Worker>, w: nat)
  {
    && w < |workers|
    && (forall v :: 0 <= v < |workers| ==> workers[v].available <= workers[w].available)
    && (forall v :: 0 <= v < w ==> workers[v].available < workers[w].available)
  }

  predicate ChoosesLeastBusy(p: Pool, run: seq<Step>)
    requires ValidRun(p, run)
  {
    run == [] ||
    var before := run[..|run| - 1];
    && ChoosesLeastBusy(p, before)
    && (run[|run| - 1].Choose? ==> IsLeastBusy(Exec(p, before).workers, run[|run| - 1].w))
  }

  /** Credits of all workers together. */
  function Total(workers: seq<Worker>): (n: nat)
  {
    if workers == [] then 0 else Total(workers[..|workers| - 1]) + workers[|workers| - 1].available
  }

  lemma {:induction false} TotalAfter(workers: seq<Worker>, w: nat, worker: Worker)
    requires w < |workers|
    ensures Total(workers[w := worker]) == Total(workers) - workers[w].available + worker.available
    decreases |workers|
  {
    var last := |workers| - 1;
    if w < last {
      assert workers[w := worker][..last] == workers[..last][w := worker];
      TotalAfter(workers[..last], w, worker);
    } else {
      assert workers[w := worker][..last] == workers[..last];
    }
  }

  lemma {:induction false} SomeLeastBusy(workers: seq<Worker>) returns (w: nat)
    requires workers != []
    ensures w < |workers| && IsLeastBusy(workers, w)
    ensures Total(workers) > 0 ==> workers[w].available > 0
    decreases |workers|
  {
    var last := |workers| - 1;
    var before := workers[..last];
    assert Total(workers) == Total(before) + workers[last].available;
    if before == [] {
      w := last;
    } else {
      var u := SomeLeastBusy(before);
      assert before[u] == workers[u];
      hide Total;
      forall v | 0 <= v < last
        ensures workers[v].available <= workers[u].available
        ensures v < u ==> workers[v].available < workers[u].available
      {
        assert before[v] == workers[v];
      }
      w := if workers[u].available < workers[last].available then last else u;
    }
  }

  /** Choosing worker `w` now would starve the accept thread. */
  predicate StarvesNext(p: Pool, w: nat)
  {
    Can(p, Choose(w)) && Starved(Next(p, Choose(w)), w)
  }

  predicate IdleWorker(worker: Worker)
  {
    && worker.available <= |worker.jobs| && !worker.posting
    && forall i :: 0 <= i < |worker.jobs| ==> IdleJob(worker.jobs[i])
  }

  /** Between rounds, with every slot idle and `total` credits left. */
  predicate Drained(p: Pool, total: nat)
  {
    && p.phase.Idle? && Total(p.workers) == total
    && forall w :: 0 <= w < |p.workers| ==> IdleWorker(p.workers[w])
  }

  /** The worker after a round that took its first slot and abandoned it. */
  lemma AbandonedRound(p: Pool, total: nat, w: nat, cfg: Config, ring: seq<Slot>)
    requires Drained(p, total) && w < |p.workers| && p.workers[w].available > 0 && SR.ValidSetup(cfg, ring)
    ensures Can(p, Choose(w)) && Can(Next(p, Choose(w)), Take)
    ensures var q := Next(Next(p, Choose(w)), Take);
            && Can(q, Look(cfg, ring)) && Can(Next(q, Look(cfg, ring)), Abandon)
            && total > 0 && Drained(Next(Next(q, Look(cfg, ring)), Abandon), total - 1)
            && |Next(Next(q, Look(cfg, ring)), Abandon).workers| == |p.workers|
  {
    hide SR.ValidSetup, InitialSession, Total;
    var worker := p.workers[w];
    assert IdleWorker(worker) && IdleJob(worker.jobs[0]);
    var q := Next(Next(p, Choose(w)), Take);
    var r := Next(Next(q, Look(cfg, ring)), Abandon);
    var worker' := r.workers[w];
    assert IdleWorker(worker');
    assert r.workers == p.workers[w := worker'];
    TotalAfter(p.workers, w, worker');
    hide Next;
  }

  lemma Append(p: Pool, run: seq<Step>, t: Step) returns (run': seq<Step>)
    requires ValidRun(p, run) && ChoosesLeastBusy(p, run) && Can(Exec(p, run), t)
    requires t.Choose? ==> IsLeastBusy(Exec(p, run).workers, t.w)
    ensures run' == run + [t] && ValidRun(p, run') && ChoosesLeastBusy(p, run')
    ensures Exec(p, run') == Next(Exec(p, run), t)
  {
    hide Can, Next, IsLeastBusy;
    run' := run + [t];
    assert run'[..|run'| - 1] == run;
    OneStep(p, run, t);
  }

  lemma TotalOfDrained(p: Pool, total: nat)
    requires Drained(p, total)
    ensures Total(p.workers) == total
  {
  }

  lemma InitiallyDrained(p: Pool)
    requires InitialPool(p)
    ensures Drained(p, Total(p.workers))
  {
    forall w | 0 <= w < |p.workers| ensures IdleWorker(p.workers[w]) {
      assert InitialWorker(p.workers[w]);
    }
  }

  lemma {:induction false} NoCredits(workers: seq<Worker>, w: nat)
    requires Total(workers) == 0 && w < |workers|
    ensures workers[w].available == 0
    decreases |workers|
  {
    if w < |workers| - 1 {
      NoCredits(workers[..|workers| - 1], w);
    }
  }

  lemma DrainedStarves(p: Pool, w: nat)
    requires Drained(p, 0) && w < |p.workers|
    ensures StarvesNext(p, w)
  {
    NoCredits(p.workers, w);
    assert IdleWorker(p.workers[w]);
    hide Total;
  }

  lemma NoSteps(p: Pool)
    ensures ValidRun(p, []) && Exec(p, []) == p
  {
  }

  /** Rounds in which the accept thread takes a slot of the least busy worker
      and abandons it: after as many as there are credits, all slots of all
      workers are free, and whichever worker is chosen next starves the thread. */
  lemma {:induction false} AbandonedRoundsStarve(p: Pool, cfg: Config, ring: seq<Slot>, k: nat) returns (run: seq<Step>)
    requires InitialPool(p) && p.workers != [] && k <= Total(p.workers) && SR.ValidSetup(cfg, ring)
    ensures ValidRun(p, run) && ChoosesLeastBusy(p, run)
    ensures Drained(Exec(p, run), Total(p.workers) - k) && |Exec(p, run).workers| == |p.workers|
    ensures k == Total(p.workers) ==>
              forall w :: 0 <= w < |p.workers| ==> StarvesNext(Exec(p, run), w)
  {
    hide ValidRun, Exec, SR.ValidSetup, Can, Next, IsLeastBusy, Total, Drained, StarvesNext, InitialPool;
    if k == 0 {
      run := [];
      NoSteps(p);
      InitiallyDrained(p);
    } else {
      run := AbandonedRoundsStarve(p, cfg, ring, k - 1);
      var q := Exec(p, run);
      var w := SomeLeastBusy(q.workers);
      TotalOfDrained(q, Total(p.workers) - (k - 1));
      AbandonedRound(q, Total(p.workers) - (k - 1), w, cfg, ring);
      run := Append(p, run, Choose(w));
      run := Append(p, run, Take);
      run := Append(p, run, Look(cfg, ring));
      run := Append(p, run, Abandon);
    }
    if k == Total(p.workers) {
      forall w | 0 <= w < |p.workers| ensures StarvesNext(Exec(p, run), w) {
        DrainedStarves(Exec(p, run), w);
      }
    }
  }
}
