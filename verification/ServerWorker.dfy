/**
 The queue's own code, one await at a time, over shared rows that every other
 process may change between two awaits.  Each method is proved to be a disciplined
 run of the step machine, so everything proved there about runs holds of it.
 */
module ServerWorker {
  import opened Wrappers
  import opened TrustAnchor
  import opened Network
  import opened ServerQueue
  import opened ServerQueueTheorems

  /** The pipeline can get from `a` to `b`. */
  ghost predicate Reaches(a: State, b: State) {
    exists steps :: DisciplinedRun(a, steps) && Run(a, steps) == b
  }

  lemma ReachesSelf(a: State)
    ensures Reaches(a, a)
  {
    assert DisciplinedRun(a, []) && Run(a, []) == a;
  }

  lemma ReachesStep(a: State, b: State, step: Step)
    requires Reaches(a, b) && Disciplined(b, step)
    ensures Reaches(a, Do(b, step))
  {
    var steps :| DisciplinedRun(a, steps) && Run(a, steps) == b;
    RunSnoc(a, steps, step);
  }

  lemma ReachesKeepsInv(a: State, b: State)
    requires Inv(a) && Reaches(a, b)
    ensures Inv(b)
  {
    var steps :| DisciplinedRun(a, steps) && Run(a, steps) == b;
    RunKeepsInv(a, steps);
  }

  lemma {:induction false} SameRowsSameCount(jobs: seq<Job>, other: seq<Job>, e: nat)
    requires |jobs| == |other|
    requires forall j :: 0 <= j < |jobs| ==> jobs[j].call == other[j].call && jobs[j].entity == other[j].entity
    ensures CountSnapshotJobs(jobs, e) == CountSnapshotJobs(other, e)
  {
    if jobs != [] {
      var n := |jobs| - 1;
      SameRowsSameCount(jobs[..n], other[..n], e);
    }
  }

  /** What worker `self` can rely on while it is suspended. */
  ghost predicate Kept(a: State, b: State, self: nat, serial: bool) {
    && (self in a.workers ==> self in b.workers && b.workers[self] == a.workers[self])
    && |a.requests| <= |b.requests|
    && |a.jobs| <= |b.jobs|
    && (forall j :: 0 <= j < |a.jobs| ==> b.jobs[j].call == a.jobs[j].call && b.jobs[j].entity == a.jobs[j].entity)
    && (serial ==> |b.jobs| == |a.jobs| && b.creds == a.creds)
  }

  lemma OthersKeep(s: State, step: Step, self: nat, serial: bool)
    requires !(step.Worker? && step.w == self) && !(serial && step.Service?)
    ensures Kept(s, Do(s, step), self, serial)
  {
  }

  /** An ok answer is true of the chain. */
  lemma OkAnswerHasEffect(start: State, s: State, self: nat)
    requires Inv(start) && Reaches(start, s)
    requires self in s.workers && s.workers[self].ANSWERED? && s.workers[self].ok
    ensures s.workers[self].job < |s.jobs| && Effect(s.net.chain, s.jobs[s.workers[self].job].call)
  {
    ReachesKeepsInv(start, s);
    assert WorkerInv(s, s.workers[self]);
  }

  class AnchorQueue {
    var net: Net
    var jobs: seq<Job>
    var creds: map<nat, Credential>
    var used: set<Hash>
    var requests: seq<Request>
    var workers: map<nat, Pc>
    var clock: nat
    const maxAttempts: nat

    function View(): State
      reads this
    {
      State(net, jobs, creds, used, requests, workers, clock, maxAttempts)
    }

    constructor (maxAttempts: nat)
      ensures View() == Init(maxAttempts)
    {
      net, jobs, creds, used := Net(EMPTY, []), [], map[], {};
      requests, workers, clock := [], map[], 0;
      this.maxAttempts := maxAttempts;
    }

    /** Any number of steps of every process but worker `self`; with `serial`, of no credential operation either. */
    method Interleave(ghost start: State, self: nat, serial: bool)
      requires Reaches(start, View())
      modifies this
      ensures Reaches(start, View()) && Kept(old(View()), View(), self, serial)
    {
      var env: seq<Step> := *;
      for i := 0 to |env|
        invariant Reaches(start, View()) && Kept(old(View()), View(), self, serial)
      {
        if Disciplined(View(), env[i]) && !(env[i].Worker? && env[i].w == self) && !(serial && env[i].Service?) {
          Apply(start, env[i], self, serial);
        }
      }
    }

    method Apply(ghost start: State, step: Step, self: nat, serial: bool)
      requires Reaches(start, View()) && Disciplined(View(), step)
      requires !(step.Worker? && step.w == self) && !(serial && step.Service?)
      modifies this
      ensures Reaches(start, View()) && Kept(old(View()), View(), self, serial)
    {
      var next := Do(View(), step);
      ReachesStep(start, View(), step);
      OthersKeep(View(), step, self, serial);
      assert next.maxAttempts == maxAttempts;
      net, jobs, creds, used := next.net, next.jobs, next.creds, next.used;
      requests, workers, clock := next.requests, next.workers, next.clock;
    }

    /** One pass of worker `self` that does not crash; false exactly when no row was due. */
    method ProcessNext(self: nat) returns (busy: bool)
      requires Inv(View()) && self in workers && workers[self] == IDLE
      modifies this
      ensures Reaches(old(View()), View()) && self in workers && workers[self] == IDLE
      ensures busy <==> Oldest(old(jobs), old(clock), 0).Some?
      ensures !busy ==> View() == old(View())
    {
      ghost var start := View();
      ReachesSelf(start);
      OldestIsFirstDue(jobs, clock, 0);
      var first := Oldest(jobs, clock, 0);
      if first.None? { return false; }
      var id := first.value;
      var attempts := jobs[id].attempts;
      ReachesStep(start, View(), Worker(self, Find));
      workers := workers[self := FOUND(id, attempts)];
      Interleave(start, self, false);
      var claimed := Claim(start, self, id, attempts);
      if !claimed { return true; }
      Interleave(start, self, false);
      var ok := Call(start, self, id, attempts);
      Interleave(start, self, false);
      Settle(start, self, id, attempts, ok);
      return true;
    }

    /** updateMany where the id matches and the state is PENDING. */
    method Claim(ghost start: State, self: nat, id: nat, attempts: nat) returns (claimed: bool)
      requires Reaches(start, View()) && self in workers && workers[self] == FOUND(id, attempts) && id < |jobs|
      modifies this`jobs, this`workers
      ensures Reaches(start, View())
      ensures claimed == (old(jobs)[id].state == PENDING)
      ensures jobs == if claimed then old(jobs)[id := old(jobs)[id].(state := PROCESSING,
                                                                     attempts := old(jobs)[id].attempts + 1)]
                      else old(jobs)
      ensures workers == old(workers)[self := if claimed then CLAIMED(id, attempts) else IDLE]
    {
      ReachesStep(start, View(), Worker(self, WorkerAct.Claim));
      claimed := jobs[id].state == PENDING;
      if claimed {
        jobs := jobs[id := jobs[id].(state := PROCESSING, attempts := jobs[id].attempts + 1)];
        workers := workers[self := CLAIMED(id, attempts)];
      } else {
        workers := workers[self := IDLE];
      }
    }

    method Post(ghost start: State, self: nat, id: nat, attempts: nat) returns (mine: nat)
      requires Reaches(start, View())
      requires self in workers && workers[self] == CLAIMED(id, attempts) && id < |jobs|
      modifies this`requests, this`workers
      ensures Reaches(start, View())
      ensures mine == |old(requests)| && requests == old(requests) + [Request(jobs[id].call, id, RECEIVED)]
      ensures workers == old(workers)[self := CALLING(id, attempts, mine)]
    {
      ReachesStep(start, View(), Worker(self, WorkerAct.Call));
      mine := |requests|;
      requests := requests + [Request(jobs[id].call, id, RECEIVED)];
      workers := workers[self := CALLING(id, attempts, mine)];
    }

    /** Sends the request; an answer that has not come by the time the worker looks counts as an error. */
    method Call(ghost start: State, self: nat, id: nat, attempts: nat) returns (ok: bool)
      requires Inv(start) && Reaches(start, View())
      requires self in workers && workers[self] == CLAIMED(id, attempts) && id < |jobs|
      modifies this
      ensures Reaches(start, View())
      ensures self in workers && workers[self] == ANSWERED(id, attempts, ok) && id < |jobs|
      ensures ok ==> Effect(net.chain, jobs[id].call)
    {
      var mine := Post(start, self, id, attempts);
      Interleave(start, self, false);
      var answered := requests[mine].stage.REPLIED?;
      ok := answered && requests[mine].stage.ok;
      ReachesStep(start, View(), Worker(self, if answered then Receive else GiveUp));
      workers := workers[self := ANSWERED(id, attempts, ok)];
      if ok { OkAnswerHasEffect(start, View(), self); }
    }

    /** The success transaction; it may throw without effect. */
    method Confirm(ghost start: State, self: nat, id: nat, attempts: nat) returns (committed: bool)
      requires Reaches(start, View())
      requires self in workers && workers[self] == ANSWERED(id, attempts, true) && id < |jobs|
      modifies this`jobs, this`workers
      ensures Reaches(start, View())
      ensures workers == old(workers)[self := if committed then IDLE else ANSWERED(id, attempts, false)]
      ensures jobs == if committed then old(jobs)[id := old(jobs)[id].(state := CONFIRMED)] else old(jobs)
    {
      committed := *;
      ReachesStep(start, View(), Worker(self, if committed then Commit else CommitThrows));
      if committed { jobs := jobs[id := jobs[id].(state := CONFIRMED)]; }
      workers := workers[self := if committed then IDLE else ANSWERED(id, attempts, false)];
    }

    /** The failure transaction: back off, or give up after the last attempt. */
    method RecordFailure(ghost start: State, self: nat, id: nat, attempts: nat)
      requires Reaches(start, View())
      requires self in workers && workers[self] == ANSWERED(id, attempts, false) && id < |jobs|
      modifies this`jobs, this`workers
      ensures Reaches(start, View()) && workers == old(workers)[self := IDLE]
      ensures jobs == old(jobs)[id := old(jobs)[id].(state := if attempts + 1 >= maxAttempts then FAILED else PENDING,
                                                     availableAt := clock + Backoff(attempts + 1))]
    {
      ReachesStep(start, View(), Worker(self, Fail));
      var failed := attempts + 1 >= maxAttempts;
      var retryAt := clock + Backoff(attempts + 1);
      jobs := jobs[id := jobs[id].(state := if failed then FAILED else PENDING, availableAt := retryAt)];
      workers := workers[self := IDLE];
    }

    method Settle(ghost start: State, self: nat, id: nat, attempts: nat, answer: bool)
      requires Reaches(start, View())
      requires self in workers && workers[self] == ANSWERED(id, attempts, answer) && id < |jobs|
      modifies this
      ensures Reaches(start, View()) && self in workers && workers[self] == IDLE && id < |jobs|
      ensures jobs[id].state == CONFIRMED || jobs[id].state == if attempts + 1 >= maxAttempts then FAILED else PENDING
      ensures jobs[id].state == CONFIRMED ==> answer && net == old(net)
    {
      if answer {
        var committed := Confirm(start, self, id, attempts);
        if committed { return; }
        Interleave(start, self, false);
      }
      RecordFailure(start, self, id, attempts);
    }

    /** Counts, then enqueues; workers may move in between, other credential operations may not. */
    method AppendGroupMembershipSnapshot(entity: nat, payload: Payload, self: nat)
      requires Inv(View())
      modifies this
      ensures Reaches(old(View()), View())
      ensures entity in old(creds) && old(creds)[entity].kind == GROUP ==>
        && |jobs| == |old(jobs)| + 1
        && jobs[|old(jobs)|].call == SnapshotCall(old(creds)[entity], payload,
          |Enqueued(old(jobs), old(creds)[entity].idHash)| + 1)
    {
      ghost var start := View();
      ReachesSelf(start);
      if entity !in creds || creds[entity].kind != GROUP { return; }
      var sequence := CountSnapshotJobs(jobs, entity) + 1;
      EnqueuedIsCount(jobs, entity, creds[entity].idHash);
      Interleave(start, self, true);
      SameRowsSameCount(jobs, old(jobs), entity);
      ReachesStep(start, View(), Service(entity, AppendMembershipSnapshot(payload, sequence - 1)));
      jobs := jobs + [Job(SnapshotCall(creds[entity], payload, sequence), entity, PENDING, 0, clock)];
    }
  }
}
