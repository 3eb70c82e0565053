/**
 What one error-free pass of an ingress instance leaves behind while every other instance, and every
 older request of its own, may interleave.
 */
module LeaderLeasePass {
  import opened Wrappers
  import opened LeaderLease

  /**
   Instance `i` is inside an error-free pass while `owner` owns the entry, which cannot expire before
   `deadline`.
   */
  ghost predicate Observing(w: World, i: Id, owner: Id, deadline: nat) {
    && i in w.procs && w.Owns(owner) && deadline <= w.Expiry(w.current.value)
    && var p := w.procs[i];
    && (p.pc.Idle? ==> Observed(w, i, owner))
    && (forall r :: r in w.requests && r.from == i && r.tag == p.tag ==> !p.pc.Idle? && r == RequestAt(p))
    && (forall r :: r in w.replies && r.to == i && Awaited(p, r) ==> Truthful(w, p, owner, r))
  }

  /** The leader state of `i` names `owner`, and `i` leads if that is itself. */
  ghost predicate Observed(w: World, i: Id, owner: Id)
    requires i in w.procs
  {
    var m := w.procs[i].memory;
    && m.leader.isLeader == (i == owner)
    && m.leader.leaderId == Some(owner)
    && (i != owner ==> m.lastRevision.None?)
  }

  ghost predicate Truthful(w: World, p: Process, owner: Id, r: Reply)
    requires Awaited(p, r)
  {
    && RequestAt(p) !in w.requests
    && (p.pc.AwaitUpdate? && r.write.Written? ==> p.record.ingressId == owner)
    && (p.pc.AwaitCreate? ==> r.write.WriteFailed?)
    && (p.pc.AwaitEntry? ==> r.entry.Entry? && r.entry.record.ingressId == owner)
  }

  /** Instance `i` neither starts another pass, nor restarts, nor sees an operation fail in `step`. */
  predicate ErrorFree(step: Step, i: Id) {
    step != Begin(i) && step != Restart(i) && step != Fail(i)
  }

  lemma ObservingServe(w: World, i: Id, owner: Id, deadline: nat, request: Request)
    requires Observing(w, i, owner, deadline) && request in w.requests
    requires StoreInv(w) && w.log[w.current.value].at <= w.now
    requires RequestInv(w.log, request) && ProcInv(w.log, i, w.procs[i])
    ensures Observing(Served(w, request), i, owner, deadline)
  {
  }

  lemma ObservingOther(w: World, i: Id, owner: Id, deadline: nat, j: Id, outcome: (Pc, Memory))
    requires Observing(w, i, owner, deadline) && j in w.procs && j != i
    requires ProcInv(w.log, j, w.procs[j]) && ProcInv(w.log, i, w.procs[i])
    ensures Observing(Advance(w, j, outcome), i, owner, deadline)
  {
    assert outcome.0.Idle? || RequestAt(Advance(w, j, outcome).procs[j]).from == j;
  }

  lemma ObservingReceive(w: World, i: Id, owner: Id, deadline: nat, reply: Reply)
    requires Observing(w, i, owner, deadline) && Enabled(w, Receive(reply)) && reply.to == i
    requires ProcInv(w.log, i, w.procs[i]) && TagInv(w.procs, w.requests, w.replies)
    ensures Observing(Apply(w, Receive(reply)), i, owner, deadline)
  {
    var p := w.procs[i];
    var w' := Apply(w, Receive(reply));
    var p' := w'.procs[i];
    assert Truthful(w, p, owner, reply);
    assert p'.pc.Idle? ==> p'.tag == p.tag;
    assert !p'.pc.Idle? ==> p'.tag == p.tag + 1;
    forall r | r in w'.replies && r.to == i ensures !Awaited(p', r) {
      assert r.tag <= p.tag;
    }
  }

  lemma ObservingReceiveOther(w: World, i: Id, owner: Id, deadline: nat, reply: Reply)
    requires Observing(w, i, owner, deadline) && Enabled(w, Receive(reply)) && reply.to != i
    requires ProcInv(w.log, reply.to, w.procs[reply.to]) && ProcInv(w.log, i, w.procs[i])
    ensures Observing(Apply(w, Receive(reply)), i, owner, deadline)
  {
    var w0 := w.(replies := w.replies - {reply});
    assert Observing(w0, i, owner, deadline);
    ObservingOther(w0, i, owner, deadline, reply.to, Outcome(w.procs[reply.to], reply));
  }

  /** Steps that send nothing, answer nothing and leave the entry alone. */
  lemma ObservingRest(w: World, i: Id, owner: Id, deadline: nat, step: Step)
    requires Observing(w, i, owner, deadline) && Enabled(w, step) && ErrorFree(step, i) && w.now < deadline
    requires step.Join? || step.Restart? || step.DropRequest? || step.DropReply? || step.Expire? || step.Tick?
    ensures Observing(Apply(w, step), i, owner, deadline)
  {
  }

  lemma ObservingStep(w: World, i: Id, owner: Id, deadline: nat, step: Step)
    requires Inv(w) && Observing(w, i, owner, deadline)
    requires Enabled(w, step) && ErrorFree(step, i) && w.now < deadline
    ensures Observing(Apply(w, step), i, owner, deadline)
  {
    assert ProcInv(w.log, i, w.procs[i]);
    match step
    case Serve(request) =>
      assert RequestInv(w.log, request);
      ObservingServe(w, i, owner, deadline, request);
    case Receive(reply) =>
      if reply.to == i {
        ObservingReceive(w, i, owner, deadline, reply);
      } else {
        assert ProcInv(w.log, reply.to, w.procs[reply.to]);
        ObservingReceiveOther(w, i, owner, deadline, reply);
      }
    case Begin(j) =>
      assert ProcInv(w.log, j, w.procs[j]);
      ObservingOther(w, i, owner, deadline, j, (BeginPass(w.procs[j].memory), w.procs[j].memory));
    case Fail(j) =>
      assert ProcInv(w.log, j, w.procs[j]);
      ObservingOther(w, i, owner, deadline, j, FailedOutcome(w.procs[j]));
    case _ => ObservingRest(w, i, owner, deadline, step);
  }

  lemma {:induction false} NowGrows(w: World, steps: seq<Step>)
    requires Legal(w, steps)
    ensures w.now <= Run(w, steps).now
    decreases |steps|
  {
    if steps != [] { NowGrows(Apply(w, steps[0]), steps[1..]); }
  }

  lemma {:induction false} ObservingRun(w: World, i: Id, owner: Id, deadline: nat, steps: seq<Step>)
    requires Inv(w) && Observing(w, i, owner, deadline) && Legal(w, steps) && Run(w, steps).now < deadline
    requires forall s :: s in steps ==> ErrorFree(s, i)
    ensures Observing(Run(w, steps), i, owner, deadline)
    decreases |steps|
  {
    if steps != [] {
      NowGrows(w, steps);
      StepInv(w, steps[0]);
      ObservingStep(w, i, owner, deadline, steps[0]);
      ObservingRun(Apply(w, steps[0]), i, owner, deadline, steps[1..]);
    }
  }

  lemma BeginObserving(w: World, i: Id, owner: Id)
    requires Inv(w) && Enabled(w, Begin(i)) && w.Owns(owner)
    ensures Observing(Apply(w, Begin(i)), i, owner, w.Expiry(w.current.value))
  {
    assert ProcInv(w.log, i, w.procs[i]);
  }

  // ----- The revision that an owner ends with -----

  predicate UpdateAtCurrent(w: World, i: Id, r: Request) {
    r.Update? && r.from == i && w.current == Some(r.revision)
  }

  /** Every update of `i` at the current revision is the one that `i` is waiting for. */
  ghost predicate NoOldUpdate(w: World, i: Id)
    requires i in w.procs
  {
    forall r :: r in w.requests && UpdateAtCurrent(w, i, r) ==> r.tag == w.procs[i].tag && !w.procs[i].pc.Idle?
  }

  /** What `i` remembers, or is about to be told, is the current revision. */
  ghost predicate Current(w: World, i: Id)
    requires i in w.procs
  {
    var p := w.procs[i];
    && (p.pc.Idle? ==> p.memory.lastRevision == w.current)
    && (forall r :: r in w.replies && r.to == i && Awaited(p, r) ==> CurrentReply(w.current, r))
  }

  predicate CurrentReply(current: Option<nat>, r: Reply) {
    match r
    case WriteAnswer(_, _, write) => write.Written? ==> Some(write.revision) == current
    case EntryAnswer(_, _, entry) => entry.Entry? ==> Some(entry.revision) == current
  }

  /** The update that `i` is waiting for is in flight at the current revision. */
  ghost predicate Renewing(w: World, i: Id)
    requires i in w.procs
  {
    var p := w.procs[i];
    p.pc.AwaitUpdate? && RequestAt(p) in w.requests && w.current == Some(p.pc.revision)
  }

  /** The request or the answer that `i` is waiting for is lost. */
  ghost predicate Stuck(w: World, i: Id)
    requires i in w.procs
  {
    var p := w.procs[i];
    !p.pc.Idle? && RequestAt(p) !in w.requests && forall r :: r in w.replies && r.to == i ==> !Awaited(p, r)
  }

  /** The pass of `i`, if it ends, ends at the current revision. */
  ghost predicate Settled(w: World, i: Id) {
    i in w.procs && ((NoOldUpdate(w, i) && Current(w, i)) || Renewing(w, i) || Stuck(w, i))
  }

  /** Once an update is applied, every update still in flight is at an older revision. */
  lemma AppliedUpdateIsLast(w: World, request: Request, r: Request)
    requires request.Update? && request in w.requests && w.current == Some(request.revision)
    requires r in w.requests && RequestInv(w.log, r)
    ensures r.Update? ==> Served(w, request).current != Some(r.revision)
  {
  }

  lemma SettledApply(w: World, i: Id, deadline: nat, request: Request)
    requires Inv(w) && Observing(w, i, i, deadline) && Settled(w, i)
    requires request in w.requests && UpdateAtCurrent(w, i, request)
    ensures Settled(Served(w, request), i)
  {
    var w' := Served(w, request);
    forall r | r in w'.requests ensures !UpdateAtCurrent(w', i, r) {
      assert RequestInv(w.log, r);
      AppliedUpdateIsLast(w, request, r);
    }
    assert ProcInv(w.log, i, w.procs[i]);
  }

  lemma SettledServe(w: World, i: Id, deadline: nat, request: Request)
    requires Inv(w) && Observing(w, i, i, deadline) && Settled(w, i)
    requires request in w.requests && !UpdateAtCurrent(w, i, request)
    ensures Settled(Served(w, request), i)
  {
    assert RequestInv(w.log, request) && ProcInv(w.log, i, w.procs[i]);
    assert Served(w, request).current == w.current && Served(w, request).log == w.log;
  }

  lemma SettledReceive(w: World, i: Id, deadline: nat, reply: Reply)
    requires Inv(w) && Observing(w, i, i, deadline) && Settled(w, i)
    requires Enabled(w, Receive(reply)) && reply.to == i
    ensures Settled(Apply(w, Receive(reply)), i)
  {
    var p := w.procs[i];
    assert ProcInv(w.log, i, p) && Truthful(w, p, i, reply);
    var w' := Apply(w, Receive(reply));
    var p' := w'.procs[i];
    assert NoOldUpdate(w, i) && CurrentReply(w.current, reply);
    assert forall r :: r in w.requests ==> !UpdateAtCurrent(w, i, r);
    forall r | r in w'.replies && r.to == i && Awaited(p', r) ensures CurrentReply(w'.current, r) {
      assert r.tag <= p.tag;
    }
  }

  lemma SettledOther(w: World, i: Id, j: Id, outcome: (Pc, Memory))
    requires Settled(w, i) && j in w.procs && j != i
    requires ProcInv(w.log, j, w.procs[j]) && ProcInv(w.log, i, w.procs[i])
    ensures Settled(Advance(w, j, outcome), i)
  {
    assert outcome.0.Idle? || RequestAt(Advance(w, j, outcome).procs[j]).from == j;
  }

  lemma SettledReceiveOther(w: World, i: Id, reply: Reply)
    requires Settled(w, i) && Enabled(w, Receive(reply)) && reply.to != i
    requires ProcInv(w.log, reply.to, w.procs[reply.to]) && ProcInv(w.log, i, w.procs[i])
    ensures Settled(Apply(w, Receive(reply)), i)
  {
    var w0 := w.(replies := w.replies - {reply});
    assert Settled(w0, i);
    SettledOther(w0, i, reply.to, Outcome(w.procs[reply.to], reply));
  }

  lemma SettledRest(w: World, i: Id, deadline: nat, step: Step)
    requires Observing(w, i, i, deadline) && Settled(w, i) && Enabled(w, step) && ErrorFree(step, i) && w.now < deadline
    requires step.Join? || step.Restart? || step.DropRequest? || step.DropReply? || step.Expire? || step.Tick?
    ensures Settled(Apply(w, step), i)
  {
  }

  lemma SettledStep(w: World, i: Id, deadline: nat, step: Step)
    requires Inv(w) && Observing(w, i, i, deadline) && Settled(w, i)
    requires Enabled(w, step) && ErrorFree(step, i) && w.now < deadline
    ensures Settled(Apply(w, step), i)
  {
    assert ProcInv(w.log, i, w.procs[i]);
    match step
    case Serve(request) =>
      if UpdateAtCurrent(w, i, request) {
        SettledApply(w, i, deadline, request);
      } else {
        SettledServe(w, i, deadline, request);
      }
    case Receive(reply) =>
      if reply.to == i {
        SettledReceive(w, i, deadline, reply);
      } else {
        assert ProcInv(w.log, reply.to, w.procs[reply.to]);
        SettledReceiveOther(w, i, reply);
      }
    case Begin(j) =>
      assert ProcInv(w.log, j, w.procs[j]);
      SettledOther(w, i, j, (BeginPass(w.procs[j].memory), w.procs[j].memory));
    case Fail(j) =>
      assert ProcInv(w.log, j, w.procs[j]);
      SettledOther(w, i, j, FailedOutcome(w.procs[j]));
    case _ => SettledRest(w, i, deadline, step);
  }

  lemma {:induction false} SettledRun(w: World, i: Id, deadline: nat, steps: seq<Step>)
    requires Inv(w) && Observing(w, i, i, deadline) && Settled(w, i)
    requires Legal(w, steps) && Run(w, steps).now < deadline
    requires forall s :: s in steps ==> ErrorFree(s, i)
    ensures Settled(Run(w, steps), i)
    decreases |steps|
  {
    if steps != [] {
      NowGrows(w, steps);
      StepInv(w, steps[0]);
      ObservingStep(w, i, i, deadline, steps[0]);
      SettledStep(w, i, deadline, steps[0]);
      SettledRun(Apply(w, steps[0]), i, deadline, steps[1..]);
    }
  }

  /** No update that `i` sent earlier can still renew the entry, or `i` is about to renew it first. */
  ghost predicate Unraced(w: World, i: Id)
    requires i in w.procs
  {
    w.procs[i].memory.lastRevision == w.current || forall r :: r in w.requests ==> !UpdateAtCurrent(w, i, r)
  }

  lemma BeginSettled(w: World, i: Id)
    requires Inv(w) && Enabled(w, Begin(i)) && w.Owns(i) && Unraced(w, i)
    ensures Settled(Apply(w, Begin(i)), i)
  {
    assert ProcInv(w.log, i, w.procs[i]);
  }

  /** `pass` is an error-free pass of `i` from `w` that ends before the present entry can expire. */
  ghost predicate WholePass(w: World, i: Id, pass: seq<Step>)
    requires Enabled(w, Begin(i)) && w.current.Some? && w.current.value < |w.log|
  {
    && Legal(Apply(w, Begin(i)), pass)
    && (forall s :: s in pass ==> ErrorFree(s, i))
    && var w' := Run(Apply(w, Begin(i)), pass);
    && w'.now < w.Expiry(w.current.value)
    && i in w'.procs && w'.procs[i].pc.Idle?
  }

  /**
   After any run, an error-free pass of `i` that ends before the present entry can expire leaves `i`
   with the truth: its leader state names the owner of the entry, and it leads if and only if that is
   itself.  This holds from whatever memory the pass starts: none after a restart, a stale revision
   after a renewal whose reply was lost, or a leader flag kept past its lease.  An owner also holds the
   store's current revision, unless an older update of its own raced the pass.  Every other instance may
   interleave freely.
   */
  lemma PassObservesOwner(ttl: nat, before: seq<Step>, i: Id, owner: Id, pass: seq<Step>)
    requires Legal(Init(ttl), before)
    requires var w := Run(Init(ttl), before); Enabled(w, Begin(i)) && w.Owns(owner) && WholePass(w, i, pass)
    ensures var w0 := Run(Init(ttl), before);
            var w := Run(Apply(w0, Begin(i)), pass);
            && w.Owns(owner)
            && (w.Leads(i) <==> i == owner)
            && w.procs[i].memory.leader.leaderId == Some(owner)
            && (i == owner && Unraced(w0, i) ==> w.procs[i].memory.lastRevision == w.current)
  {
    InitInv(ttl);
    RunInv(Init(ttl), before);
    var w := Run(Init(ttl), before);
    var deadline := w.Expiry(w.current.value);
    StepInv(w, Begin(i));
    BeginObserving(w, i, owner);
    ObservingRun(Apply(w, Begin(i)), i, owner, deadline, pass);
    if i == owner && Unraced(w, i) {
      BeginSettled(w, i);
      SettledRun(Apply(w, Begin(i)), i, deadline, pass);
    }
  }

  // ----- A pass that an older update races -----

  lemma RunOne(w: World, before: seq<Step>, step: Step)
    requires Legal(w, before) && Enabled(Run(w, before), step)
    ensures Legal(w, before + [step]) && Run(w, before + [step]) == Apply(Run(w, before), step)
  {
    var w' := Run(w, before);
    assert Legal(Apply(w', step), []) && Run(Apply(w', step), []) == Apply(w', step);
    Prepend(w', step, []);
    assert [step] + [] == [step];
    RunConcat(w, before, [step]);
  }

  /**
   The error-free steps `path` bring `i` to wait at `pc` under a fresh tag.  Its request and the older
   update `late` are in flight, and the entry is as it was in `start`.
   */
  ghost predicate Racing(start: World, i: Id, late: Request, path: seq<Step>, pc: Pc) {
    && Legal(start, path) && (forall s :: s in path ==> ErrorFree(s, i))
    && var w := Run(start, path);
    && w.log == start.log && w.current == start.current && w.now == start.now
    && i in w.procs && w.procs[i].pc == pc && w.procs[i].record.ingressId == i
    && !pc.Idle? && RequestAt(w.procs[i]) in w.requests && late in w.requests && late.tag < w.procs[i].tag
  }

  /** The answer to a request that finds the present entry in its way. */
  function Refused(w: World, i: Id): World
    requires i in w.procs && !w.procs[i].pc.Idle?
  {
    var request := RequestAt(w.procs[i]);
    w.(requests := w.requests - {request},
       replies := w.replies + {WriteAnswer(i, w.procs[i].tag, WriteFailed)})
  }

  /** The pass's update or create is served, fails, and the pass moves on. */
  lemma RacingWrite(start: World, i: Id, late: Request, path: seq<Step>, pc: Pc, next: Pc) returns (longer: seq<Step>)
    requires Racing(start, i, late, path, pc) && start.current.Some?
    requires (pc.AwaitUpdate? && Some(pc.revision) != start.current && next == AwaitCreate)
             || (pc.AwaitCreate? && next == AwaitEntry)
    ensures Racing(start, i, late, longer, next)
  {
    var w := Run(start, path);
    var p := w.procs[i];
    var serve, receive := Serve(RequestAt(p)), Receive(WriteAnswer(i, p.tag, WriteFailed));
    RunOne(start, path, serve);
    assert Apply(w, serve) == Refused(w, i);
    longer := path + [serve];
    RunOne(start, longer, receive);
    longer := longer + [receive];
  }

  /** The entry is read, the older update renews it, and only then does the answer of the read arrive. */
  lemma RacingRead(start: World, i: Id, late: Request, path: seq<Step>) returns (longer: seq<Step>)
    requires Racing(start, i, late, path, AwaitEntry) && start.Owns(i) && UpdateAtCurrent(start, i, late)
    ensures Legal(start, longer) && forall s :: s in longer ==> ErrorFree(s, i)
    ensures var w := Run(start, longer);
            && w.now == start.now && i in w.procs && w.procs[i].pc.Idle?
            && w.procs[i].memory.lastRevision == start.current && w.current == Some(|start.log|)
  {
    var w := Run(start, path);
    var p := w.procs[i];
    var revision := start.current.value;
    var answer := EntryAnswer(i, p.tag, Entry(w.log[revision].owner, revision));
    RunOne(start, path, Serve(RequestAt(p)));
    longer := path + [Serve(RequestAt(p))];
    assert answer in Run(start, longer).replies && late in Run(start, longer).requests;
    RunOne(start, longer, Serve(late));
    longer := longer + [Serve(late)];
    RunOne(start, longer, Receive(answer));
    longer := longer + [Receive(answer)];
  }

  lemma BeginRacing(w: World, i: Id, late: Request)
    requires Inv(w) && Enabled(w, Begin(i)) && late in w.requests && late.from == i
    ensures Racing(Apply(w, Begin(i)), i, late, [], BeginPass(w.procs[i].memory))
  {
    assert ProcInv(w.log, i, w.procs[i]);
  }

  /** An older update at the current revision, unless the pass itself starts there, can make it end behind. */
  lemma RacedPassEndsBehind(w: World, i: Id) returns (pass: seq<Step>)
    requires Inv(w) && Enabled(w, Begin(i)) && w.Owns(i) && w.now < w.Expiry(w.current.value) && !Unraced(w, i)
    ensures WholePass(w, i, pass)
    ensures var w' := Run(Apply(w, Begin(i)), pass); w'.procs[i].memory.lastRevision != w'.current
  {
    var late :| late in w.requests && UpdateAtCurrent(w, i, late);
    var start := Apply(w, Begin(i));
    BeginRacing(w, i, late);
    pass := [];
    if w.procs[i].memory.lastRevision.Some? {
      pass := RacingWrite(start, i, late, pass, BeginPass(w.procs[i].memory), AwaitCreate);
    }
    pass := RacingWrite(start, i, late, pass, AwaitCreate, AwaitEntry);
    pass := RacingRead(start, i, late, pass);
  }

  /** Every error-free pass of `i` that ends before the entry can expire ends at the current revision. */
  ghost predicate PassesEndCurrent(w: World, i: Id)
    requires Enabled(w, Begin(i)) && w.current.Some? && w.current.value < |w.log|
  {
    forall pass :: WholePass(w, i, pass) ==>
      var w' := Run(Apply(w, Begin(i)), pass); w'.procs[i].memory.lastRevision == w'.current
  }

  /**
   After any run, every error-free pass of the owner leaves it at the store's current revision if and only
   if none of its older updates is in flight at the current revision, or it starts from that revision itself.
   */
  lemma PassesEndCurrentIffUnraced(ttl: nat, before: seq<Step>, i: Id)
    requires Legal(Init(ttl), before)
    requires var w := Run(Init(ttl), before); Enabled(w, Begin(i)) && w.Owns(i) && w.now < w.Expiry(w.current.value)
    ensures var w := Run(Init(ttl), before); PassesEndCurrent(w, i) <==> Unraced(w, i)
  {
    InitInv(ttl);
    RunInv(Init(ttl), before);
    var w := Run(Init(ttl), before);
    if Unraced(w, i) {
      forall pass | WholePass(w, i, pass)
        ensures var w' := Run(Apply(w, Begin(i)), pass); w'.procs[i].memory.lastRevision == w'.current
      {
        PassObservesOwner(ttl, before, i, i, pass);
      }
    } else {
      var pass := RacedPassEndsBehind(w, i);
      assert WholePass(w, i, pass);
    }
  }
}
