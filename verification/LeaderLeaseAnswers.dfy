/**
 What an ingress instance makes of every answer, whom it names as leader, and that it can always acquire
 an absent lease and renew its own.
 */
module LeaderLeaseAnswers {
  import opened Wrappers
  import opened LeaderLease
  import opened LeaderLeasePass

  // ----- Answers -----

  /** Instance `i` has ended its pass and believes in a leader with this id and url, or in none. */
  ghost predicate Believes(w: World, i: Id, isLeader: bool, id: Option<Id>, url: Option<string>) {
    && i in w.procs && w.procs[i].pc.Idle? && (w.Leads(i) <==> isLeader)
    && w.procs[i].memory.leader.leaderId == id && w.procs[i].memory.leader.leaderUrl == url
  }

  /** The pass of `i` goes on: its next request is in flight and its belief is what it was. */
  ghost predicate GoesOn(w: World, w': World, i: Id, request: Request) {
    && i in w.procs && i in w'.procs && request in w'.requests && w'.procs[i].tag == request.tag == w.procs[i].tag + 1
    && w'.procs[i].memory.leader == w.procs[i].memory.leader && w'.procs[i].memory.lastRevision.None?
  }

  /** What an answer means to the instance that waits for it. */
  ghost predicate AnswerTaken(w: World, w': World, reply: Reply) {
    var i := reply.to;
    && i in w.procs && i in w'.procs
    && var p, m := w.procs[i], w'.procs[i].memory;
    match reply
    case WriteAnswer(_, _, Written(revision)) =>
      Believes(w', i, true, Some(i), Some(p.record.url)) && m.lastRevision == Some(revision)
    case WriteAnswer(_, _, WriteFailed) =>
      if p.pc.AwaitUpdate? then GoesOn(w, w', i, Create(i, p.tag + 1, p.record))
      else GoesOn(w, w', i, Read(i, p.tag + 1))
    case EntryAnswer(_, _, Entry(record, revision)) =>
      && Believes(w', i, record.ingressId == i, Some(record.ingressId), Some(record.url))
      && m.lastRevision == if record.ingressId == i then Some(revision) else None
    case EntryAnswer(_, _, NoEntry) =>
      Believes(w', i, false, None, None) && m.lastRevision.None?
    case EntryAnswer(_, _, EntryError) =>
      w'.procs[i] == p.(pc := Idle)
  }

  lemma AnswerTakenAt(w: World, reply: Reply)
    requires Inv(w) && Enabled(w, Receive(reply))
    ensures AnswerTaken(w, Apply(w, Receive(reply)), reply)
  {
    assert ProcInv(w.log, reply.to, w.procs[reply.to]);
  }

  /**
   In every run, a successful write makes the instance leader under its own name; a read entry makes it
   believe what the entry says; an absent entry makes it believe in no leader at all; and a failed write
   sends it on, from the update to a create and from the create to a read, with its belief kept.
   */
  lemma AnswersAreBelieved(ttl: nat, steps: seq<Step>, reply: Reply)
    requires Legal(Init(ttl), steps) && Enabled(Run(Init(ttl), steps), Receive(reply))
    ensures var w := Run(Init(ttl), steps); AnswerTaken(w, Apply(w, Receive(reply)), reply)
  {
    InitInv(ttl);
    RunInv(Init(ttl), steps);
    AnswerTakenAt(Run(Init(ttl), steps), reply);
  }

  /** In every run, an error in place of an answer is a failed write, or ends the pass with the belief kept. */
  lemma ErrorsKeepBelief(ttl: nat, steps: seq<Step>, i: Id)
    requires Legal(Init(ttl), steps) && Enabled(Run(Init(ttl), steps), Fail(i))
    ensures var w := Run(Init(ttl), steps);
            var p := w.procs[i];
            var w' := Apply(w, Fail(i));
            match p.pc
            case AwaitUpdate(_) => GoesOn(w, w', i, Create(i, p.tag + 1, p.record))
            case AwaitCreate => GoesOn(w, w', i, Read(i, p.tag + 1))
            case _ => i in w'.procs && w'.procs[i] == p.(pc := Idle)
  {
    InitInv(ttl);
    RunInv(Init(ttl), steps);
    var w := Run(Init(ttl), steps);
    assert ProcInv(w.log, i, w.procs[i]);
  }

  /** A pass begins with an update at the remembered revision, or without one with a create. */
  lemma PassBegins(ttl: nat, steps: seq<Step>, i: Id)
    requires Legal(Init(ttl), steps) && Enabled(Run(Init(ttl), steps), Begin(i))
    ensures var w := Run(Init(ttl), steps);
            var p, w' := w.procs[i], Apply(w, Begin(i));
            && i in w'.procs && w'.procs[i].memory == p.memory && w'.procs[i].tag == p.tag + 1
            && (if p.memory.lastRevision.Some?
                then Update(i, p.tag + 1, p.record, p.memory.lastRevision.value) else Create(i, p.tag + 1, p.record))
               in w'.requests
  {
    InitInv(ttl);
    RunInv(Init(ttl), steps);
    var w := Run(Init(ttl), steps);
    assert ProcInv(w.log, i, w.procs[i]);
  }

  /** The write gate refuses exactly the writes that reach a follower while high availability is on. */
  lemma GateRefuses(isGet: bool, haEnabled: bool, leader: LeaderState)
    ensures !GateOpen(isGet, haEnabled, leader) <==> !isGet && haEnabled && !leader.isLeader
  {
  }

  // ----- Names -----

  /** The record is the one of an instance that has joined. */
  ghost predicate Known(procs: map<Id, Process>, record: LeaseRecord) {
    record.ingressId in procs && procs[record.ingressId].record == record
  }

  /** A named leader has joined and is named with its own url; a leader names itself. */
  ghost predicate NamesTruly(procs: map<Id, Process>, i: Id, leader: LeaderState) {
    && (leader.leaderId.None? ==> leader.leaderUrl.None? && !leader.isLeader)
    && (leader.leaderId.Some? ==>
          leader.leaderUrl.Some? && Known(procs, LeaseRecord(leader.leaderId.value, leader.leaderUrl.value)))
    && (leader.isLeader ==> leader.leaderId == Some(i))
  }

  ghost predicate NamesInv(w: World) {
    && (forall k :: 0 <= k < |w.log| ==> Known(w.procs, w.log[k].owner))
    && (forall r :: r in w.requests && !r.Read? ==> Known(w.procs, r.record))
    && (forall r :: r in w.replies && r.EntryAnswer? && r.entry.Entry? ==> Known(w.procs, r.entry.record))
    && (forall i :: i in w.procs ==> NamesTruly(w.procs, i, w.procs[i].memory.leader))
  }

  lemma NamesAdvance(w: World, i: Id, outcome: (Pc, Memory))
    requires NamesInv(w) && i in w.procs && w.procs[i].record.ingressId == i
    requires NamesTruly(w.procs, i, outcome.1.leader)
    ensures NamesInv(Advance(w, i, outcome))
  {
    var w' := Advance(w, i, outcome);
    assert w'.procs.Keys == w.procs.Keys && forall j :: j in w.procs ==> w'.procs[j].record == w.procs[j].record;
    assert outcome.0.Idle? || RequestAt(w'.procs[i]).Read? || RequestAt(w'.procs[i]).record == w.procs[i].record;
  }

  lemma NamesServe(w: World, request: Request)
    requires Inv(w) && NamesInv(w) && request in w.requests
    ensures NamesInv(Served(w, request))
  {
  }

  lemma NamesReceive(w: World, reply: Reply)
    requires Inv(w) && NamesInv(w) && Enabled(w, Receive(reply))
    ensures NamesInv(Apply(w, Receive(reply)))
  {
    var p := w.procs[reply.to];
    assert ProcInv(w.log, reply.to, p) && NamesTruly(w.procs, reply.to, p.memory.leader);
    NamesAdvance(w.(replies := w.replies - {reply}), reply.to, Outcome(p, reply));
  }

  lemma NamesJoin(w: World, i: Id, url: string)
    requires NamesInv(w) && i !in w.procs
    ensures NamesInv(Apply(w, Join(i, url)))
  {
    var w' := Apply(w, Join(i, url));
    assert forall record :: Known(w.procs, record) ==> Known(w'.procs, record);
    forall j | j in w'.procs ensures NamesTruly(w'.procs, j, w'.procs[j].memory.leader) {
      assert j != i ==> NamesTruly(w.procs, j, w.procs[j].memory.leader);
    }
  }

  lemma NamesRestart(w: World, i: Id)
    requires NamesInv(w) && i in w.procs
    ensures NamesInv(Apply(w, Restart(i)))
  {
    var w' := Apply(w, Restart(i));
    assert forall record :: Known(w.procs, record) ==> Known(w'.procs, record);
    forall j | j in w'.procs ensures NamesTruly(w'.procs, j, w'.procs[j].memory.leader) {
      assert j != i ==> NamesTruly(w.procs, j, w.procs[j].memory.leader);
    }
  }

  lemma NamesStep(w: World, step: Step)
    requires Inv(w) && NamesInv(w) && Enabled(w, step)
    ensures NamesInv(Apply(w, step))
  {
    match step
    case Join(i, url) => NamesJoin(w, i, url);
    case Restart(i) => NamesRestart(w, i);
    case Begin(i) =>
      assert ProcInv(w.log, i, w.procs[i]);
      NamesAdvance(w, i, (BeginPass(w.procs[i].memory), w.procs[i].memory));
    case Fail(i) =>
      assert ProcInv(w.log, i, w.procs[i]);
      NamesAdvance(w, i, FailedOutcome(w.procs[i]));
    case Serve(request) => NamesServe(w, request);
    case Receive(reply) => NamesReceive(w, reply);
    case _ =>
  }

  lemma {:induction false} NamesRun(w: World, steps: seq<Step>)
    requires Inv(w) && NamesInv(w) && Legal(w, steps)
    ensures NamesInv(Run(w, steps))
    decreases |steps|
  {
    if steps != [] {
      StepInv(w, steps[0]);
      NamesStep(w, steps[0]);
      NamesRun(Apply(w, steps[0]), steps[1..]);
    }
  }

  /** In every run, whoever an instance names as leader is named with the url it joined with. */
  lemma LeadersAreNamedTruly(ttl: nat, steps: seq<Step>, i: Id)
    requires Legal(Init(ttl), steps) && i in Run(Init(ttl), steps).procs
    ensures var w := Run(Init(ttl), steps);
            var leader := w.procs[i].memory.leader;
            && (leader.leaderId.None? ==> leader.leaderUrl.None? && !leader.isLeader)
            && (leader.leaderId.Some? ==> leader.leaderId.value in w.procs
                                          && leader.leaderUrl == Some(w.procs[leader.leaderId.value].record.url))
            && (leader.isLeader ==> leader.leaderId == Some(i))
  {
    InitInv(ttl);
    NamesRun(Init(ttl), steps);
  }

  /** After a pass as in PassObservesOwner, the owner is named with the url of its entry. */
  lemma PassNamesUrl(ttl: nat, before: seq<Step>, i: Id, owner: Id, pass: seq<Step>)
    requires Legal(Init(ttl), before)
    requires var w := Run(Init(ttl), before); Enabled(w, Begin(i)) && w.Owns(owner) && WholePass(w, i, pass)
    ensures var w := Run(Apply(Run(Init(ttl), before), Begin(i)), pass);
            && w.Owns(owner)
            && w.procs[i].memory.leader.leaderId == Some(owner)
            && w.procs[i].memory.leader.leaderUrl == Some(w.log[w.current.value].owner.url)
  {
    PassObservesOwner(ttl, before, i, owner, pass);
    InitInv(ttl);
    RunInv(Init(ttl), before);
    NamesRun(Init(ttl), before);
    var w := Run(Init(ttl), before);
    StepInv(w, Begin(i));
    NamesStep(w, Begin(i));
    NamesRun(Apply(w, Begin(i)), pass);
    var w' := Run(Apply(w, Begin(i)), pass);
    assert NamesTruly(w'.procs, i, w'.procs[i].memory.leader);
    assert Known(w'.procs, w'.log[w'.current.value].owner);
  }

  // ----- Acquiring and renewing -----

  /** The error-free steps `path` bring `i` to wait at `pc`, its request in flight, the store as it was. */
  ghost predicate Waiting(start: World, i: Id, path: seq<Step>, pc: Pc) {
    && Legal(start, path) && (forall s :: s in path ==> ErrorFree(s, i))
    && var w := Run(start, path);
    && w.log == start.log && w.current == start.current && w.now == start.now && w.ttl == start.ttl
    && i in w.procs && w.procs[i].pc == pc && w.procs[i].record.ingressId == i
    && !pc.Idle? && RequestAt(w.procs[i]) in w.requests
  }

  lemma BeginWaiting(w: World, i: Id)
    requires Inv(w) && Enabled(w, Begin(i))
    ensures Waiting(Apply(w, Begin(i)), i, [], BeginPass(w.procs[i].memory))
  {
    assert ProcInv(w.log, i, w.procs[i]);
  }

  /** An update at another revision than the current one is refused. */
  lemma UpdateRefused(start: World, i: Id, path: seq<Step>, pc: Pc) returns (longer: seq<Step>)
    requires Waiting(start, i, path, pc) && pc.AwaitUpdate? && Some(pc.revision) != start.current
    ensures Waiting(start, i, longer, AwaitCreate)
  {
    var w := Run(start, path);
    var p := w.procs[i];
    var serve, receive := Serve(RequestAt(p)), Receive(WriteAnswer(i, p.tag, WriteFailed));
    RunOne(start, path, serve);
    assert Apply(w, serve) == Refused(w, i);
    longer := path + [serve];
    RunOne(start, longer, receive);
    longer := longer + [receive];
  }

  /** The entry is the instance's own, written now, and it leads on it. */
  ghost predicate HoldsFresh(start: World, w: World, i: Id) {
    && w.now == start.now && w.ttl == start.ttl && w.Owns(i) && w.Leads(i) && w.procs[i].pc.Idle?
    && w.current == Some(|start.log|) && w.procs[i].memory.lastRevision == w.current
    && w.Expiry(w.current.value) == start.now + start.ttl
  }

  /** A write that meets what it asks for is applied and answered. */
  lemma WriteApplied(start: World, i: Id, path: seq<Step>, pc: Pc) returns (longer: seq<Step>)
    requires Waiting(start, i, path, pc)
    requires (pc.AwaitCreate? && start.current.None?) || (pc.AwaitUpdate? && Some(pc.revision) == start.current)
    ensures Legal(start, longer) && (forall s :: s in longer ==> ErrorFree(s, i))
    ensures HoldsFresh(start, Run(start, longer), i)
  {
    var w := Run(start, path);
    var p := w.procs[i];
    var serve, receive := Serve(RequestAt(p)), Receive(WriteAnswer(i, p.tag, Written(|start.log|)));
    RunOne(start, path, serve);
    longer := path + [serve];
    var w1 := Run(start, longer);
    assert receive.reply in w1.replies && w1.log == start.log + [Write(p.record, start.now)];
    RunOne(start, longer, receive);
    longer := longer + [receive];
  }

  /**
   After any run that left the key absent, whatever an idle instance remembers and whatever is in flight,
   it can acquire the lease in one error-free pass.
   */
  lemma AbsentLeaseIsAcquired(ttl: nat, before: seq<Step>, i: Id) returns (pass: seq<Step>)
    requires Legal(Init(ttl), before)
    requires var w := Run(Init(ttl), before); Enabled(w, Begin(i)) && w.current.None?
    ensures var w := Apply(Run(Init(ttl), before), Begin(i));
            Legal(w, pass) && (forall s :: s in pass ==> ErrorFree(s, i)) && HoldsFresh(w, Run(w, pass), i)
  {
    InitInv(ttl);
    RunInv(Init(ttl), before);
    var w0 := Run(Init(ttl), before);
    var w := Apply(w0, Begin(i));
    BeginWaiting(w0, i);
    pass := [];
    if w0.procs[i].memory.lastRevision.Some? {
      pass := UpdateRefused(w, i, pass, BeginPass(w0.procs[i].memory));
    }
    pass := WriteApplied(w, i, pass, AwaitCreate);
  }

  /** After any run, an owner that remembers the current revision can renew its lease in one error-free pass. */
  lemma LeaseIsRenewed(ttl: nat, before: seq<Step>, i: Id) returns (pass: seq<Step>)
    requires Legal(Init(ttl), before)
    requires var w := Run(Init(ttl), before);
             Enabled(w, Begin(i)) && w.Owns(i) && w.procs[i].memory.lastRevision == w.current
    ensures var w := Apply(Run(Init(ttl), before), Begin(i));
            Legal(w, pass) && (forall s :: s in pass ==> ErrorFree(s, i)) && HoldsFresh(w, Run(w, pass), i)
  {
    InitInv(ttl);
    RunInv(Init(ttl), before);
    var w0 := Run(Init(ttl), before);
    BeginWaiting(w0, i);
    pass := WriteApplied(Apply(w0, Begin(i)), i, [], BeginPass(w0.procs[i].memory));
  }
}
