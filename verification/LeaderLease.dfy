/**
 The deploy-ingress leader lease: any number of ingress instances compete for one key of a
 shared compare-and-set store whose entries are removed once they are older than a TTL.

 The network is asynchronous.  A request that an instance has sent may be applied at any later
 time or never, also after the instance gave up waiting; a reply may be lost or overtaken by a
 timeout.  The store keeps its write history in `log`, and the revision of a write is its
 position there, so revisions strictly increase.
 */
module LeaderLease {
  import opened Wrappers

  type Id = string

  datatype LeaseRecord = LeaseRecord(ingressId: Id, url: string)

  datatype LeaderState = LeaderState(isLeader: bool, leaderId: Option<Id>, leaderUrl: Option<string>)

  /** What one instance remembers between passes. */
  datatype Memory = Memory(lastRevision: Option<nat>, leader: LeaderState)

  datatype WriteReply = Written(revision: nat) | WriteFailed

  /** `EntryError` covers a failed read and a value that does not parse. */
  datatype EntryReply = EntryError | NoEntry | Entry(record: LeaseRecord, revision: nat)

  /** Where a pass stands: idle, or waiting for the answer to one store operation. */
  datatype Pc = Idle | AwaitUpdate(revision: nat) | AwaitCreate | AwaitEntry

  const UNKNOWN_LEADER := LeaderState(false, None, None)

  function LedBy(leader: LeaseRecord, isLeader: bool): LeaderState {
    LeaderState(isLeader, Some(leader.ingressId), Some(leader.url))
  }

  // ----- One pass, operation by operation -----

  function BeginPass(m: Memory): Pc {
    match m.lastRevision
    case Some(revision) => AwaitUpdate(revision)
    case None => AwaitCreate
  }

  function OnUpdate(me: LeaseRecord, m: Memory, reply: WriteReply): (Pc, Memory) {
    match reply
    case Written(revision) => (Idle, Memory(Some(revision), LedBy(me, true)))
    case WriteFailed => (AwaitCreate, m.(lastRevision := None))
  }

  function OnCreate(me: LeaseRecord, m: Memory, reply: WriteReply): (Pc, Memory) {
    match reply
    case Written(revision) => (Idle, Memory(Some(revision), LedBy(me, true)))
    case WriteFailed => (AwaitEntry, m)
  }

  function OnEntry(me: LeaseRecord, m: Memory, reply: EntryReply): (Pc, Memory) {
    match reply
    case EntryError => (Idle, m)
    case NoEntry => (Idle, m.(leader := UNKNOWN_LEADER))
    case Entry(record, revision) =>
      if record.ingressId == me.ingressId
      then (Idle, Memory(Some(revision), LedBy(record, true)))
      else (Idle, Memory(None, LedBy(record, false)))
  }

  /** The memory after a whole pass that got the given answers. */
  function Pass(me: LeaseRecord, m: Memory, update: WriteReply, create: WriteReply, entry: EntryReply): Memory {
    var (pc0, m0) := if BeginPass(m).AwaitUpdate? then OnUpdate(me, m, update) else (AwaitCreate, m);
    if pc0 == Idle then m0 else
      var (pc1, m1) := OnCreate(me, m0, create);
      if pc1 == Idle then m1 else OnEntry(me, m1, entry).1
  }

  /** The mutable state of one ingress instance. */
  class IngressInstance {
    const me: LeaseRecord
    var lastRevision: Option<nat>
    var leader: LeaderState

    constructor (me: LeaseRecord)
      ensures this.me == me && lastRevision == None && leader == UNKNOWN_LEADER
    {
      this.me := me;
      lastRevision := None;
      leader := UNKNOWN_LEADER;
    }

    /** One call of the lease task, with the answers of the three store operations it may make. */
    method RenewOrObserve(update: WriteReply, create: WriteReply, entry: EntryReply) returns (ok: bool)
      modifies this
      ensures Memory(lastRevision, leader) == Pass(me, old(Memory(lastRevision, leader)), update, create, entry)
      ensures var renewed := old(lastRevision).Some? && update.Written?;
              var created := !renewed && create.Written?;
              && (renewed ==> lastRevision == Some(update.revision))
              && (created ==> lastRevision == Some(create.revision))
              && (renewed || created ==> ok && leader == LeaderState(true, Some(me.ingressId), Some(me.url)))
              && (!renewed && !created ==>
                    && (ok <==> !entry.EntryError?)
                    && (entry.EntryError? ==> lastRevision.None? && leader == old(leader))
                    && (entry.NoEntry? ==> lastRevision.None? && leader == LeaderState(false, None, None))
                    && (entry.Entry? ==>
                          var own := entry.record.ingressId == me.ingressId;
                          && lastRevision == (if own then Some(entry.revision) else None)
                          && leader == LeaderState(own, Some(entry.record.ingressId), Some(entry.record.url))))
    {
      if lastRevision.Some? {
        match update {
          case Written(newRevision) =>
            lastRevision := Some(newRevision);
            leader := LedBy(me, true);
            return true;
          case WriteFailed =>
            lastRevision := None;
        }
      }
      match create {
        case Written(revision) =>
          lastRevision := Some(revision);
          leader := LedBy(me, true);
          return true;
        case WriteFailed =>
          match entry {
            case EntryError =>
              return false;
            case NoEntry =>
              leader := UNKNOWN_LEADER;
            case Entry(record, revision) =>
              if record.ingressId == me.ingressId {
                lastRevision := Some(revision);
                leader := LedBy(record, true);
              } else {
                lastRevision := None;
                leader := LedBy(record, false);
              }
          }
          return true;
      }
    }
  }

  /** The write gate of the HTTP layer. */
  predicate GateOpen(isGet: bool, haEnabled: bool, leader: LeaderState) {
    isGet || !haEnabled || leader.isLeader
  }

  // ----- The distributed system -----

  /** One applied write of the lease key. */
  datatype Write = Write(owner: LeaseRecord, at: nat)

  datatype Request =
    | Update(from: Id, tag: nat, record: LeaseRecord, revision: nat)
    | Create(from: Id, tag: nat, record: LeaseRecord)
    | Read(from: Id, tag: nat)

  datatype Reply =
    | WriteAnswer(to: Id, tag: nat, write: WriteReply)
    | EntryAnswer(to: Id, tag: nat, entry: EntryReply)

  /** `basis` is the history of a leader belief: the revision that justified it. */
  datatype Process = Process(record: LeaseRecord, pc: Pc, memory: Memory, tag: nat, basis: Option<nat>)

  predicate WrittenBy(log: seq<Write>, revision: nat, i: Id) {
    revision < |log| && log[revision].owner.ingressId == i
  }

  datatype World = World(
    ttl: nat, now: nat, log: seq<Write>, current: Option<nat>,
    requests: set<Request>, replies: set<Reply>, procs: map<Id, Process>)
  {
    function Expiry(revision: nat): nat
      requires revision < |log|
    {
      log[revision].at + ttl
    }

    /** Instance `i` owns the entry that is in the store now. */
    predicate Owns(i: Id) {
      current.Some? && WrittenBy(log, current.value, i)
    }

    predicate Leads(i: Id) {
      i in procs && procs[i].memory.leader.isLeader
    }

    /** The lease that instance `i` bases its leader belief on has not expired. */
    predicate Unexpired(i: Id) {
      i in procs && procs[i].basis.Some? && procs[i].basis.value < |log| && now < Expiry(procs[i].basis.value)
    }
  }

  datatype Step =
    | Join(i: Id, url: string)
    | Restart(i: Id)
    | Begin(i: Id)
    | Serve(request: Request)
    | DropRequest(request: Request)
    | Receive(reply: Reply)
    | DropReply(reply: Reply)
    | Fail(i: Id)
    | Expire
    | Tick(dt: nat)

  function Fresh(record: LeaseRecord, tag: nat): Process {
    Process(record, Idle, Memory(None, UNKNOWN_LEADER), tag, None)
  }

  function Init(ttl: nat): World {
    World(ttl, 0, [], None, {}, {}, map[])
  }

  /** A reply that process `p` is waiting for. */
  predicate Awaited(p: Process, reply: Reply) {
    reply.tag == p.tag &&
    match reply
    case WriteAnswer(_, _, _) => p.pc.AwaitUpdate? || p.pc.AwaitCreate?
    case EntryAnswer(_, _, _) => p.pc.AwaitEntry?
  }

  predicate Enabled(w: World, step: Step) {
    match step
    case Join(i, _) => i !in w.procs
    case Restart(i) => i in w.procs
    case Begin(i) => i in w.procs && w.procs[i].pc.Idle?
    case Serve(request) => request in w.requests
    case DropRequest(request) => request in w.requests
    case Receive(reply) => reply in w.replies && reply.to in w.procs && Awaited(w.procs[reply.to], reply)
    case DropReply(reply) => reply in w.replies
    case Fail(i) => i in w.procs && !w.procs[i].pc.Idle?
    case Expire => w.current.Some? && w.current.value < |w.log| && w.Expiry(w.current.value) <= w.now
    case Tick(_) => true
  }

  /** The request that a process at a waiting point has to send under a given tag. */
  function RequestAt(p: Process): Request
    requires !p.pc.Idle?
  {
    match p.pc
    case AwaitUpdate(revision) => Update(p.record.ingressId, p.tag, p.record, revision)
    case AwaitCreate => Create(p.record.ingressId, p.tag, p.record)
    case AwaitEntry => Read(p.record.ingressId, p.tag)
  }

  /** The revision that justifies the leader belief held in memory `m`. */
  function BasisOf(previous: Option<nat>, m: Memory): Option<nat> {
    if !m.leader.isLeader then None else if m.lastRevision.Some? then m.lastRevision else previous
  }

  /** Process `i` takes the outcome of its current operation and sends its next request, if any. */
  function Advance(w: World, i: Id, outcome: (Pc, Memory)): World
    requires i in w.procs
  {
    var p := w.procs[i];
    var next := p.(pc := outcome.0, memory := outcome.1, basis := BasisOf(p.basis, outcome.1));
    if outcome.0.Idle? then
      w.(procs := w.procs[i := next])
    else
      var sender := next.(tag := p.tag + 1);
      w.(procs := w.procs[i := sender], requests := w.requests + {RequestAt(sender)})
  }

  function Outcome(p: Process, reply: Reply): (Pc, Memory)
    requires Awaited(p, reply)
  {
    match reply
    case WriteAnswer(_, _, write) =>
      if p.pc.AwaitUpdate? then OnUpdate(p.record, p.memory, write) else OnCreate(p.record, p.memory, write)
    case EntryAnswer(_, _, entry) => OnEntry(p.record, p.memory, entry)
  }

  /** The operation that a process waits for ends in an error. */
  function FailedOutcome(p: Process): (Pc, Memory)
    requires !p.pc.Idle?
  {
    match p.pc
    case AwaitUpdate(_) => OnUpdate(p.record, p.memory, WriteFailed)
    case AwaitCreate => OnCreate(p.record, p.memory, WriteFailed)
    case AwaitEntry => OnEntry(p.record, p.memory, EntryError)
  }

  function Appended(w: World, from: Id, tag: nat, record: LeaseRecord): World {
    w.(log := w.log + [Write(record, w.now)], current := Some(|w.log|),
       replies := w.replies + {WriteAnswer(from, tag, Written(|w.log|))})
  }

  /** The store applies a request: `update` only at the current revision, `create` only if absent. */
  function Served(w: World, request: Request): World {
    var w := w.(requests := w.requests - {request});
    match request
    case Update(from, tag, record, revision) =>
      if w.current == Some(revision) then Appended(w, from, tag, record)
      else w.(replies := w.replies + {WriteAnswer(from, tag, WriteFailed)})
    case Create(from, tag, record) =>
      if w.current.None? then Appended(w, from, tag, record)
      else w.(replies := w.replies + {WriteAnswer(from, tag, WriteFailed)})
    case Read(from, tag) =>
      var entry :=
        if w.current.None? || w.current.value >= |w.log| then NoEntry
        else Entry(w.log[w.current.value].owner, w.current.value);
      w.(replies := w.replies + {EntryAnswer(from, tag, entry)})
  }

  function Apply(w: World, step: Step): World
    requires Enabled(w, step)
  {
    match step
    case Join(i, url) => w.(procs := w.procs[i := Fresh(LeaseRecord(i, url), 0)])
    case Restart(i) => w.(procs := w.procs[i := Fresh(w.procs[i].record, w.procs[i].tag)])
    case Begin(i) => Advance(w, i, (BeginPass(w.procs[i].memory), w.procs[i].memory))
    case Serve(request) => Served(w, request)
    case DropRequest(request) => w.(requests := w.requests - {request})
    case Receive(reply) =>
      Advance(w.(replies := w.replies - {reply}), reply.to, Outcome(w.procs[reply.to], reply))
    case DropReply(reply) => w.(replies := w.replies - {reply})
    case Fail(i) => Advance(w, i, FailedOutcome(w.procs[i]))
    case Expire => w.(current := None)
    case Tick(dt) => w.(now := w.now + dt)
  }

  /** A run: every step is enabled where it is taken. */
  predicate Legal(w: World, steps: seq<Step>)
    decreases |steps|
  {
    steps == [] || (Enabled(w, steps[0]) && Legal(Apply(w, steps[0]), steps[1..]))
  }

  function Run(w: World, steps: seq<Step>): World
    requires Legal(w, steps)
    decreases |steps|
  {
    if steps == [] then w else Run(Apply(w, steps[0]), steps[1..])
  }

  // ----- The invariant of every run -----

  /** The present entry is the newest write, and the key is only absent once the newest write is too old. */
  ghost predicate StoreInv(w: World) {
    && (w.current.Some? ==> w.current.value == |w.log| - 1)
    && (w.current.None? && |w.log| > 0 ==> w.Expiry(|w.log| - 1) <= w.now)
  }

  /** Writes are in time order, and a write by another owner waits until the earlier one has expired. */
  ghost predicate LogInv(ttl: nat, now: nat, log: seq<Write>) {
    && (forall k :: 0 <= k < |log| ==> log[k].at <= now)
    && (forall j, k :: 0 <= j < k < |log| ==>
          && log[j].at <= log[k].at
          && (log[j].owner.ingressId == log[k].owner.ingressId || log[j].at + ttl <= log[k].at))
  }

  ghost predicate ProcInv(log: seq<Write>, i: Id, p: Process) {
    && p.record.ingressId == i
    && (p.memory.lastRevision.Some? ==>
          WrittenBy(log, p.memory.lastRevision.value, i) && p.memory.leader.isLeader)
    && (p.memory.leader.isLeader <==> p.basis.Some?)
    && (p.basis.Some? ==> WrittenBy(log, p.basis.value, i))
    && (p.pc.AwaitUpdate? ==> WrittenBy(log, p.pc.revision, i))
    && (p.pc.AwaitCreate? || p.pc.AwaitEntry? ==> p.memory.lastRevision.None?)
  }

  ghost predicate RequestInv(log: seq<Write>, r: Request) {
    && (r.Update? ==> r.record.ingressId == r.from && WrittenBy(log, r.revision, r.from))
    && (r.Create? ==> r.record.ingressId == r.from)
  }

  ghost predicate ReplyInv(log: seq<Write>, r: Reply) {
    && (r.WriteAnswer? && r.write.Written? ==> WrittenBy(log, r.write.revision, r.to))
    && (r.EntryAnswer? && r.entry.Entry? ==>
          r.entry.revision < |log| && log[r.entry.revision].owner == r.entry.record)
  }

  /** Everything that instances remember or that is in flight is justified by the write log. */
  ghost predicate Justified(log: seq<Write>, procs: map<Id, Process>, requests: set<Request>, replies: set<Reply>) {
    && (forall i :: i in procs ==> ProcInv(log, i, procs[i]))
    && (forall r :: r in requests ==> RequestInv(log, r))
    && (forall r :: r in replies ==> ReplyInv(log, r))
  }

  /** No message carries a tag that its instance has yet to use. */
  ghost predicate TagInv(procs: map<Id, Process>, requests: set<Request>, replies: set<Reply>) {
    && (forall r :: r in requests ==> r.from in procs && r.tag <= procs[r.from].tag)
    && (forall r :: r in replies ==> r.to in procs && r.tag <= procs[r.to].tag)
  }

  ghost predicate Inv(w: World) {
    && StoreInv(w)
    && LogInv(w.ttl, w.now, w.log)
    && Justified(w.log, w.procs, w.requests, w.replies)
    && TagInv(w.procs, w.requests, w.replies)
  }

  lemma InitInv(ttl: nat)
    ensures Inv(Init(ttl))
  {
  }

  lemma AdvanceInv(w: World, i: Id, outcome: (Pc, Memory))
    requires Inv(w) && i in w.procs
    requires outcome.1.lastRevision.Some? ==>
               WrittenBy(w.log, outcome.1.lastRevision.value, i) && outcome.1.leader.isLeader
    requires outcome.1.leader.isLeader && outcome.1.lastRevision.None? ==> w.procs[i].memory.leader.isLeader
    requires outcome.0.AwaitUpdate? ==> WrittenBy(w.log, outcome.0.revision, i)
    requires outcome.0.AwaitCreate? || outcome.0.AwaitEntry? ==> outcome.1.lastRevision.None?
    ensures Inv(Advance(w, i, outcome))
  {
    assert ProcInv(w.log, i, w.procs[i]);
    var w' := Advance(w, i, outcome);
    assert ProcInv(w.log, i, w'.procs[i]);
    assert outcome.0.Idle? || RequestInv(w.log, RequestAt(w'.procs[i]));
  }

  lemma AppendedInv(w: World, from: Id, tag: nat, record: LeaseRecord)
    requires Inv(w) && from in w.procs && tag <= w.procs[from].tag && record.ingressId == from
    requires w.current.Some? ==> w.Owns(from)
    ensures Inv(Appended(w, from, tag, record))
  {
    var w' := Appended(w, from, tag, record);
    forall j | j in w'.procs ensures ProcInv(w'.log, j, w'.procs[j]) {
      assert ProcInv(w.log, j, w.procs[j]);
    }
    forall r | r in w'.requests ensures RequestInv(w'.log, r) {
      assert RequestInv(w.log, r);
    }
    forall r | r in w'.replies ensures ReplyInv(w'.log, r) {
      assert r in w.replies ==> ReplyInv(w.log, r);
    }
  }

  lemma ServedInv(w: World, request: Request)
    requires Inv(w) && request in w.requests
    ensures Inv(Served(w, request))
  {
    assert RequestInv(w.log, request);
    var w0 := w.(requests := w.requests - {request});
    match request
    case Update(from, tag, record, revision) =>
      if w.current == Some(revision) { AppendedInv(w0, from, tag, record); }
    case Create(from, tag, record) =>
      if w.current.None? { AppendedInv(w0, from, tag, record); }
    case Read(from, tag) =>
  }

  lemma ReceiveInv(w: World, reply: Reply)
    requires Inv(w) && Enabled(w, Receive(reply))
    ensures Inv(Apply(w, Receive(reply)))
  {
    var p := w.procs[reply.to];
    assert ReplyInv(w.log, reply) && ProcInv(w.log, reply.to, p);
    AdvanceInv(w.(replies := w.replies - {reply}), reply.to, Outcome(p, reply));
  }

  lemma FailInv(w: World, i: Id)
    requires Inv(w) && Enabled(w, Fail(i))
    ensures Inv(Apply(w, Fail(i)))
  {
    assert ProcInv(w.log, i, w.procs[i]);
    AdvanceInv(w, i, FailedOutcome(w.procs[i]));
  }

  lemma RestartInv(w: World, i: Id)
    requires Inv(w) && i in w.procs
    ensures Inv(Apply(w, Restart(i)))
  {
    assert ProcInv(w.log, i, w.procs[i]);
  }

  /** Steps that send and answer nothing. */
  lemma RestInv(w: World, step: Step)
    requires Inv(w) && Enabled(w, step)
    requires step.Join? || step.DropRequest? || step.DropReply? || step.Expire? || step.Tick?
    ensures Inv(Apply(w, step))
  {
  }

  /** Every step of the protocol keeps the invariant. */
  lemma StepInv(w: World, step: Step)
    requires Inv(w) && Enabled(w, step)
    ensures Inv(Apply(w, step))
  {
    match step
    case Begin(i) =>
      assert ProcInv(w.log, i, w.procs[i]);
      AdvanceInv(w, i, (BeginPass(w.procs[i].memory), w.procs[i].memory));
    case Serve(request) => ServedInv(w, request);
    case Receive(reply) => ReceiveInv(w, reply);
    case Fail(i) => FailInv(w, i);
    case Restart(i) => RestartInv(w, i);
    case _ => RestInv(w, step);
  }

  lemma {:induction false} RunInv(w: World, steps: seq<Step>)
    requires Inv(w) && Legal(w, steps)
    ensures Inv(Run(w, steps))
    decreases |steps|
  {
    if steps != [] {
      StepInv(w, steps[0]);
      RunInv(Apply(w, steps[0]), steps[1..]);
    }
  }

  // ----- Safety -----

  /** An unexpired leader belief is the truth: its holder owns the entry in the store. */
  lemma BeliefIsOwnership(w: World, i: Id)
    requires Inv(w) && w.Unexpired(i)
    ensures w.Owns(i)
  {
    assert ProcInv(w.log, i, w.procs[i]);
    var newest := |w.log| - 1;
    assert w.procs[i].basis.value < newest ==> w.log[newest].at <= w.now;
  }

  /** In every run, two instances never both pass the write gate on unexpired leases. */
  lemma WriteGateExclusive(ttl: nat, steps: seq<Step>, i: Id, j: Id)
    requires Legal(Init(ttl), steps)
    ensures var w := Run(Init(ttl), steps);
            && (w.Leads(i) && w.Unexpired(i) ==> w.Owns(i))
            && (i != j && i in w.procs && j in w.procs && w.Unexpired(i) && w.Unexpired(j) ==>
                  !(GateOpen(false, true, w.procs[i].memory.leader) && GateOpen(false, true, w.procs[j].memory.leader)))
  {
    InitInv(ttl);
    RunInv(Init(ttl), steps);
    var w := Run(Init(ttl), steps);
    if w.Unexpired(i) { BeliefIsOwnership(w, i); }
    if w.Unexpired(j) { BeliefIsOwnership(w, j); }
  }

  /** In every run, the tenures of different owners never overlap. */
  lemma TenuresDisjoint(ttl: nat, steps: seq<Step>, j: nat, k: nat)
    requires Legal(Init(ttl), steps)
    requires j < k < |Run(Init(ttl), steps).log|
    ensures var w := Run(Init(ttl), steps);
            w.log[j].owner.ingressId == w.log[k].owner.ingressId || w.Expiry(j) <= w.log[k].at
  {
    InitInv(ttl);
    RunInv(Init(ttl), steps);
  }

  /** In every run, no step removes a live entry or replaces it by another instance's. */
  lemma LiveEntryKept(ttl: nat, steps: seq<Step>, step: Step)
    requires Legal(Init(ttl), steps)
    requires var w := Run(Init(ttl), steps);
             Enabled(w, step) && w.current.Some? && w.current.value < |w.log| && w.now < w.Expiry(w.current.value)
    ensures var w := Run(Init(ttl), steps);
            var w' := Apply(w, step);
            w'.current.Some? && WrittenBy(w'.log, w'.current.value, w.log[w.current.value].owner.ingressId)
  {
    InitInv(ttl);
    RunInv(Init(ttl), steps);
    var w := Run(Init(ttl), steps);
    if step.Serve? { assert RequestInv(w.log, step.request); }
  }

  // ----- Two raw leader flags -----

  lemma Prepend(w: World, step: Step, rest: seq<Step>)
    requires Enabled(w, step) && Legal(Apply(w, step), rest)
    ensures Legal(w, [step] + rest) && Run(w, [step] + rest) == Run(Apply(w, step), rest)
  {
    assert ([step] + rest)[1..] == rest;
  }

  /** Instance `i`, with an empty key in front of it, creates the entry and becomes leader. */
  function Acquire(i: Id, url: string, revision: nat): seq<Step> {
    [Begin(i), Serve(Create(i, 1, LeaseRecord(i, url))), Receive(WriteAnswer(i, 1, Written(revision)))]
  }

  lemma AcquireRuns(w: World, i: Id, url: string)
    requires Inv(w) && w.current.None? && i in w.procs && w.procs[i] == Fresh(LeaseRecord(i, url), 0)
    requires w.requests == {} && w.replies == {}
    ensures var steps := Acquire(i, url, |w.log|);
            && Legal(w, steps)
            && var w' := Run(w, steps);
            && w'.Leads(i) && w'.current == Some(|w.log|) && w'.log == w.log + [Write(LeaseRecord(i, url), w.now)]
            && w'.now == w.now && w'.ttl == w.ttl && w'.requests == {} && w'.replies == {}
            && w'.procs.Keys == w.procs.Keys && forall j :: j in w.procs && j != i ==> w'.procs[j] == w.procs[j]
  {
    var s0, s1, s2 := Begin(i), Serve(Create(i, 1, LeaseRecord(i, url))), Receive(WriteAnswer(i, 1, Written(|w.log|)));
    var w1 := Apply(w, s0);
    assert w1.requests == {s1.request};
    var w2 := Apply(w1, s1);
    assert w2.replies == {s2.reply} && w2.requests == {};
    var w3 := Apply(w2, s2);
    assert w3.replies == {};
    assert Legal(w3, []) && Run(w3, []) == w3;
    Prepend(w2, s2, []);
    Prepend(w1, s1, [s2]);
    Prepend(w, s0, [s1, s2]);
    assert [s0] + ([s1] + ([s2] + [])) == Acquire(i, url, |w.log|);
  }

  lemma {:induction false} RunConcat(w: World, s: seq<Step>, t: seq<Step>)
    requires Legal(w, s) && Legal(Run(w, s), t)
    ensures Legal(w, s + t) && Run(w, s + t) == Run(Run(w, s), t)
    decreases |s|
  {
    if s == [] {
      assert s + t == t;
    } else {
      RunConcat(Apply(w, s[0]), s[1..], t);
      Prepend(w, s[0], s[1..] + t);
      assert [s[0]] + (s[1..] + t) == s + t;
    }
  }

  const FIRST_LEADER: seq<Step> := [Join("a", ""), Join("b", "")] + Acquire("a", "", 0)

  /** The first leader stalls for `age`, at least its lease; the second instance takes over. */
  function TakeOver(age: nat): seq<Step> {
    [Tick(age), Expire] + Acquire("b", "", 1)
  }

  lemma FirstLeaderRuns(ttl: nat)
    ensures Legal(Init(ttl), FIRST_LEADER)
    ensures var w := Run(Init(ttl), FIRST_LEADER);
            && w.ttl == ttl && w.now == 0 && w.log == [Write(LeaseRecord("a", ""), 0)] && w.current == Some(0)
            && w.requests == {} && w.replies == {}
            && w.Leads("a") && "b" in w.procs && w.procs["b"] == Fresh(LeaseRecord("b", ""), 0)
  {
    var w0 := Init(ttl);
    InitInv(ttl);
    var w1 := Apply(w0, Join("a", ""));
    StepInv(w0, Join("a", ""));
    var w2 := Apply(w1, Join("b", ""));
    StepInv(w1, Join("b", ""));
    AcquireRuns(w2, "a", "");
    Prepend(w1, Join("b", ""), Acquire("a", "", 0));
    Prepend(w0, Join("a", ""), [Join("b", "")] + Acquire("a", "", 0));
    assert [Join("a", "")] + ([Join("b", "")] + Acquire("a", "", 0)) == FIRST_LEADER;
  }

  lemma Lapse(w: World, age: nat)
    requires Inv(w) && w.current.Some? && w.Expiry(w.current.value) <= w.now + age
    ensures var w' := w.(now := w.now + age, current := None);
            Inv(w') && Legal(w, [Tick(age), Expire]) && Run(w, [Tick(age), Expire]) == w'
  {
    var w1 := Apply(w, Tick(age));
    StepInv(w, Tick(age));
    var w2 := Apply(w1, Expire);
    StepInv(w1, Expire);
    assert Legal(w2, []) && Run(w2, []) == w2;
    Prepend(w1, Expire, []);
    Prepend(w, Tick(age), [Expire]);
    assert [Tick(age)] + ([Expire] + []) == [Tick(age), Expire];
  }

  lemma TakeOverRuns(w: World, age: nat)
    requires Inv(w) && w.now == 0 && w.log == [Write(LeaseRecord("a", ""), 0)] && w.current == Some(0)
    requires w.requests == {} && w.replies == {} && w.ttl <= age
    requires w.Leads("a") && "b" in w.procs && w.procs["b"] == Fresh(LeaseRecord("b", ""), 0)
    ensures Legal(w, TakeOver(age))
    ensures var w' := Run(w, TakeOver(age));
            && w'.Leads("a") && w'.Leads("b") && w'.ttl == w.ttl && w'.now == age && w'.current == Some(1)
            && w'.log == w.log + [Write(LeaseRecord("b", ""), age)]
  {
    Lapse(w, age);
    var w2 := w.(now := age, current := None);
    AcquireRuns(w2, "b", "");
    RunConcat(w, [Tick(age), Expire], Acquire("b", "", 1));
  }

  /** Instance `i` leads on a lease written `age` ago. */
  predicate AgedLeader(w: World, i: Id, age: nat) {
    && w.Leads(i) && w.procs[i].basis.Some? && w.procs[i].basis.value < |w.log|
    && w.now == w.log[w.procs[i].basis.value].at + age
  }

  /**
   The unqualified claim fails: after the lease of a stalled leader runs out and a second instance
   takes over, both hold `isLeader`.  Only the first one's lease has expired.
   */
  lemma TwoRawLeaders(ttl: nat, age: nat)
    requires ttl <= age
    ensures Legal(Init(ttl), FIRST_LEADER + TakeOver(age))
    ensures var w := Run(Init(ttl), FIRST_LEADER + TakeOver(age));
            && w.Leads("a") && w.Leads("b") && !w.Owns("a") && w.Owns("b")
            && AgedLeader(w, "a", age) && AgedLeader(w, "b", 0)
  {
    InitInv(ttl);
    FirstLeaderRuns(ttl);
    RunInv(Init(ttl), FIRST_LEADER);
    var w := Run(Init(ttl), FIRST_LEADER);
    TakeOverRuns(w, age);
    RunConcat(Init(ttl), FIRST_LEADER, TakeOver(age));
    RunInv(w, TakeOver(age));
    var w' := Run(w, TakeOver(age));
    assert ProcInv(w'.log, "a", w'.procs["a"]) && ProcInv(w'.log, "b", w'.procs["b"]);
    assert !WrittenBy(w'.log, 1, "a") && !WrittenBy(w'.log, 0, "b");
  }

  lemma {:induction false} TtlKept(w: World, steps: seq<Step>)
    requires Legal(w, steps)
    ensures Run(w, steps).ttl == w.ttl
    decreases |steps|
  {
    if steps != [] { TtlKept(Apply(w, steps[0]), steps[1..]); }
  }

  /** In every run, every leader of that age owns the entry. */
  ghost predicate LeadersOwn(ttl: nat, age: nat) {
    forall steps: seq<Step>, i: Id ::
      Legal(Init(ttl), steps) && AgedLeader(Run(Init(ttl), steps), i, age) ==> Run(Init(ttl), steps).Owns(i)
  }

  /**
   The leader flag means ownership, in every run and for every instance, if and only if the write that
   justified it is younger than the time-to-live.
   */
  lemma LeadersOwnIffYoung(ttl: nat, age: nat)
    ensures LeadersOwn(ttl, age) <==> age < ttl
  {
    if age < ttl {
      forall steps: seq<Step>, i: Id | Legal(Init(ttl), steps) && AgedLeader(Run(Init(ttl), steps), i, age)
        ensures Run(Init(ttl), steps).Owns(i)
      {
        InitInv(ttl);
        RunInv(Init(ttl), steps);
        TtlKept(Init(ttl), steps);
        BeliefIsOwnership(Run(Init(ttl), steps), i);
      }
    } else {
      TwoRawLeaders(ttl, age);
      var steps := FIRST_LEADER + TakeOver(age);
      assert AgedLeader(Run(Init(ttl), steps), "a", age) && !Run(Init(ttl), steps).Owns("a");
    }
  }
}
