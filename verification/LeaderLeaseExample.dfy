/** A run of the leader lease in which an update of an earlier pass races the next pass of the owner. */
module LeaderLeaseExample {
  import opened Wrappers
  import opened LeaderLease
  import opened LeaderLeasePass

  const SELF := LeaseRecord("a", "")

  /** A world with one instance, at time 0. */
  function Alone(ttl: nat, log: seq<Write>, current: Option<nat>, requests: set<Request>, replies: set<Reply>,
                 p: Process): World
  {
    World(ttl, 0, log, current, requests, replies, map["a" := p])
  }

  const LEADING := LedBy(SELF, true)
  const OLD_UPDATE := Update("a", 2, SELF, 0)
  const OLD_REQUESTS := {OLD_UPDATE, Create("a", 3, SELF), Read("a", 4)}
  const ONE_WRITE := [Write(SELF, 0)]

  lemma RunThree(w: World, s0: Step, s1: Step, s2: Step)
    requires Enabled(w, s0) && Enabled(Apply(w, s0), s1) && Enabled(Apply(Apply(w, s0), s1), s2)
    ensures Legal(w, [s0, s1, s2]) && Run(w, [s0, s1, s2]) == Apply(Apply(Apply(w, s0), s1), s2)
  {
    var w1 := Apply(w, s0);
    var w2 := Apply(w1, s1);
    assert Legal(Apply(w2, s2), []) && Run(Apply(w2, s2), []) == Apply(w2, s2);
    Prepend(w2, s2, []);
    Prepend(w1, s1, [s2]);
    Prepend(w, s0, [s1, s2]);
    assert [s0] + ([s1] + ([s2] + [])) == [s0, s1, s2];
  }

  /** The instance joins and acquires the lease ... */
  const JOINS: seq<Step> := [Join("a", ""), Begin("a"), Serve(Create("a", 1, SELF))]

  lemma JoinsRuns(ttl: nat)
    ensures Legal(Init(ttl), JOINS)
    ensures Run(Init(ttl), JOINS)
         == Alone(ttl, ONE_WRITE, Some(0), {}, {WriteAnswer("a", 1, Written(0))},
                  Process(SELF, AwaitCreate, Memory(None, UNKNOWN_LEADER), 1, None))
  {
    var w := Init(ttl);
    var w1 := Apply(w, Join("a", ""));
    var w2 := Apply(w1, Begin("a"));
    assert w2.requests == {Create("a", 1, SELF)};
    RunThree(w, Join("a", ""), Begin("a"), Serve(Create("a", 1, SELF)));
    assert [] + [Write(SELF, 0)] == ONE_WRITE;
  }

  /** ... starts to renew it, and gives up on the update ... */
  const GIVES_UP: seq<Step> := [Receive(WriteAnswer("a", 1, Written(0))), Begin("a"), Fail("a")]

  lemma GivesUpRuns(ttl: nat)
    ensures var w := Alone(ttl, ONE_WRITE, Some(0), {}, {WriteAnswer("a", 1, Written(0))},
                           Process(SELF, AwaitCreate, Memory(None, UNKNOWN_LEADER), 1, None));
            && Legal(w, GIVES_UP)
            && Run(w, GIVES_UP)
                 == Alone(ttl, ONE_WRITE, Some(0), {OLD_UPDATE, Create("a", 3, SELF)}, {},
                          Process(SELF, AwaitCreate, Memory(None, LEADING), 3, Some(0)))
  {
    var w := Alone(ttl, ONE_WRITE, Some(0), {}, {WriteAnswer("a", 1, Written(0))},
                   Process(SELF, AwaitCreate, Memory(None, UNKNOWN_LEADER), 1, None));
    var w1 := Apply(w, Receive(WriteAnswer("a", 1, Written(0))));
    assert w1.replies == {};
    var w2 := Apply(w1, Begin("a"));
    assert w2.requests == {OLD_UPDATE};
    RunThree(w, Receive(WriteAnswer("a", 1, Written(0))), Begin("a"), Fail("a"));
  }

  /** The state between the passes: three requests are still on their way. */
  function Between(ttl: nat): World {
    Alone(ttl, ONE_WRITE, Some(0), OLD_REQUESTS, {}, Process(SELF, Idle, Memory(None, LEADING), 4, Some(0)))
  }

  /** ... on the create and on the read. */
  const EARLIER: seq<Step> := JOINS + GIVES_UP + [Fail("a"), Fail("a")]

  lemma EarlierRuns(ttl: nat)
    ensures Legal(Init(ttl), EARLIER)
    ensures Run(Init(ttl), EARLIER) == Between(ttl)
  {
    JoinsRuns(ttl);
    GivesUpRuns(ttl);
    RunConcat(Init(ttl), JOINS, GIVES_UP);
    FailsTwice(ttl);
    RunConcat(Init(ttl), JOINS + GIVES_UP, [Fail("a"), Fail("a")]);
  }

  lemma FailsTwice(ttl: nat)
    ensures var w := Alone(ttl, ONE_WRITE, Some(0), {OLD_UPDATE, Create("a", 3, SELF)}, {},
                           Process(SELF, AwaitCreate, Memory(None, LEADING), 3, Some(0)));
            Legal(w, [Fail("a"), Fail("a")]) && Run(w, [Fail("a"), Fail("a")]) == Between(ttl)
  {
    var w := Alone(ttl, ONE_WRITE, Some(0), {OLD_UPDATE, Create("a", 3, SELF)}, {},
                   Process(SELF, AwaitCreate, Memory(None, LEADING), 3, Some(0)));
    var w1 := Apply(w, Fail("a"));
    var w2 := Apply(w1, Fail("a"));
    assert Legal(w2, []) && Run(w2, []) == w2;
    Prepend(w1, Fail("a"), []);
    Prepend(w, Fail("a"), [Fail("a")]);
    assert [Fail("a")] + ([Fail("a")] + []) == [Fail("a"), Fail("a")];
  }

  /** The next pass has sent its create. */
  function Trying(ttl: nat): World {
    Alone(ttl, ONE_WRITE, Some(0), OLD_REQUESTS + {Create("a", 5, SELF)}, {},
          Process(SELF, AwaitCreate, Memory(None, LEADING), 5, Some(0)))
  }

  lemma BeginsAgain(ttl: nat)
    ensures Enabled(Between(ttl), Begin("a")) && Apply(Between(ttl), Begin("a")) == Trying(ttl)
  {
  }

  /** Its read is answered, the answer not yet received. */
  function Reading(ttl: nat): World {
    Alone(ttl, ONE_WRITE, Some(0), OLD_REQUESTS, {EntryAnswer("a", 6, Entry(SELF, 0))},
          Process(SELF, AwaitEntry, Memory(None, LEADING), 6, Some(0)))
  }

  /** The next pass finds the entry taken and asks for it ... */
  const ASKS: seq<Step> :=
    [Serve(Create("a", 5, SELF)), Receive(WriteAnswer("a", 5, WriteFailed)), Serve(Read("a", 6))]

  lemma AsksRuns(ttl: nat)
    ensures Legal(Trying(ttl), ASKS) && Run(Trying(ttl), ASKS) == Reading(ttl)
  {
    var w := Trying(ttl);
    var s0, s1, s2 := Serve(Create("a", 5, SELF)), Receive(WriteAnswer("a", 5, WriteFailed)), Serve(Read("a", 6));
    var w1 := Apply(w, s0);
    assert w1.requests == OLD_REQUESTS && w1.replies == {s1.reply};
    var w2 := Apply(w1, s1);
    assert w2.replies == {} && w2.requests == OLD_REQUESTS + {Read("a", 6)};
    RunThree(w, s0, s1, s2);
    assert w2.requests - {Read("a", 6)} == OLD_REQUESTS;
  }

  /** ... the old update is applied only now, and then the answer arrives. */
  const ANSWERED: seq<Step> := [Serve(OLD_UPDATE), Receive(EntryAnswer("a", 6, Entry(SELF, 0)))]

  lemma AnsweredRuns(ttl: nat)
    ensures Legal(Reading(ttl), ANSWERED)
    ensures var w' := Run(Reading(ttl), ANSWERED);
               && w'.current == Some(1) && w'.log == ONE_WRITE + ONE_WRITE && w'.now == 0 && w'.ttl == ttl
               && "a" in w'.procs && w'.procs["a"] == Process(SELF, Idle, Memory(Some(0), LEADING), 6, Some(0))
  {
    var w := Reading(ttl);
    var s0, s1 := Serve(OLD_UPDATE), Receive(EntryAnswer("a", 6, Entry(SELF, 0)));
    var w1 := Apply(w, s0);
    var w2 := Apply(w1, s1);
    assert Legal(w2, []) && Run(w2, []) == w2;
    Prepend(w1, s1, []);
    Prepend(w, s0, [s1]);
    assert [s0] + ([s1] + []) == ANSWERED;
  }

  /**
   An error-free pass of the owner may end with an old revision: an update of an earlier pass is applied
   after the entry was read.
   */
  lemma OldRequestLeavesOldRevision(ttl: nat)
    requires ttl > 0
    ensures Legal(Init(ttl), EARLIER)
    ensures var w := Run(Init(ttl), EARLIER);
            && Enabled(w, Begin("a")) && w.Owns("a") && !Unraced(w, "a")
            && Legal(Apply(w, Begin("a")), ASKS + ANSWERED)
            && (forall s :: s in ASKS || s in ANSWERED ==> ErrorFree(s, "a"))
            && var w' := Run(Apply(w, Begin("a")), ASKS + ANSWERED);
               && w'.now < w.Expiry(w.current.value) && w'.Owns("a") && w'.Leads("a")
               && w'.procs["a"].pc.Idle? && w'.procs["a"].memory.lastRevision == Some(0) && w'.current == Some(1)
  {
    EarlierRuns(ttl);
    BeginsAgain(ttl);
    assert OLD_UPDATE in Between(ttl).requests && UpdateAtCurrent(Between(ttl), "a", OLD_UPDATE);
    AsksRuns(ttl);
    AnsweredRuns(ttl);
    RunConcat(Trying(ttl), ASKS, ANSWERED);
  }
}
