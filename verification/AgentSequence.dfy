/**
 The agent's control sequence across crashes. The sequence rises in memory before a send and reaches the
 identity Secret only after the Hub acknowledged it. Requests may be lost, delayed past a crash, or
 delivered again by anyone; Secret updates of a dead incarnation may still land.
 */
module AgentSequence {
  import opened Values

  const TWO64: int := 0x1_0000_0000_0000_0000

  /** A control message signed for the Hub: which incarnation of the agent signed it, under which generation. */
  datatype Message = Message(incarnation: nat, generation: nat)

  /** An update of the identity Secret, built by an incarnation on the version that it fetched. */
  datatype Update = Update(version: nat, generation: nat, incarnation: nat)

  datatype Phase = Idle | Waiting | Acknowledged

  /**
   One incarnation of the agent process. `base` is the generation it loaded, `ceiling` the highest generation
   signed before it started, `sends` how often it has incremented its sequence. The Hub gives the answer "replay" for two
   reasons: `refused` are the incarnation's own messages that failed the generation test although they had never been
   accepted, `unrecorded` those that passed it but whose generation record was refused or lost a version race.
   */
  datatype Agent = Agent(
    id: nat, base: nat, ceiling: nat, sends: nat, sequence: nat, phase: Phase, refused: set<nat>, unrecorded: set<nat>)

  datatype State = State(
    agent: Agent, persisted: nat, version: nat, pending: set<Update>,
    signed: set<Message>, highest: nat, accepted: set<Message>, hubLast: nat)

  datatype Step =
    | Start
    | Send
    | SendFails
    | Answer(recordFails: bool)
    | LoseReply
    | FetchSecret
    | CommitUpdate(update: Update)
    | TouchSecret
    | Deliver(message: Message)

  const INIT: State := State(Agent(0, 0, 0, 0, 0, Idle, {}, {}), 0, 0, {}, {}, 0, {}, 0)

  function Max(a: nat, b: nat): nat {
    if a < b then b else a
  }

  /** `a.sequence++` on a uint64. */
  function Bump(a: Agent): Agent {
    a.(sequence := (a.sequence + 1) % TWO64, sends := a.sends + 1)
  }

  function Current(a: Agent): Message {
    Message(a.id, a.sequence)
  }

  /** The Hub's generation record, one atomic step at its commit. */
  function Receive(s: State, m: Message): State {
    if m.generation > s.hubLast then s.(hubLast := m.generation, accepted := s.accepted + {m}) else s
  }

  function Next(s: State, step: Step): State {
    match step
    case Start => s.(agent := Agent(s.agent.id + 1, s.persisted, s.highest, 0, s.persisted, Idle, {}, {}))
    case Send =>
      if s.agent.phase != Idle then s
      else
        var a := Bump(s.agent).(phase := Waiting);
        s.(agent := a, signed := s.signed + {Current(a)}, highest := Max(s.highest, a.sequence))
    case SendFails => if s.agent.phase != Idle then s else s.(agent := Bump(s.agent))
    case Answer(recordFails) =>
      if s.agent.phase != Waiting then s
      else if s.agent.sequence > s.hubLast && recordFails then
        s.(agent := s.agent.(phase := Idle, unrecorded := s.agent.unrecorded + {s.agent.sequence}))
      else if s.agent.sequence > s.hubLast then Receive(s, Current(s.agent)).(agent := s.agent.(phase := Acknowledged))
      else
        s.(agent := s.agent.(
             phase := Idle,
             refused := if Current(s.agent) in s.accepted then s.agent.refused else s.agent.refused + {s.agent.sequence}))
    case LoseReply => s.(agent := s.agent.(phase := Idle))
    case FetchSecret =>
      if s.agent.phase != Acknowledged then s
      else s.(agent := s.agent.(phase := Idle), pending := s.pending + {Update(s.version, s.agent.sequence, s.agent.id)})
    case CommitUpdate(update) =>
      if update in s.pending && update.version == s.version
      then s.(persisted := update.generation, version := s.version + 1)
      else s
    case TouchSecret => s.(version := s.version + 1)
    case Deliver(message) => if message in s.signed then Receive(s, message) else s
  }

  function Exec(schedule: seq<Step>): State {
    if schedule == [] then INIT else Next(Exec(schedule[..|schedule| - 1]), schedule[|schedule| - 1])
  }

  /** The incarnation has not yet used up the uint64 range. */
  predicate Unwrapped(a: Agent) {
    a.base + a.sends < TWO64
  }

  ghost predicate Inv(s: State) {
    var a := s.agent;
    && 0 <= a.sequence < TWO64
    && a.base <= a.ceiling <= s.highest && a.base <= s.hubLast
    && s.persisted <= s.hubLast <= s.highest < TWO64
    && (forall u <- s.pending :: u.generation <= s.hubLast && Message(u.incarnation, u.generation) in s.accepted)
    && (s.persisted == 0 || exists m <- s.accepted :: m.generation == s.persisted)
    && s.accepted <= s.signed
    && (s.hubLast == 0 || exists m <- s.accepted :: m.generation == s.hubLast)
    && (forall m <- s.signed :: m.generation <= s.highest && m.incarnation <= a.id)
    && (a.phase == Waiting ==> Current(a) in s.signed)
    && (a.phase == Acknowledged ==> a.sequence <= s.hubLast && Current(a) in s.accepted)
    && (forall m <- s.signed | m.incarnation < a.id :: m.generation <= a.ceiling)
    && (Unwrapped(a) ==>
          && a.sequence == a.base + a.sends
          && (forall m <- s.signed | m.incarnation == a.id :: a.base < m.generation <= a.sequence)
          && (forall g <- a.refused :: a.base < g <= a.ceiling))
  }

  /** An unaccepted send of this incarnation can only be overtaken by generations signed before it started. */
  lemma Overtaken(s: State)
    requires Inv(s) && Unwrapped(s.agent) && s.agent.phase == Waiting && Current(s.agent) !in s.accepted
    requires s.agent.sequence <= s.hubLast
    ensures s.agent.base < s.agent.sequence <= s.agent.ceiling
  {
    var a := s.agent;
    assert Current(a) in s.signed;
    var m :| m in s.accepted && m.generation == s.hubLast;
    assert m in s.signed;
    assert m.incarnation < a.id || m == Current(a);
  }

  lemma ReceiveInv(s: State, m: Message)
    requires Inv(s) && m in s.signed
    ensures Inv(Receive(s, m))
  {
    var t := Receive(s, m);
    if t != s {
      assert m in t.accepted && m.generation == t.hubLast;
    }
  }

  lemma AnswerInv(s: State, recordFails: bool)
    requires Inv(s) && s.agent.phase == Waiting
    ensures Inv(Next(s, Answer(recordFails)))
  {
    if s.agent.sequence > s.hubLast {
      ReceiveInv(s, Current(s.agent));
    } else if Current(s.agent) !in s.accepted && Unwrapped(s.agent) {
      Overtaken(s);
    }
  }

  lemma SendInv(s: State, step: Step)
    requires Inv(s) && (step == Send || step == SendFails)
    ensures Inv(Next(s, step))
  {
    var t := Next(s, step);
    if t != s {
      if s.hubLast != 0 {
        var m :| m in s.accepted && m.generation == s.hubLast;
        assert m in t.accepted;
      }
    }
  }

  lemma QuietInv(s: State, step: Step)
    requires Inv(s) && (step.Start? || step.LoseReply? || step.TouchSecret?)
    ensures Inv(Next(s, step))
  {
  }

  lemma FetchInv(s: State)
    requires Inv(s)
    ensures Inv(Next(s, FetchSecret))
  {
  }

  lemma CommitInv(s: State, update: Update)
    requires Inv(s)
    ensures Inv(Next(s, CommitUpdate(update)))
  {
    if update in s.pending {
      assert Message(update.incarnation, update.generation) in s.accepted;
    }
  }

  lemma NextInv(s: State, step: Step)
    requires Inv(s)
    ensures Inv(Next(s, step))
  {
    hide Inv;
    match step
    case Send => SendInv(s, step);
    case SendFails => SendInv(s, step);
    case Answer(recordFails) => if s.agent.phase == Waiting { AnswerInv(s, recordFails); }
    case Deliver(message) => if message in s.signed { ReceiveInv(s, message); }
    case Start => QuietInv(s, step);
    case LoseReply => QuietInv(s, step);
    case FetchSecret => FetchInv(s);
    case CommitUpdate(update) => CommitInv(s, update);
    case TouchSecret => QuietInv(s, step);
  }

  lemma {:induction false} Invariant(schedule: seq<Step>)
    ensures Inv(Exec(schedule))
  {
    if schedule != [] {
      Invariant(schedule[..|schedule| - 1]);
      NextInv(Exec(schedule[..|schedule| - 1]), schedule[|schedule| - 1]);
    }
  }

  // ---------------------------------------------------------------------------------------------
  // Theorems
  // ---------------------------------------------------------------------------------------------

  /** The three records of progress never cross: what is persisted was acknowledged, what was accepted was signed. */
  lemma PersistedHubSigned(schedule: seq<Step>)
    ensures var s := Exec(schedule);
            s.persisted <= s.hubLast <= s.highest && forall m <- s.accepted :: m in s.signed
  {
    Invariant(schedule);
  }

  lemma {:induction false} IntervalSize(numbers: set<nat>, low: nat, high: nat)
    requires low <= high && forall g <- numbers :: low < g <= high
    ensures |numbers| <= high - low
    decreases high
  {
    if low == high {
      assert numbers == {};
    } else {
      IntervalSize(numbers - {high}, low, high - 1);
      assert |numbers| <= |numbers - {high}| + 1;
    }
  }

  /**
   After a restart, at most (highest signed - persisted) of the incarnation's messages fail the Hub's generation test
   without ever having been accepted. A copy that reaches the Hub before the original gets the original refused as well; such a
   message did take effect and is not counted.
   */
  lemma ReplaysAreBounded(schedule: seq<Step>)
    ensures var a := Exec(schedule).agent;
            Unwrapped(a) ==> |a.refused| <= a.ceiling - a.base
  {
    Invariant(schedule);
    var s := Exec(schedule);
    if Unwrapped(s.agent) {
      IntervalSize(s.agent.refused, s.agent.base, s.agent.ceiling);
    }
  }

  /** The incarnation's messages that were answered "replay", for either reason, before they were ever accepted. */
  function ReplayAnswers(a: Agent): set<nat> {
    a.refused + a.unrecorded
  }

  predicate RecordsNeverFail(schedule: seq<Step>) {
    forall step <- schedule :: step.Answer? ==> !step.recordFails
  }

  lemma {:induction false} NothingUnrecorded(schedule: seq<Step>)
    requires RecordsNeverFail(schedule)
    ensures Exec(schedule).agent.unrecorded == {}
  {
    if schedule != [] {
      NothingUnrecorded(schedule[..|schedule| - 1]);
    }
  }

  lemma Then(schedule: seq<Step>, step: Step) returns (longer: seq<Step>)
    ensures longer == schedule + [step] && Exec(longer) == Next(Exec(schedule), step)
  {
    longer := schedule + [step];
    assert longer[..|schedule|] == schedule;
  }

  /** The first incarnation has sent `n` messages, all answered "replay" by a Hub that never recorded anything. */
  predicate Unlucky(s: State, n: nat) {
    && s.hubLast == 0 && s.agent == Agent(0, 0, 0, n, n, Idle, {}, s.agent.unrecorded)
    && |s.agent.unrecorded| == n && forall g <- s.agent.unrecorded :: g <= n
  }

  lemma OneMoreUnrecorded(s: State, n: nat)
    requires Unlucky(s, n) && n + 1 < TWO64
    ensures Unlucky(Next(Next(s, Send), Answer(true)), n + 1)
  {
    var sent := Next(s, Send);
    assert sent.agent == Agent(0, 0, 0, n + 1, n + 1, Waiting, {}, s.agent.unrecorded) && sent.hubLast == 0;
    var t := Next(sent, Answer(true));
    assert n + 1 !in s.agent.unrecorded && t.agent.unrecorded == s.agent.unrecorded + {n + 1};
  }

  /** While generation records fail, every send is answered "replay": any number of them, with nothing signed beyond what was persisted. */
  lemma {:induction false} UnrecordedAreUnbounded(n: nat) returns (schedule: seq<Step>)
    requires n < TWO64
    ensures Unlucky(Exec(schedule), n)
  {
    hide Unlucky, Next;
    if n == 0 {
      schedule := [];
      NoneYet();
    } else {
      schedule := UnrecordedAreUnbounded(n - 1);
      OneMoreUnrecorded(Exec(schedule), n - 1);
      schedule := Then(schedule, Send);
      schedule := Then(schedule, Answer(true));
    }
  }

  lemma NoneYet()
    ensures Unlucky(INIT, 0)
  {
  }

  /** The bound holds for all "replay" answers, in every run, exactly when no generation record fails. */
  lemma ReplayAnswersBoundedIff(failures: bool)
    ensures (forall schedule | failures || RecordsNeverFail(schedule) ::
               var a := Exec(schedule).agent; Unwrapped(a) ==> |ReplayAnswers(a)| <= a.ceiling - a.base)
            <==> !failures
  {
    if failures {
      var schedule := UnrecordedAreUnbounded(1);
      assert ReplayAnswers(Exec(schedule).agent) == Exec(schedule).agent.unrecorded;
    } else {
      forall schedule | RecordsNeverFail(schedule)
        ensures var a := Exec(schedule).agent; Unwrapped(a) ==> |ReplayAnswers(a)| <= a.ceiling - a.base
      {
        NothingUnrecorded(schedule);
        ReplaysAreBounded(schedule);
        assert ReplayAnswers(Exec(schedule).agent) == Exec(schedule).agent.refused;
      }
    }
  }

  /** From then on every send exceeds the Hub's value until the Hub has accepted that very message. */
  lemma LaterSendsExceedHub(schedule: seq<Step>)
    requires var a := Exec(schedule).agent; Unwrapped(a) && a.phase == Waiting && a.base + a.sends > a.ceiling
    ensures var s := Exec(schedule);
            Current(s.agent) in s.accepted || s.hubLast < s.agent.sequence
  {
    Invariant(schedule);
    var s := Exec(schedule);
    if Current(s.agent) !in s.accepted && s.agent.sequence <= s.hubLast {
      Overtaken(s);
    }
  }

  /** A restart loads the persisted generation and faces everything signed so far. */
  lemma RestartMeasures(schedule: seq<Step>)
    ensures var s, t := Exec(schedule), Exec(schedule + [Start]);
            && t.agent.base == t.agent.sequence == s.persisted && t.agent.ceiling == s.highest
            && t.agent.base <= t.agent.ceiling
  {
    assert (schedule + [Start])[..|schedule|] == schedule;
    Invariant(schedule);
  }

  /**
   What is persisted is what was acknowledged: from any reachable acknowledgement of a send with sequence g, a fetch of the
   Secret and the commit of its update with no write in between leave g persisted, and the next process starts from g.
   */
  lemma AcknowledgedIsPersisted(schedule: seq<Step>)
    requires Exec(schedule).agent.phase == Acknowledged
    ensures var s := Exec(schedule);
            var u, fetched := Update(s.version, s.agent.sequence, s.agent.id), Exec(schedule + [FetchSecret]);
            && fetched.pending == s.pending + {u} && fetched.persisted == s.persisted
            && var t := Exec(schedule + [FetchSecret, CommitUpdate(u)]);
               t.persisted == s.agent.sequence && t.agent.phase == Idle && t.agent.sequence == s.agent.sequence
    ensures var s := Exec(schedule);
            var next := Exec(schedule + [FetchSecret, CommitUpdate(Update(s.version, s.agent.sequence, s.agent.id)), Start]).agent;
            next.base == next.sequence == s.agent.sequence
  {
    var s := Exec(schedule);
    var u := Update(s.version, s.agent.sequence, s.agent.id);
    var one := Then(schedule, FetchSecret);
    var two := Then(one, CommitUpdate(u));
    var three := Then(two, Start);
    assert two == schedule + [FetchSecret, CommitUpdate(u)];
    assert three == schedule + [FetchSecret, CommitUpdate(u), Start];
  }

  /** Every update that may still commit, and whatever is persisted, carries the generation of a message the Hub accepted; an update, of one sent by the incarnation that built it. */
  lemma OnlyAcceptedIsPersisted(schedule: seq<Step>)
    ensures forall u <- Exec(schedule).pending :: Message(u.incarnation, u.generation) in Exec(schedule).accepted
    ensures Exec(schedule).persisted == 0 || exists m <- Exec(schedule).accepted :: m.generation == Exec(schedule).persisted
  {
    Invariant(schedule);
  }

  /** A send that nothing disturbs: the next number is accepted exactly when it exceeds the Hub's value, and is then what the Hub holds and what is persisted. */
  lemma SendAlone(schedule: seq<Step>)
    requires Exec(schedule).agent.phase == Idle
    ensures var s := Exec(schedule);
            var g := (s.agent.sequence + 1) % TWO64;
            var t := Exec(schedule + [Send, Answer(false), FetchSecret, CommitUpdate(Update(s.version, g, s.agent.id))]);
            && t.agent.sequence == g && t.agent.phase == Idle && Message(s.agent.id, g) in t.signed
            && if g > s.hubLast then t.hubLast == t.persisted == g && Message(s.agent.id, g) in t.accepted
               else t.hubLast == s.hubLast && t.accepted == s.accepted
  {
    hide Next;
    var s := Exec(schedule);
    var u := Update(s.version, (s.agent.sequence + 1) % TWO64, s.agent.id);
    var sent := Then(schedule, Send);
    SentAlone(s);
    var answered := Then(sent, Answer(false));
    AnsweredAlone(Exec(sent));
    var fetched := Then(answered, FetchSecret);
    var done := Then(fetched, CommitUpdate(u));
    PersistedAlone(Exec(answered), u);
    assert done == schedule + [Send, Answer(false), FetchSecret, CommitUpdate(u)];
  }

  predicate OncePerGeneration(s: State) {
    && (forall m <- s.accepted :: m.generation <= s.hubLast)
    && (forall m <- s.accepted, n <- s.accepted :: m.generation == n.generation ==> m == n)
  }

  /** However often messages are delivered again, and whoever signs the same number again after a crash, the Hub accepts one message per generation. */
  lemma {:induction false} AcceptedOncePerGeneration(schedule: seq<Step>)
    ensures OncePerGeneration(Exec(schedule))
  {
    if schedule != [] {
      AcceptedOncePerGeneration(schedule[..|schedule| - 1]);
    }
  }

  /** A send that fails, before or after its message went out, uses up a number all the same and changes nothing at the Hub or in the Secret. */
  lemma FailedSendsUseNumbers(s: State)
    requires s.agent.phase == Idle
    ensures var g := (s.agent.sequence + 1) % TWO64;
            var used := s.agent.(sequence := g, sends := s.agent.sends + 1);
            && Next(s, SendFails) == s.(agent := used)
            && Next(Next(s, Send), LoseReply) ==
                 s.(agent := used, signed := s.signed + {Message(s.agent.id, g)}, highest := if s.highest < g then g else s.highest)
  {
  }

  /** An update whose Secret was changed after the fetch is not written. */
  lemma {:induction false} StaleUpdatesAreDropped(schedule: seq<Step>, u: Update, more: seq<Step>)
    requires u in Exec(schedule).pending && TouchSecret in more
    ensures Exec(schedule + more + [CommitUpdate(u)]).persisted == Exec(schedule + more).persisted
    ensures Exec(schedule + more + [CommitUpdate(u)]).version == Exec(schedule + more).version
  {
    hide Next;
    PendingIsOld(schedule, u);
    TouchedIsNewer(schedule, more);
    assert (schedule + more + [CommitUpdate(u)])[..|schedule + more|] == schedule + more;
    StaleCommit(Exec(schedule + more), u);
  }

  lemma StaleCommit(s: State, u: Update)
    requires u.version < s.version
    ensures Next(s, CommitUpdate(u)) == s
  {
  }

  lemma {:induction false} PendingIsOld(schedule: seq<Step>, u: Update)
    requires u in Exec(schedule).pending
    ensures u.version <= Exec(schedule).version
  {
    if schedule != [] {
      var before := schedule[..|schedule| - 1];
      VersionRises(Exec(before), schedule[|schedule| - 1]);
      if u in Exec(before).pending { PendingIsOld(before, u); }
    }
  }

  lemma VersionRises(s: State, step: Step)
    ensures s.version <= Next(s, step).version && (step == TouchSecret ==> s.version < Next(s, step).version)
    ensures forall u <- Next(s, step).pending :: u in s.pending || u.version == s.version
  {
  }

  lemma {:induction false} TouchedIsNewer(schedule: seq<Step>, more: seq<Step>)
    ensures Exec(schedule).version <= Exec(schedule + more).version
    ensures TouchSecret in more ==> Exec(schedule).version < Exec(schedule + more).version
    decreases |more|
  {
    hide Next;
    if more == [] {
      assert schedule + more == schedule;
    } else {
      var k := |more| - 1;
      assert (schedule + more)[..|schedule + more| - 1] == schedule + more[..k];
      TouchedIsNewer(schedule, more[..k]);
      VersionRises(Exec(schedule + more[..k]), more[k]);
      assert more == more[..k] + [more[k]];
    }
  }

  lemma SentAlone(s: State)
    requires s.agent.phase == Idle
    ensures var t, g := Next(s, Send), (s.agent.sequence + 1) % TWO64;
            && t.agent.phase == Waiting && t.agent.sequence == g && t.agent.id == s.agent.id && Message(s.agent.id, g) in t.signed
            && t.hubLast == s.hubLast && t.accepted == s.accepted && t.version == s.version
  {
  }

  lemma AnsweredAlone(s: State)
    requires s.agent.phase == Waiting
    ensures var t := Next(s, Answer(false));
            && t.agent.sequence == s.agent.sequence && t.agent.id == s.agent.id && t.version == s.version && t.signed == s.signed
            && if s.agent.sequence > s.hubLast
               then t.agent.phase == Acknowledged && t.hubLast == s.agent.sequence && t.accepted == s.accepted + {Message(s.agent.id, s.agent.sequence)}
               else t.agent.phase == Idle && t.hubLast == s.hubLast && t.accepted == s.accepted
  {
  }

  lemma PersistedAlone(s: State, u: Update)
    requires s.agent.phase == Idle || s.agent.phase == Acknowledged
    requires u == Update(s.version, s.agent.sequence, s.agent.id)
    ensures var t := Next(Next(s, FetchSecret), CommitUpdate(u));
            && t.agent == s.agent.(phase := Idle) && t.hubLast == s.hubLast && t.accepted == s.accepted && t.signed == s.signed
            && (s.agent.phase == Acknowledged ==> t.persisted == s.agent.sequence)
  {
  }
}
