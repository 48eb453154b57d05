/**
 Freshness of one AuthenticatedLink. Observers and reconcile passes on any number of replicas are its
 only writers; each reads, reads the clock, and writes under the version it read. Links do not
 interact, so one link stands for all.
 */
module Links {
  import opened Values
  import opened ApiServer

  datatype LinkState = Connecting | Ready | Disconnected | Blocked

  /** `observedAt` is the exact clock reading behind `lastObservedAt`, which is stored in whole seconds. */
  datatype Link = Link(
    peerRef: string, localGateway: string, remoteGateway: string,
    state: LinkState, reason: string, lastObservedAt: Option<Time>, observedAt: Time)

  const STALE_AFTER: int := 45 * SECOND
  const LINK: Key := Key("tenant", "link")

  /** A `link.observe` handler. `permitted` stands for the issuer being a member of the link's peer. */
  datatype Observer =
    | Observing(peerRef: string, ready: bool, reason: string, permitted: bool)
    | Fetched(snapshot: Stored<Link>, ready: bool, reason: string)
    | Stamped(snapshot: Stored<Link>, ready: bool, reason: string, now: Time)
    | Observed

  /** One reconcile pass, as far as it concerns the link. */
  datatype Pass =
    | Listed(snapshot: Stored<Link>, at: Time)
    | Writing(snapshot: Stored<Link>, at: Time, now: Time, state: LinkState, reason: string)
    | Handled

  type Id = nat

  /**
   `lastPass` is the latest clock of a pass that has finished with the link, `lastKept` of one whose write, if it
   made any, the API server did not refuse.
   */
  datatype State = State(
    clock: Time, db: Db<Key, Link>, observers: map<Id, Observer>, passes: map<Id, Pass>,
    lastPass: Option<Time>, lastKept: Option<Time>)

  datatype Step =
    | Tick(elapsed: nat)
    | Observe(o: Id, peerRef: string, ready: bool, reason: string, permitted: bool)
    | Advance(o: Id, refused: bool)
    | List(p: Id)
    | Item(p: Id, refused: bool)

  function Init(link: Link): State {
    State(1, Create(Db(0, map[]), LINK, link), map[], map[], None, None)
  }

  /** `refused` says that the API server refuses the write for another reason than its version. */
  function AdvanceObserver(s: State, o: Id, refused: bool): State
    requires o in s.observers && LINK in s.db.objects
  {
    match s.observers[o]
    case Observing(peerRef, ready, reason, permitted) =>
      var link := s.db.objects[LINK];
      s.(observers := s.observers[o :=
        if link.value.peerRef == peerRef && permitted then Fetched(link, ready, reason) else Observed])
    case Fetched(snapshot, ready, reason) =>
      s.(observers := s.observers[o := Stamped(snapshot, ready, reason, s.clock)])
    case Stamped(snapshot, ready, reason, now) =>
      if !refused && Matches(s.db, LINK, snapshot) then
        s.(db := Rewrite(s.db, LINK, snapshot.value.(
             state := if ready then Ready else Disconnected, reason := reason,
             lastObservedAt := Some(WholeSeconds(now)), observedAt := now)),
           observers := s.observers[o := Observed])
      else s.(observers := s.observers[o := Observed])
    case Observed => s
  }

  function Later(a: Option<Time>, b: Time): Option<Time> {
    Some(if a.Some? && a.value > b then a.value else b)
  }

  function Finish(s: State, p: Id, now: Time, kept: bool): State {
    s.(passes := s.passes[p := Handled],
       lastPass := Later(s.lastPass, now),
       lastKept := if kept then Later(s.lastKept, now) else s.lastKept)
  }

  /** The branch a pass takes on what it listed; `None` means it leaves the link alone. */
  function Verdict(link: Link, now: Time): Option<(LinkState, string)> {
    if link.localGateway == "" && link.remoteGateway == "" then Some((Blocked, "NATUnreachable"))
    else if link.lastObservedAt.Some? then
      if now - link.lastObservedAt.value <= STALE_AFTER then None else Some((Disconnected, "ObservationStale"))
    else Some((Connecting, ""))
  }

  /** Every error of the status write is dropped, so a lost race and a refusal both end the pass without a write. */
  function PassItem(s: State, p: Id, refused: bool): State
    requires p in s.passes && LINK in s.db.objects
  {
    match s.passes[p]
    case Listed(snapshot, at) =>
      (match Verdict(snapshot.value, s.clock)
       case None => Finish(s, p, s.clock, true)
       case Some(v) => s.(passes := s.passes[p := Writing(snapshot, at, s.clock, v.0, v.1)]))
    case Writing(snapshot, _, now, state, reason) =>
      var written :=
        if !refused && Matches(s.db, LINK, snapshot)
        then s.(db := Rewrite(s.db, LINK, snapshot.value.(state := state, reason := reason)))
        else s;
      Finish(written, p, now, !refused)
    case Handled => s
  }

  function Next(s: State, step: Step): State
    requires LINK in s.db.objects
  {
    match step
    case Tick(elapsed) => s.(clock := s.clock + elapsed)
    case Observe(o, peerRef, ready, reason, permitted) =>
      if o in s.observers then s else s.(observers := s.observers[o := Observing(peerRef, ready, reason, permitted)])
    case Advance(o, refused) => if o in s.observers then AdvanceObserver(s, o, refused) else s
    case List(p) => if p in s.passes then s else s.(passes := s.passes[p := Listed(s.db.objects[LINK], s.clock)])
    case Item(p, refused) => if p in s.passes then PassItem(s, p, refused) else s
  }

  /** Observers write within `write` of reading the clock; passes reach the link within `reach` of listing it. */
  predicate Timely(s: State, step: Step, write: nat, reach: nat) {
    && (step.Advance? && step.o in s.observers && s.observers[step.o].Stamped? ==> s.clock - s.observers[step.o].now <= write)
    && (step.Item? && step.p in s.passes && s.passes[step.p].Listed? ==> s.clock - s.passes[step.p].at <= reach)
  }

  function Exec(link: Link, schedule: seq<Step>): (s: State)
    ensures LINK in s.db.objects
  {
    if schedule == [] then Init(link) else Next(Exec(link, schedule[..|schedule| - 1]), schedule[|schedule| - 1])
  }

  predicate TimelyRun(link: Link, schedule: seq<Step>, write: nat, reach: nat) {
    schedule == [] ||
    (&& TimelyRun(link, schedule[..|schedule| - 1], write, reach)
     && Timely(Exec(link, schedule[..|schedule| - 1]), schedule[|schedule| - 1], write, reach))
  }

  predicate NoRefusals(schedule: seq<Step>) {
    forall step <- schedule :: step.Item? ==> !step.refused
  }

  predicate FreshAt(s: State, pass: Option<Time>)
    requires LINK in s.db.objects
  {
    s.db.objects[LINK].value.state == Ready && pass.Some? ==> pass.value - s.db.objects[LINK].value.observedAt <= STALE_AFTER
  }

  /** If the link is Ready, it was observed at most 45 seconds before the clock of every finished pass. */
  predicate FreshAtPasses(s: State)
    requires LINK in s.db.objects
  {
    FreshAt(s, s.lastPass)
  }

  /** The same for the finished passes whose write was not refused. */
  predicate FreshAtKept(s: State)
    requires LINK in s.db.objects
  {
    FreshAt(s, s.lastKept)
  }

  /** A freshly created link: never observed and not Ready. */
  predicate New(link: Link) {
    link.lastObservedAt.None? && link.state != Ready && link.observedAt == ZERO_TIME
  }

  // ---------------------------------------------------------------------------------------------
  // The invariant
  // ---------------------------------------------------------------------------------------------

  predicate LinkOk(s: State, link: Link) {
    && link.observedAt <= s.clock
    && (link.state == Ready ==> link.lastObservedAt == Some(WholeSeconds(link.observedAt)))
  }

  /** What is Ready but no longer what was listed at `at` was written after `at`, by an observer whose clock was recent. */
  predicate RecentIfChanged(s: State, snapshot: Stored<Link>, at: Time, write: nat)
    requires LINK in s.db.objects
  {
    !Matches(s.db, LINK, snapshot) && s.db.objects[LINK].value.state == Ready ==> at - s.db.objects[LINK].value.observedAt <= write
  }

  predicate PassOk(s: State, pass: Pass, write: nat, reach: nat)
    requires LINK in s.db.objects
  {
    match pass
    case Listed(snapshot, at) =>
      at <= s.clock && Snapshot(s.db, LINK, snapshot) && LinkOk(s, snapshot.value) && RecentIfChanged(s, snapshot, at, write)
    case Writing(snapshot, at, now, state, _) =>
      && at <= now <= s.clock && now - at <= reach && state != Ready
      && Snapshot(s.db, LINK, snapshot) && RecentIfChanged(s, snapshot, at, write)
    case Handled => true
  }

  predicate ObserverOk(s: State, observer: Observer)
  {
    match observer
    case Fetched(snapshot, _, _) => Snapshot(s.db, LINK, snapshot)
    case Stamped(snapshot, _, _, now) => Snapshot(s.db, LINK, snapshot) && now <= s.clock
    case _ => true
  }

  predicate Inv(s: State, write: nat, reach: nat) {
    && LINK in s.db.objects && Valid(s.db) && LinkOk(s, s.db.objects[LINK].value)
    && (s.lastKept.Some? ==> s.lastKept.value <= s.clock)
    && (forall o <- s.observers :: ObserverOk(s, s.observers[o]))
    && (forall p <- s.passes :: PassOk(s, s.passes[p], write, reach))
    && FreshAtKept(s)
  }

  lemma TickInv(s: State, elapsed: nat, write: nat, reach: nat)
    requires Inv(s, write, reach)
    ensures Inv(Next(s, Tick(elapsed)), write, reach)
  {
    var t := Next(s, Tick(elapsed));
    forall p | p in t.passes ensures PassOk(t, t.passes[p], write, reach) {
      assert PassOk(s, s.passes[p], write, reach);
    }
  }

  /** The link was rewritten: snapshots stay faithful, and a new Ready state is recent for every pass in progress. */
  lemma Rewritten(s: State, t: State, v: Link, write: nat, reach: nat)
    requires Inv(s, write, reach) && t.clock == s.clock && t.db == Rewrite(s.db, LINK, v)
    requires LinkOk(s, v) && (v.state == Ready ==> s.clock - v.observedAt <= write)
    ensures Valid(t.db) && LinkOk(t, t.db.objects[LINK].value)
    ensures forall o <- s.observers :: ObserverOk(t, s.observers[o])
    ensures forall p <- s.passes :: PassOk(t, s.passes[p], write, reach)
  {
    Rewriting(s.db, LINK, v);
    forall o | o in s.observers ensures ObserverOk(t, s.observers[o]) {
      assert ObserverOk(s, s.observers[o]);
    }
    forall p | p in s.passes ensures PassOk(t, s.passes[p], write, reach) {
      assert PassOk(s, s.passes[p], write, reach);
    }
  }

  lemma ObserverInv(s: State, o: Id, refused: bool, write: nat, reach: nat)
    requires Inv(s, write, reach) && o in s.observers && Timely(s, Advance(o, refused), write, reach) && write <= STALE_AFTER
    ensures Inv(AdvanceObserver(s, o, refused), write, reach)
  {
    var t := AdvanceObserver(s, o, refused);
    assert ObserverOk(s, s.observers[o]);
    if t.db == s.db {
      forall p | p in t.passes ensures PassOk(t, t.passes[p], write, reach) {
        assert PassOk(s, s.passes[p], write, reach);
      }
    } else {
      Rewritten(s, t, t.db.objects[LINK].value, write, reach);
    }
  }

  lemma ItemInv(s: State, p: Id, refused: bool, write: nat, reach: nat)
    requires Inv(s, write, reach) && p in s.passes && Timely(s, Item(p, refused), write, reach) && write + reach <= STALE_AFTER
    ensures Inv(PassItem(s, p, refused), write, reach)
  {
    var t := PassItem(s, p, refused);
    assert PassOk(s, s.passes[p], write, reach);
    if t.db == s.db {
      forall q | q in t.passes ensures PassOk(t, t.passes[q], write, reach) {
        if q != p { assert PassOk(s, s.passes[q], write, reach); }
      }
      forall o | o in t.observers ensures ObserverOk(t, t.observers[o]) {
        assert ObserverOk(s, s.observers[o]);
      }
    } else {
      Rewritten(s, t, t.db.objects[LINK].value, write, reach);
    }
  }

  lemma NextInv(s: State, step: Step, write: nat, reach: nat)
    requires Inv(s, write, reach) && Timely(s, step, write, reach) && write + reach <= STALE_AFTER
    ensures Inv(Next(s, step), write, reach)
  {
    var t := Next(s, step);
    match step
    case Tick(elapsed) => TickInv(s, elapsed, write, reach);
    case Advance(o, refused) => if o in s.observers { ObserverInv(s, o, refused, write, reach); }
    case Item(p, refused) => if p in s.passes { ItemInv(s, p, refused, write, reach); }
    case Observe(_, _, _, _, _) =>
      forall p | p in t.passes ensures PassOk(t, t.passes[p], write, reach) {
        assert PassOk(s, s.passes[p], write, reach);
      }
    case List(p) =>
      forall q | q in t.passes ensures PassOk(t, t.passes[q], write, reach) {
        if q in s.passes { assert PassOk(s, s.passes[q], write, reach); }
      }
      forall o | o in t.observers ensures ObserverOk(t, t.observers[o]) {
        assert ObserverOk(s, s.observers[o]);
      }
  }

  lemma {:induction false} Invariant(link: Link, schedule: seq<Step>, write: nat, reach: nat)
    requires New(link) && TimelyRun(link, schedule, write, reach) && write + reach <= STALE_AFTER
    ensures Inv(Exec(link, schedule), write, reach)
  {
    if schedule != [] {
      Invariant(link, schedule[..|schedule| - 1], write, reach);
      NextInv(Exec(link, schedule[..|schedule| - 1]), schedule[|schedule| - 1], write, reach);
    }
  }

  // ---------------------------------------------------------------------------------------------
  // Theorems
  // ---------------------------------------------------------------------------------------------

  /** Without refusals every finished pass counts as kept. */
  lemma {:induction false} AllKept(link: Link, schedule: seq<Step>)
    requires NoRefusals(schedule)
    ensures Exec(link, schedule).lastPass == Exec(link, schedule).lastKept
  {
    if schedule != [] {
      AllKept(link, schedule[..|schedule| - 1]);
    }
  }

  lemma Extend(link: Link, schedule: seq<Step>, step: Step, write: nat, reach: nat) returns (longer: seq<Step>)
    requires TimelyRun(link, schedule, write, reach) && Timely(Exec(link, schedule), step, write, reach)
    ensures TimelyRun(link, longer, write, reach)
    ensures Exec(link, longer) == Next(Exec(link, schedule), step)
    ensures NoRefusals(schedule) && !(step.Item? && step.refused) ==> NoRefusals(longer)
  {
    longer := schedule + [step];
    assert longer[..|schedule|] == schedule;
  }

  /** Observer 0 has stamped its observation at clock 1 and, `write` later, pass 0 has listed the unobserved link. */
  predicate AboutToRace(s: State, link: Link, write: nat)
    requires LINK in s.db.objects
  {
    var listed := s.db.objects[LINK];
    && s.clock == 1 + write && s.lastPass.None? && s.lastKept.None? && listed.value == link && listed.version <= s.db.revision
    && 0 in s.observers && s.observers[0] == Stamped(listed, true, "", 1)
    && 0 in s.passes && s.passes[0] == Listed(listed, 1 + write)
  }

  lemma RaceBegins(link: Link, write: nat, reach: nat) returns (schedule: seq<Step>)
    requires New(link)
    ensures TimelyRun(link, schedule, write, reach) && NoRefusals(schedule) && AboutToRace(Exec(link, schedule), link, write)
  {
    schedule := [];
    schedule := Extend(link, schedule, Observe(0, link.peerRef, true, "", true), write, reach);
    schedule := Extend(link, schedule, Advance(0, false), write, reach);
    schedule := Extend(link, schedule, Advance(0, false), write, reach);
    schedule := Extend(link, schedule, Tick(write), write, reach);
    schedule := Extend(link, schedule, List(0), write, reach);
  }

  /** The observation was written after the listing, and the pass reaches the link at `1 + write + reach`. */
  predicate RaceLost(s: State, link: Link, write: nat, reach: nat)
    requires LINK in s.db.objects
  {
    && s.clock == 1 + write + reach && s.lastPass.None? && s.lastKept.None?
    && s.db.objects[LINK].value.state == Ready && s.db.objects[LINK].value.observedAt == 1
    && 0 in s.passes && s.passes[0].Listed? && s.passes[0].snapshot.value == link && s.passes[0].at == 1 + write
    && !Matches(s.db, LINK, s.passes[0].snapshot)
  }

  lemma RaceIsLost(link: Link, write: nat, reach: nat) returns (schedule: seq<Step>)
    requires New(link)
    ensures TimelyRun(link, schedule, write, reach) && NoRefusals(schedule) && RaceLost(Exec(link, schedule), link, write, reach)
  {
    schedule := RaceBegins(link, write, reach);
    schedule := Extend(link, schedule, Advance(0, false), write, reach);
    schedule := Extend(link, schedule, Tick(reach), write, reach);
  }

  /**
   The first failing family: an observer stamps its observation and writes it `write` later, just after a pass has
   listed the link; the pass decides `reach` later, loses the version race and gives up, leaving the old observation Ready.
   */
  lemma LateObservation(link: Link, write: nat, reach: nat) returns (schedule: seq<Step>)
    requires New(link) && write + reach > STALE_AFTER
    ensures TimelyRun(link, schedule, write, reach) && NoRefusals(schedule)
    ensures !FreshAtPasses(Exec(link, schedule)) && !FreshAtKept(Exec(link, schedule))
  {
    schedule := RaceIsLost(link, write, reach);
    schedule := Extend(link, schedule, Item(0, false), write, reach);
    schedule := Extend(link, schedule, Item(0, false), write, reach);
  }

  /** The link is Ready, was observed a minute ago, and no pass has begun. */
  predicate Stale(s: State)
    requires LINK in s.db.objects
  {
    var v := s.db.objects[LINK].value;
    && s.passes == map[] && v.state == Ready && v.observedAt == 1 && v.lastObservedAt == Some(WholeSeconds(1))
    && s.clock == 1 + 60 * SECOND
  }

  lemma BecomesStale(link: Link, write: nat, reach: nat) returns (schedule: seq<Step>)
    requires New(link)
    ensures TimelyRun(link, schedule, write, reach) && Stale(Exec(link, schedule))
  {
    schedule := [];
    schedule := Extend(link, schedule, Observe(0, link.peerRef, true, "", true), write, reach);
    schedule := Extend(link, schedule, Advance(0, false), write, reach);
    schedule := Extend(link, schedule, Advance(0, false), write, reach);
    schedule := Extend(link, schedule, Advance(0, false), write, reach);
    schedule := Extend(link, schedule, Tick(60 * SECOND), write, reach);
  }

  /** The second failing family: with no delay at all, a pass whose stale-marking write is refused drops the error. */
  lemma RefusedWrite(link: Link, write: nat, reach: nat) returns (schedule: seq<Step>)
    requires New(link)
    ensures TimelyRun(link, schedule, write, reach) && !FreshAtPasses(Exec(link, schedule))
  {
    schedule := BecomesStale(link, write, reach);
    schedule := Extend(link, schedule, List(0), write, reach);
    schedule := Extend(link, schedule, Item(0, false), write, reach);
    schedule := Extend(link, schedule, Item(0, true), write, reach);
  }

  /**
   A Ready link was observed at most 45 seconds before the clock of every finished pass, in every run, exactly
   when the API server refuses no pass its write and the observers' write delay and the passes' reach delay together
   stay within 45 seconds.
   */
  lemma FreshnessIff(link: Link, write: nat, reach: nat, refusals: bool)
    requires New(link)
    ensures (forall schedule | TimelyRun(link, schedule, write, reach) && (refusals || NoRefusals(schedule)) ::
               FreshAtPasses(Exec(link, schedule)))
            <==> !refusals && write + reach <= STALE_AFTER
  {
    if !refusals && write + reach <= STALE_AFTER {
      forall schedule | TimelyRun(link, schedule, write, reach) && NoRefusals(schedule) ensures FreshAtPasses(Exec(link, schedule)) {
        Invariant(link, schedule, write, reach);
        AllKept(link, schedule);
      }
    } else if refusals {
      var schedule := RefusedWrite(link, write, reach);
    } else {
      var schedule := LateObservation(link, write, reach);
    }
  }

  /** Refusals allowed, the same holds before every pass whose write was not refused, exactly when the delays stay within 45 seconds. */
  lemma KeptFreshnessIff(link: Link, write: nat, reach: nat)
    requires New(link)
    ensures (forall schedule | TimelyRun(link, schedule, write, reach) :: FreshAtKept(Exec(link, schedule)))
            <==> write + reach <= STALE_AFTER
  {
    if write + reach <= STALE_AFTER {
      forall schedule | TimelyRun(link, schedule, write, reach) ensures FreshAtKept(Exec(link, schedule)) {
        Invariant(link, schedule, write, reach);
      }
    } else {
      var schedule := LateObservation(link, write, reach);
    }
  }

  /** With unrefused passes at most `period` apart, no Ready link is older than 45 seconds plus the period. */
  lemma NoReadyLinkIsOld(link: Link, schedule: seq<Step>, write: nat, reach: nat, period: nat)
    requires New(link) && TimelyRun(link, schedule, write, reach) && write + reach <= STALE_AFTER
    requires var s := Exec(link, schedule); s.lastKept.Some? && s.clock - s.lastKept.value <= period
    ensures var s := Exec(link, schedule);
            s.db.objects[LINK].value.state == Ready ==> s.clock - s.db.objects[LINK].value.observedAt <= STALE_AFTER + period
  {
    Invariant(link, schedule, write, reach);
  }
}
