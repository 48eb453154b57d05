/** What is written to a link: over every schedule, and by one handler or one pass that nobody interrupts. */
module LinkWrites {
  import opened Values
  import opened ApiServer
  import opened Links

  /** The link after an observation at `now`: what it names stays, what it reports is replaced. */
  function AsObserved(v: Link, ready: bool, reason: string, now: Time): Link {
    Link(v.peerRef, v.localGateway, v.remoteGateway, if ready then Ready else Disconnected, reason, Some(WholeSeconds(now)), now)
  }

  predicate Unreachable(v: Link) {
    v.localGateway == "" && v.remoteGateway == ""
  }

  /** The link after a pass that wrote at clock `now`. */
  predicate AsPassed(v: Link, w: Link, now: Time) {
    && w == Link(v.peerRef, v.localGateway, v.remoteGateway, w.state, w.reason, v.lastObservedAt, v.observedAt)
    && (Unreachable(v) ==> w.state == Blocked && w.reason == "NATUnreachable")
    && (!Unreachable(v) && v.lastObservedAt.None? ==> w.state == Connecting && w.reason == "")
    && (!Unreachable(v) && v.lastObservedAt.Some? ==>
          now - v.lastObservedAt.value > 45_000_000_000 && w.state == Disconnected && w.reason == "ObservationStale")
  }

  // ---------------------------------------------------------------------------------------------
  // Over every schedule
  // ---------------------------------------------------------------------------------------------

  /** The schedule opens handler `o` for this observation. */
  predicate Opened(schedule: seq<Step>, o: Id, peerRef: string, ready: bool, reason: string, permitted: bool) {
    Observe(o, peerRef, ready, reason, permitted) in schedule
  }

  predicate ObserverTold(s: State, schedule: seq<Step>, o: Id)
    requires o in s.observers
  {
    match s.observers[o]
    case Observing(peerRef, ready, reason, permitted) => Opened(schedule, o, peerRef, ready, reason, permitted)
    case Fetched(snapshot, ready, reason) =>
      Snapshot(s.db, LINK, snapshot) && Opened(schedule, o, snapshot.value.peerRef, ready, reason, true)
    case Stamped(snapshot, ready, reason, now) =>
      now <= s.clock && Snapshot(s.db, LINK, snapshot) && Opened(schedule, o, snapshot.value.peerRef, ready, reason, true)
    case Observed => true
  }

  predicate PassTold(s: State, p: Id)
    requires p in s.passes
  {
    match s.passes[p]
    case Listed(snapshot, _) => Snapshot(s.db, LINK, snapshot)
    case Writing(snapshot, _, now, state, reason) =>
      && now <= s.clock && Snapshot(s.db, LINK, snapshot)
      && AsPassed(snapshot.value, snapshot.value.(state := state, reason := reason), now)
    case Handled => true
  }

  predicate Told(s: State, schedule: seq<Step>) {
    && LINK in s.db.objects && Valid(s.db)
    && (forall o <- s.observers :: ObserverTold(s, schedule, o))
    && (forall p <- s.passes :: PassTold(s, p))
  }

  lemma LinkEvolves(s: State, step: Step)
    requires LINK in s.db.objects && Valid(s.db)
    ensures var t := Next(s, step); Valid(t.db) && Evolves(s.db, t.db) && s.clock <= t.clock
  {
    hide Verdict, Later;
  }

  lemma OpenedNow(schedule: seq<Step>, step: Step)
    requires step.Observe?
    ensures Opened(schedule + [step], step.o, step.peerRef, step.ready, step.reason, step.permitted)
  {
    assert (schedule + [step])[|schedule|] == step;
  }

  lemma OpenedStays(schedule: seq<Step>, step: Step, o: Id, peerRef: string, ready: bool, reason: string, permitted: bool)
    requires Opened(schedule, o, peerRef, ready, reason, permitted)
    ensures Opened(schedule + [step], o, peerRef, ready, reason, permitted)
  {
  }

  lemma ObserverLasts(s: State, t: State, schedule: seq<Step>, step: Step, o: Id)
    requires o in s.observers && o in t.observers && t.observers[o] == s.observers[o] && ObserverTold(s, schedule, o)
    requires Evolves(s.db, t.db) && s.clock <= t.clock
    ensures ObserverTold(t, schedule + [step], o)
  {
    hide Opened, Snapshot, Evolves;
    match s.observers[o]
    case Observing(peerRef, ready, reason, permitted) => OpenedStays(schedule, step, o, peerRef, ready, reason, permitted);
    case Fetched(snapshot, ready, reason) =>
      SnapshotSurvives(s.db, t.db, LINK, snapshot);
      OpenedStays(schedule, step, o, snapshot.value.peerRef, ready, reason, true);
    case Stamped(snapshot, ready, reason, _) =>
      SnapshotSurvives(s.db, t.db, LINK, snapshot);
      OpenedStays(schedule, step, o, snapshot.value.peerRef, ready, reason, true);
    case Observed =>
  }

  lemma ObserverAdvances(s: State, schedule: seq<Step>, o: Id, refused: bool)
    requires Told(s, schedule) && o in s.observers
    ensures ObserverTold(AdvanceObserver(s, o, refused), schedule, o)
  {
    hide Opened;
    assert ObserverTold(s, schedule, o);
    match s.observers[o]
    case Observing(peerRef, ready, reason, permitted) =>
    case Fetched(snapshot, ready, reason) =>
    case Stamped(snapshot, ready, reason, _) =>
    case Observed =>
  }

  lemma ObserverStep(s: State, schedule: seq<Step>, step: Step, o: Id)
    requires Told(s, schedule) && o in Next(s, step).observers
    ensures ObserverTold(Next(s, step), schedule + [step], o)
  {
    hide PassItem, Opened, AdvanceObserver;
    LinkEvolves(s, step);
    var t := Next(s, step);
    if step.Advance? && step.o == o {
      ObserverAdvances(s, schedule, o, step.refused);
      ObserverLasts(t, t, schedule, step, o);
    } else if o in s.observers {
      OthersKeep(s, step, o);
      ObserverLasts(s, t, schedule, step, o);
    } else {
      OnlyOpened(s, step, o);
      OpenedNow(schedule, step);
    }
  }

  lemma OthersKeep(s: State, step: Step, o: Id)
    requires LINK in s.db.objects && o in s.observers && !(step.Advance? && step.o == o)
    ensures o in Next(s, step).observers && Next(s, step).observers[o] == s.observers[o]
  {
    hide Verdict, Later;
  }

  lemma OnlyOpened(s: State, step: Step, o: Id)
    requires LINK in s.db.objects && o !in s.observers && o in Next(s, step).observers
    ensures step.Observe? && step.o == o && Next(s, step).observers[o] == Observing(step.peerRef, step.ready, step.reason, step.permitted)
  {
    hide Verdict, Later;
  }

  lemma PassLasts(s: State, t: State, p: Id)
    requires p in s.passes && p in t.passes && t.passes[p] == s.passes[p] && PassTold(s, p) && Evolves(s.db, t.db) && s.clock <= t.clock
    ensures PassTold(t, p)
  {
    hide AsPassed;
  }

  lemma PassAdvances(s: State, schedule: seq<Step>, p: Id, refused: bool)
    requires Told(s, schedule) && p in s.passes
    ensures PassTold(PassItem(s, p, refused), p)
  {
    assert PassTold(s, p);
  }

  lemma PassesKeep(s: State, step: Step, p: Id)
    requires LINK in s.db.objects && p in Next(s, step).passes && !(step.Item? && step.p == p)
    ensures if p in s.passes then Next(s, step).passes[p] == s.passes[p] else Next(s, step).passes[p] == Listed(s.db.objects[LINK], s.clock) && Next(s, step).db == s.db
  {
    hide Verdict, Later;
  }

  lemma PassStep(s: State, schedule: seq<Step>, step: Step, p: Id)
    requires Told(s, schedule) && p in Next(s, step).passes
    ensures PassTold(Next(s, step), p)
  {
    hide PassItem, AdvanceObserver, AsPassed;
    LinkEvolves(s, step);
    if step.Item? && step.p == p {
      if p in s.passes { PassAdvances(s, schedule, p, step.refused); }
    } else {
      PassesKeep(s, step, p);
      if p in s.passes { PassLasts(s, Next(s, step), p); }
    }
  }

  lemma {:induction false} RunTold(link: Link, schedule: seq<Step>)
    ensures Told(Exec(link, schedule), schedule)
  {
    if schedule != [] {
      var before, step := schedule[..|schedule| - 1], schedule[|schedule| - 1];
      assert schedule == before + [step];
      var s, t := Exec(link, before), Exec(link, schedule);
      RunTold(link, before);
      LinkEvolves(s, step);
      forall o | o in t.observers ensures ObserverTold(t, schedule, o) { ObserverStep(s, before, step, o); }
      forall p | p in t.passes ensures PassTold(t, p) { PassStep(s, before, step, p); }
    }
  }

  /** An observation was written: one the schedule opened, permitted, for the peer the link names. */
  ghost predicate WroteObservation(schedule: seq<Step>, o: Id, v: Link, w: Link, clock: Time) {
    exists ready, reason, now: Time :: now <= clock && Opened(schedule, o, v.peerRef, ready, reason, true) && w == AsObserved(v, ready, reason, now)
  }

  /** A pass wrote what it makes of the link at a clock it read. */
  ghost predicate WrotePass(v: Link, w: Link, clock: Time) {
    exists now: Time :: now <= clock && AsPassed(v, w, now)
  }

  lemma ObservationWrites(s: State, schedule: seq<Step>, o: Id, refused: bool)
    requires Told(s, schedule) && o in s.observers && AdvanceObserver(s, o, refused).db != s.db
    ensures !refused && WroteObservation(schedule, o, s.db.objects[LINK].value, AdvanceObserver(s, o, refused).db.objects[LINK].value, s.clock)
  {
    hide Opened;
    assert ObserverTold(s, schedule, o);
    var pc := s.observers[o];
    assert pc.Stamped? && pc.snapshot == s.db.objects[LINK];
    assert AdvanceObserver(s, o, refused).db.objects[LINK].value == AsObserved(s.db.objects[LINK].value, pc.ready, pc.reason, pc.now);
  }

  lemma PassWrites(s: State, schedule: seq<Step>, p: Id, refused: bool)
    requires Told(s, schedule) && p in s.passes && PassItem(s, p, refused).db != s.db
    ensures !refused && WrotePass(s.db.objects[LINK].value, PassItem(s, p, refused).db.objects[LINK].value, s.clock)
  {
    hide Verdict, AsPassed;
    assert PassTold(s, p);
    assert AsPassed(s.db.objects[LINK].value, PassItem(s, p, refused).db.objects[LINK].value, s.passes[p].now);
  }

  lemma OnlyTheseWrite(s: State, step: Step)
    requires LINK in s.db.objects && Next(s, step).db != s.db
    ensures (step.Advance? && step.o in s.observers && Next(s, step) == AdvanceObserver(s, step.o, step.refused))
            || (step.Item? && step.p in s.passes && Next(s, step) == PassItem(s, step.p, step.refused))
  {
    hide AdvanceObserver, PassItem;
  }

  /** Every write to the link is an observation for it or a pass over it, and changes it as these do. */
  lemma WritesAreExact(link: Link, schedule: seq<Step>, step: Step)
    requires Exec(link, schedule + [step]).db != Exec(link, schedule).db
    ensures var s, t := Exec(link, schedule), Exec(link, schedule + [step]);
            var v, w := s.db.objects[LINK].value, t.db.objects[LINK].value;
            || (step.Advance? && !step.refused && WroteObservation(schedule, step.o, v, w, s.clock))
            || (step.Item? && !step.refused && WrotePass(v, w, s.clock))
  {
    hide Next, AdvanceObserver, PassItem, Told, WroteObservation, WrotePass;
    assert (schedule + [step])[..|schedule|] == schedule;
    var s := Exec(link, schedule);
    RunTold(link, schedule);
    OnlyTheseWrite(s, step);
    if step.Advance? {
      ObservationWrites(s, schedule, step.o, step.refused);
    } else {
      PassWrites(s, schedule, step.p, step.refused);
    }
  }

  // ---------------------------------------------------------------------------------------------
  // Alone
  // ---------------------------------------------------------------------------------------------

  /** A handler that nobody interrupts writes the observation if it is permitted and for the peer the link names, and else nothing. */
  lemma ObservationAlone(s: State, o: Id, peerRef: string, ready: bool, reason: string, permitted: bool)
    requires LINK in s.db.objects && o !in s.observers
    ensures var s1 := Next(s, Observe(o, peerRef, ready, reason, permitted));
            var s2 := Next(s1, Advance(o, false));
            var s3 := Next(s2, Advance(o, false));
            var s4 := Next(s3, Advance(o, false));
            var v := s.db.objects[LINK].value;
            && s4.db == (if permitted && v.peerRef == peerRef then Rewrite(s.db, LINK, AsObserved(v, ready, reason, s.clock)) else s.db)
            && s4.observers == s.observers[o := Observed] && s4.passes == s.passes && s4.clock == s.clock
  {
    var s1 := Next(s, Observe(o, peerRef, ready, reason, permitted));
    var s2 := Next(s1, Advance(o, false));
    if permitted && s.db.objects[LINK].value.peerRef == peerRef {
      assert s2.observers[o] == Fetched(s.db.objects[LINK], ready, reason);
    } else {
      assert s2.observers[o] == Observed;
    }
  }

  /** A pass that nobody interrupts leaves alone a reachable link observed within 45 seconds, and writes any other. */
  lemma PassAlone(s: State, p: Id)
    requires LINK in s.db.objects && p !in s.passes
    ensures var s3 := Next(Next(Next(s, List(p)), Item(p, false)), Item(p, false));
            var v, w := s.db.objects[LINK].value, s3.db.objects[LINK].value;
            && (if !Unreachable(v) && v.lastObservedAt.Some? && s.clock - v.lastObservedAt.value <= 45_000_000_000
                then s3.db == s.db
                else s3.db == Rewrite(s.db, LINK, w) && AsPassed(v, w, s.clock))
            && s3.passes == s.passes[p := Handled] && s3.observers == s.observers && s3.clock == s.clock
  {
    var s1 := Next(s, List(p));
    assert s1.passes[p] == Listed(s.db.objects[LINK], s.clock);
    var s2 := Next(s1, Item(p, false));
    assert s2.db == s.db;
  }
}
