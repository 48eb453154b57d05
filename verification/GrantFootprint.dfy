/**
 What a grant has left in the agent's cluster after any series of reconciliations: exactly its current plan, or
 nothing after a retirement, unless an earlier generation wrote where the current one does not look.
 */
module GrantFootprint {
  import opened Values
  import opened Grants

  /** One reconciliation of an instruction: the writes that took effect, or a retirement and the deletions that failed. */
  datatype Round =
    | Applied(i: Instruction, done: seq<Put>)
    | Withdrawn(i: Instruction, kept: set<Target>)

  /** Reconciliations of instructions that share the object name `name`, as `ReconcileGrant` leaves them. */
  predicate Rounds(rounds: seq<Round>, name: string) {
    forall r <- rounds ::
      && GrantResource(r.i.name) == name
      && (match r case Applied(i, done) => done <= Plan(i) case Withdrawn(i, kept) => kept <= Drops(i))
  }

  function Played(c: Cluster, r: Round): Cluster {
    match r
    case Applied(_, done) => Apply(c, done)
    case Withdrawn(i, kept) => c - (Drops(i) - kept)
  }

  function After(c: Cluster, rounds: seq<Round>): Cluster {
    if rounds == [] then c else Played(After(c, rounds[..|rounds| - 1]), rounds[|rounds| - 1])
  }

  /** The objects called `name`. */
  function Held(c: Cluster, name: string): set<Target> {
    set t | t in c && t.name == name
  }

  function Targets(puts: seq<Put>): set<Target> {
    set p | p in puts :: p.target
  }

  /** The plan of `i` reaches target `t`: every account, cluster objects for scope Cluster, a namespace's objects if it is named. */
  predicate Reaches(i: Instruction, t: Target) {
    match t
    case Account(_) => true
    case ClusterRole(_) => i.scope == "Cluster"
    case ClusterBinding(_) => i.scope == "Cluster"
    case Role(ns, _) => Namespaced(i.scope) && ns in i.namespaces
    case Binding(ns, _) => Namespaced(i.scope) && ns in i.namespaces
  }

  /** A retirement of `i` reaches target `t`: everything but the objects of namespaces it does not name. */
  predicate Clears(i: Instruction, t: Target) {
    match t
    case Role(ns, _) => ns in i.namespaces
    case Binding(ns, _) => ns in i.namespaces
    case _ => true
  }

  lemma {:induction false} InPerNamespace(name: string, rules: seq<Rule>, namespaces: seq<string>, t: Target)
    ensures t in Targets(PerNamespace(name, rules, namespaces)) <==>
            (t.Role? || t.Binding?) && t.name == name && t.namespace in namespaces
    decreases |namespaces|
  {
    var puts := PerNamespace(name, rules, namespaces);
    if namespaces != [] {
      var k := |namespaces| - 1;
      var last := namespaces[k];
      InPerNamespace(name, rules, namespaces[..k], t);
      TargetsOfSum(PerNamespace(name, rules, namespaces[..k]), [Put(Role(last, name), rules), Put(Binding(last, name), [])]);
      TargetsOfPair(Put(Role(last, name), rules), Put(Binding(last, name), []));
      assert namespaces == namespaces[..k] + [last];
    }
  }

  lemma TargetsOfSum(a: seq<Put>, b: seq<Put>)
    ensures Targets(a + b) == Targets(a) + Targets(b)
  {
  }

  lemma TargetsOfPair(a: Put, b: Put)
    ensures Targets([a, b]) == {a.target, b.target} && Targets([a]) == {a.target}
  {
    assert a in [a, b] && b in [a, b] && a in [a];
  }

  lemma PlanReaches(i: Instruction, t: Target)
    ensures t in Targets(Plan(i)) <==> t.name == GrantResource(i.name) && Reaches(i, t)
  {
    hide GrantResource, PerNamespace, Targets;
    var name := GrantResource(i.name);
    var first := Put(Account(name), []);
    TargetsOfPair(first, first);
    if i.scope == "Cluster" {
      TargetsOfPair(Put(ClusterRole(name), i.rules), Put(ClusterBinding(name), []));
      TargetsOfSum([first], [Put(ClusterRole(name), i.rules), Put(ClusterBinding(name), [])]);
    } else if Namespaced(i.scope) {
      InPerNamespace(name, i.rules, i.namespaces, t);
      TargetsOfSum([first], PerNamespace(name, i.rules, i.namespaces));
    } else {
      TargetsOfSum([first], []);
      assert Targets([]) == {} by { TargetsOfSum([], []); NoTargets(); }
    }
  }

  lemma NoTargets()
    ensures Targets([]) == {}
  {
  }

  lemma DropsClear(i: Instruction, t: Target)
    ensures t in Drops(i) <==> t.name == GrantResource(i.name) && Clears(i, t)
  {
    hide GrantResource;
  }

  lemma {:induction false} ApplyKeys(c: Cluster, puts: seq<Put>)
    ensures Apply(c, puts).Keys == c.Keys + Targets(puts)
    decreases |puts|
  {
    if puts != [] {
      var k := |puts| - 1;
      ApplyKeys(c, puts[..k]);
      assert puts == puts[..k] + [puts[k]];
      TargetsOfSum(puts[..k], [puts[k]]);
      TargetsOfPair(puts[k], puts[k]);
    }
  }

  /** A written object holds the rules of one of the puts for it. */
  lemma {:induction false} ApplyValue(c: Cluster, puts: seq<Put>, t: Target)
    requires t in Targets(puts)
    ensures t in Apply(c, puts) && exists k: nat | k < |puts| :: puts[k].target == t && Apply(c, puts)[t] == puts[k].rules
    decreases |puts|
  {
    var k := |puts| - 1;
    if puts[k].target != t {
      assert puts == puts[..k] + [puts[k]];
      TargetsOfSum(puts[..k], [puts[k]]);
      TargetsOfPair(puts[k], puts[k]);
      ApplyValue(c, puts[..k], t);
    }
  }

  function RulesFor(i: Instruction, t: Target): seq<Rule> {
    if t.Role? || t.ClusterRole? then i.rules else []
  }

  lemma PlanValue(c: Cluster, i: Instruction, t: Target)
    requires t in Targets(Plan(i))
    ensures t in Apply(c, Plan(i)) && Apply(c, Plan(i))[t] == RulesFor(i, t)
  {
    hide Plan, Apply, Targets;
    ApplyValue(c, Plan(i), t);
    var k: nat :| k < |Plan(i)| && Plan(i)[k].target == t && Apply(c, Plan(i))[t] == Plan(i)[k].rules;
    PlanWithin(i, k);
  }

  // ---------------------------------------------------------------------------------------------
  // The footprint of a series of rounds
  // ---------------------------------------------------------------------------------------------

  function Footprint(rounds: seq<Round>): set<Target> {
    if rounds == [] then {}
    else
      var before := Footprint(rounds[..|rounds| - 1]);
      match rounds[|rounds| - 1]
      case Applied(_, done) => before + Targets(done)
      case Withdrawn(i, kept) => before - (Drops(i) - kept)
  }

  lemma HeldAfterPuts(c: Cluster, name: string, puts: seq<Put>)
    requires forall t <- Targets(puts) :: t.name == name
    ensures Held(Apply(c, puts), name) == Held(c, name) + Targets(puts)
  {
    hide Apply, Targets;
    ApplyKeys(c, puts);
  }

  lemma DoneTargets(i: Instruction, done: seq<Put>)
    requires done <= Plan(i)
    ensures forall t <- Targets(done) :: t.name == GrantResource(i.name) && Reaches(i, t)
  {
    hide Plan, GrantResource;
    forall t | t in Targets(done) ensures t.name == GrantResource(i.name) && Reaches(i, t) {
      var p :| p in done && p.target == t;
      assert p in Plan(i);
      PlanReaches(i, t);
    }
  }

  /** What bears the name is exactly the footprint. */
  lemma {:induction false} HeldIsFootprint(c: Cluster, rounds: seq<Round>, name: string)
    requires Held(c, name) == {} && Rounds(rounds, name)
    ensures Held(After(c, rounds), name) == Footprint(rounds)
  {
    hide Targets, Plan, Apply, Drops, GrantResource;
    if rounds != [] {
      var before, r := rounds[..|rounds| - 1], rounds[|rounds| - 1];
      HeldIsFootprint(c, before, name);
      assert r in rounds;
      match r
      case Applied(i, done) =>
        DoneTargets(i, done);
        HeldAfterPuts(After(c, before), name, done);
      case Withdrawn(_, _) =>
    }
  }

  /** Round `j` wrote target `t`, and no later retirement deleted it. */
  predicate Left(rounds: seq<Round>, j: nat, t: Target) {
    && j < |rounds| && rounds[j].Applied? && t in Targets(rounds[j].done)
    && forall k | j < k < |rounds| && rounds[k].Withdrawn? :: t !in Drops(rounds[k].i) - rounds[k].kept
  }

  lemma {:induction false} FootprintIsLeft(rounds: seq<Round>, t: Target)
    ensures t in Footprint(rounds) <==> exists j: nat :: Left(rounds, j, t)
  {
    hide Targets, Drops;
    if rounds != [] {
      var n := |rounds| - 1;
      var before := rounds[..n];
      FootprintIsLeft(before, t);
      var deleted := rounds[n].Withdrawn? && t in Drops(rounds[n].i) - rounds[n].kept;
      forall j: nat | j < n ensures Left(rounds, j, t) <==> Left(before, j, t) && !deleted {
        assert forall k | 0 <= k < n :: rounds[k] == before[k];
      }
      assert Left(rounds, n, t) <==> rounds[n].Applied? && t in Targets(rounds[n].done);
      if t in Footprint(before) && !deleted {
        var j: nat :| Left(before, j, t);
        assert Left(rounds, j, t);
      }
    }
  }

  /** Everything the rounds left behind is where `wanted` says. */
  ghost predicate AllLeft(rounds: seq<Round>, wanted: Target -> bool) {
    forall j: nat, t | Left(rounds, j, t) :: wanted(t)
  }

  lemma FootprintWanted(rounds: seq<Round>, wanted: Target -> bool)
    ensures (forall t <- Footprint(rounds) :: wanted(t)) <==> AllLeft(rounds, wanted)
  {
    hide Footprint, Left;
    forall t ensures t in Footprint(rounds) <==> exists j: nat :: Left(rounds, j, t) {
      FootprintIsLeft(rounds, t);
    }
  }

  // ---------------------------------------------------------------------------------------------
  // Theorems
  // ---------------------------------------------------------------------------------------------

  /** The objects called after the grant are exactly the plan of `i`, with its rules. */
  ghost predicate ExactlyPlanned(c: Cluster, i: Instruction) {
    && Held(c, GrantResource(i.name)) == Targets(Plan(i))
    && forall t <- Targets(Plan(i)) :: t in c && c[t] == RulesFor(i, t)
  }

  /**
   After a successful reconciliation, whatever earlier rounds wrote in part or in full and however far they retired, the
   cluster holds exactly the current plan if and only if they left nothing outside the current scope and namespaces.
   */
  lemma SuccessIsExact(c: Cluster, earlier: seq<Round>, i: Instruction)
    requires Held(c, GrantResource(i.name)) == {} && Rounds(earlier, GrantResource(i.name))
    ensures ExactlyPlanned(Played(After(c, earlier), Applied(i, Plan(i))), i) <==> AllLeft(earlier, t => Reaches(i, t))
  {
    hide GrantResource, Plan, Apply, Targets, After, Footprint;
    var name, before := GrantResource(i.name), After(c, earlier);
    HeldIsFootprint(c, earlier, name);
    FootprintWanted(earlier, t => Reaches(i, t));
    DoneTargets(i, Plan(i));
    HeldAfterPuts(before, name, Plan(i));
    forall t | t in Targets(Plan(i)) ensures t in Apply(before, Plan(i)) && Apply(before, Plan(i))[t] == RulesFor(i, t) {
      PlanValue(before, i, t);
    }
    forall t | t in Footprint(earlier) ensures t.name == name && (t in Targets(Plan(i)) <==> Reaches(i, t)) {
      assert t in Held(before, name);
      PlanReaches(i, t);
    }
  }

  /** After a retirement without failed deletions nothing is left if and only if earlier rounds left nothing in a namespace the retired instruction does not name. */
  lemma RetirementIsComplete(c: Cluster, earlier: seq<Round>, i: Instruction)
    requires Held(c, GrantResource(i.name)) == {} && Rounds(earlier, GrantResource(i.name))
    ensures Held(Played(After(c, earlier), Withdrawn(i, {})), GrantResource(i.name)) == {} <==> AllLeft(earlier, t => Clears(i, t))
  {
    hide GrantResource, Plan, Apply, Targets, After, Footprint, Drops;
    var name, before := GrantResource(i.name), After(c, earlier);
    HeldIsFootprint(c, earlier, name);
    FootprintWanted(earlier, t => Clears(i, t));
    var after := Played(before, Withdrawn(i, {}));
    assert Drops(i) - {} == Drops(i);
    assert Held(after, name) == Footprint(earlier) - Drops(i);
    forall t | t in Footprint(earlier) ensures t.name == name && (t in Drops(i) <==> Clears(i, t)) {
      assert t in Held(before, name);
      DropsClear(i, t);
    }
    if !AllLeft(earlier, t => Clears(i, t)) {
      var t :| t in Footprint(earlier) && !Clears(i, t);
      assert t in Held(after, name);
    }
  }

  predicate FullyApplied(rounds: seq<Round>) {
    forall r <- rounds :: r.Applied? && r.done == Plan(r.i)
  }

  /** Generation `i` names every scope and namespace that `earlier` named. */
  predicate Includes(i: Instruction, earlier: Instruction) {
    && (earlier.scope == "Cluster" ==> i.scope == "Cluster")
    && (Namespaced(earlier.scope) && earlier.namespaces != [] ==>
          Namespaced(i.scope) && forall ns <- earlier.namespaces :: ns in i.namespaces)
  }

  lemma PlanTargets(earlier: Instruction)
    ensures forall t :: t in Targets(Plan(earlier)) <==> t.name == GrantResource(earlier.name) && Reaches(earlier, t)
  {
    hide GrantResource, Plan, Targets, Reaches;
    forall t ensures t in Targets(Plan(earlier)) <==> t.name == GrantResource(earlier.name) && Reaches(earlier, t) { PlanReaches(earlier, t); }
  }

  lemma PlanReached(i: Instruction, earlier: Instruction)
    ensures (forall t <- Targets(Plan(earlier)) :: Reaches(i, t)) <==> Includes(i, earlier)
  {
    hide GrantResource, Plan, Targets;
    var name := GrantResource(earlier.name);
    PlanTargets(earlier);
    if forall t <- Targets(Plan(earlier)) :: Reaches(i, t) {
      assert earlier.scope == "Cluster" ==> ClusterRole(name) in Targets(Plan(earlier));
      if Namespaced(earlier.scope) && earlier.namespaces != [] {
        forall ns | ns in earlier.namespaces ensures Namespaced(i.scope) && ns in i.namespaces {
          assert Role(ns, name) in Targets(Plan(earlier));
        }
        assert earlier.namespaces[0] in earlier.namespaces;
      }
    }
  }

  lemma PlanCleared(i: Instruction, earlier: Instruction)
    ensures (forall t <- Targets(Plan(earlier)) :: Clears(i, t)) <==>
            (Namespaced(earlier.scope) ==> forall ns <- earlier.namespaces :: ns in i.namespaces)
  {
    hide GrantResource, Plan, Targets;
    var name := GrantResource(earlier.name);
    PlanTargets(earlier);
    if Namespaced(earlier.scope) {
      forall ns | ns in earlier.namespaces ensures Role(ns, name) in Targets(Plan(earlier)) {
      }
    }
  }

  /** With no retirement in between, what a complete application wrote is still there. */
  lemma FullyLeft(rounds: seq<Round>, wanted: Target -> bool)
    requires FullyApplied(rounds)
    ensures AllLeft(rounds, wanted) <==> forall r <- rounds :: forall t <- Targets(Plan(r.i)) :: wanted(t)
  {
    hide Plan, Targets;
    if AllLeft(rounds, wanted) {
      forall r, t | r in rounds && t in Targets(Plan(r.i)) ensures wanted(t) {
        var j: nat :| j < |rounds| && rounds[j] == r;
        assert Left(rounds, j, t);
      }
    } else {
      var j: nat, t :| Left(rounds, j, t) && !wanted(t);
      assert rounds[j] in rounds;
    }
  }

  /** When every earlier generation was applied in full, the cluster holds exactly the current plan if and only if the current generation names every scope and namespace they named. */
  lemma NarrowingIsNotExact(c: Cluster, earlier: seq<Round>, i: Instruction)
    requires Held(c, GrantResource(i.name)) == {} && Rounds(earlier, GrantResource(i.name)) && FullyApplied(earlier)
    ensures ExactlyPlanned(Played(After(c, earlier), Applied(i, Plan(i))), i) <==> forall r <- earlier :: Includes(i, r.i)
  {
    hide ExactlyPlanned, Plan, Targets, GrantResource, Includes, Reaches, AllLeft;
    SuccessIsExact(c, earlier, i);
    FullyLeft(earlier, t => Reaches(i, t));
    forall r | r in earlier ensures (forall t <- Targets(Plan(r.i)) :: Reaches(i, t)) <==> Includes(i, r.i) {
      PlanReached(i, r.i);
    }
  }

  /** And a retirement leaves nothing if and only if the retired generation names every namespace they named. */
  lemma NarrowedRetirementIsNotComplete(c: Cluster, earlier: seq<Round>, i: Instruction)
    requires Held(c, GrantResource(i.name)) == {} && Rounds(earlier, GrantResource(i.name)) && FullyApplied(earlier)
    ensures Held(Played(After(c, earlier), Withdrawn(i, {})), GrantResource(i.name)) == {} <==>
            forall r <- earlier :: Namespaced(r.i.scope) ==> forall ns <- r.i.namespaces :: ns in i.namespaces
  {
    hide Held, Plan, Targets, GrantResource, Clears, Drops, AllLeft;
    RetirementIsComplete(c, earlier, i);
    FullyLeft(earlier, t => Clears(i, t));
    forall r | r in earlier ensures (forall t <- Targets(Plan(r.i)) :: Clears(i, t)) <==>
      (Namespaced(r.i.scope) ==> forall ns <- r.i.namespaces :: ns in i.namespaces)
    {
      PlanCleared(i, r.i);
    }
  }

  /** The failing inputs: a generation that leaves out a namespace keeps the Role there, through success and through retirement. */
  lemma NarrowedGrantKeepsItsRole(c: Cluster, i: Instruction, j: Instruction, ns: string)
    requires i.name == j.name && Namespaced(i.scope) && ns in i.namespaces && ns !in j.namespaces
    ensures var role := Role(ns, GrantResource(i.name));
            var narrowed := After(c, [Applied(i, Plan(i)), Applied(j, Plan(j))]);
            && role in narrowed && narrowed[role] == i.rules
            && role in Played(narrowed, Withdrawn(j, {})) && Played(narrowed, Withdrawn(j, {}))[role] == i.rules
  {
    hide GrantResource, Plan, Apply, Targets, Drops;
    var role, wide := Role(ns, GrantResource(i.name)), Applied(i, Plan(i));
    var second := Applied(j, Plan(j));
    assert [wide, second][..1] == [wide] && [wide][..0] == [];
    assert After(c, [wide]) == Apply(c, Plan(i));
    assert After(c, [wide, second]) == Apply(Apply(c, Plan(i)), Plan(j));
    PlanReaches(i, role);
    PlanValue(c, i, role);
    PlanReaches(j, role);
    ApplyKeeps(Apply(c, Plan(i)), Plan(j), role);
    DropsClear(j, role);
  }

  lemma {:induction false} ApplyKeeps(c: Cluster, puts: seq<Put>, t: Target)
    requires t in c && t !in Targets(puts)
    ensures t in Apply(c, puts) && Apply(c, puts)[t] == c[t]
    decreases |puts|
  {
    if puts != [] {
      var k := |puts| - 1;
      assert puts == puts[..k] + [puts[k]];
      TargetsOfSum(puts[..k], [puts[k]]);
      TargetsOfPair(puts[k], puts[k]);
      ApplyKeeps(c, puts[..k], t);
    }
  }
}
