/**
 * The capability-flow safety analyser of `pypes_analyser`: a blueprint names
 * components and wires `consumer.import = provider.export`; every consumer is
 * seeded with the capabilities its providers' keys suggest, capabilities flow
 * from provider to consumer until nothing changes, and two combinations are
 * reported as violations.
 */
module Analyser {
  import opened Wrappers
  import opened Strings

  datatype Capability = UntrustedInput | InternalData | Exfiltration | Destructive | Proposal

  datatype ViolationType = LethalTrifecta | DeadlyDuo

  datatype SafetyViolation = SafetyViolation(component: string, violation: ViolationType, details: string)

  /** One step of a declarative workflow (read by the runtime, ignored by the analyser). */
  datatype Step = Step(id: string, component: string, func: string, input: Option<string>)

  datatype Workflow = Workflow(steps: seq<Step>)

  /** Components by name with their paths; wiring from `consumer.import` to `provider.export`. */
  datatype Blueprint = Blueprint(
    components: map<string, string>,
    wiring: map<string, string>,
    workflow: Option<Workflow>)

  type Caps = map<string, set<Capability>>

  type Edge = (string, string)

  const AllCapabilities: set<Capability> :=
    {UntrustedInput, InternalData, Exfiltration, Destructive, Proposal}

  /** The component a wiring key belongs to: the text before its first `.`. */
  function ComponentOf(key: string): string
  {
    Before(key, '.')
  }

  predicate NoDuplicates<T(==)>(s: seq<T>)
  {
    forall i, j :: 0 <= i < j < |s| ==> s[i] != s[j]
  }

  // ---------------------------------------------------------------------------
  // Keyword heuristics on a provider key

  predicate IsNetwork(iface: string)
  {
    Contains(iface, "http") || Contains(iface, "search") || Contains(iface, "network")
  }

  predicate IsPropose(iface: string)
  {
    Contains(iface, "propose")
  }

  predicate IsInternal(iface: string)
  {
    Contains(iface, "calendar") || Contains(iface, "filesystem") || Contains(iface, "read")
  }

  predicate IsDestructive(iface: string)
  {
    Contains(iface, "delete") || Contains(iface, "write") || Contains(iface, "modify")
  }

  /** `infer_capabilities`: the capabilities a wire to `iface` brings, in push order. */
  function InferCapabilities(iface: string): (caps: seq<Capability>)
    ensures IsNetwork(iface) ==> Exfiltration in caps && UntrustedInput in caps
    ensures Exfiltration in caps <==> UntrustedInput in caps
    ensures IsPropose(iface) ==> Proposal in caps && InternalData !in caps && Destructive !in caps
    ensures Proposal in caps <==> IsPropose(iface)
    ensures InternalData in caps <==> IsInternal(iface) && !IsPropose(iface)
    ensures Destructive in caps <==> IsDestructive(iface) && !IsPropose(iface)
    ensures UntrustedInput in caps <==> IsNetwork(iface)
    ensures NoDuplicates(caps)
  {
    (if IsNetwork(iface) then [Exfiltration, UntrustedInput] else [])
    + (if IsInternal(iface) && !IsPropose(iface) then [InternalData] else [])
    + (if IsDestructive(iface) && !IsPropose(iface) then [Destructive] else [])
    + (if IsPropose(iface) then [Proposal] else [])
  }

  // ---------------------------------------------------------------------------
  // Step 1: the dependency graph

  /** Nodes: every component, plus the implicit "host". */
  function Nodes(bp: Blueprint): set<string>
  {
    bp.components.Keys + {"host"}
  }

  /** The edges the wiring justifies: consumer to provider, both known nodes. */
  ghost function WireEdges(bp: Blueprint): set<Edge>
  {
    set k | k in bp.wiring && ComponentOf(k) in Nodes(bp) && ComponentOf(bp.wiring[k]) in Nodes(bp)
      :: (ComponentOf(k), ComponentOf(bp.wiring[k]))
  }

  /** Step 1 of `verify`: nodes for components and host, one edge per distinct wired pair. */
  method BuildGraph(bp: Blueprint) returns (nodes: set<string>, edges: seq<Edge>)
    ensures nodes == Nodes(bp)
    ensures NoDuplicates(edges)
    ensures forall e :: e in edges <==> e in WireEdges(bp)
    ensures forall e :: e in edges ==> e.0 in nodes && e.1 in nodes
  {
    nodes := bp.components.Keys;
    if "host" !in nodes {
      nodes := nodes + {"host"};
    }
    edges := [];
    var todo := bp.wiring.Keys;
    while todo != {}
      invariant todo <= bp.wiring.Keys
      invariant NoDuplicates(edges)
      invariant forall e :: e in edges <==> e in DoneEdges(bp, bp.wiring.Keys - todo)
      decreases todo
    {
      var key :| key in todo;
      var consumer := ComponentOf(key);
      var provider := ComponentOf(bp.wiring[key]);
      if consumer in nodes && provider in nodes {
        if (consumer, provider) !in edges {
          edges := edges + [(consumer, provider)];
        }
      }
      todo := todo - {key};
    }
  }

  /** The edges contributed by the wiring keys in `done`. */
  ghost function DoneEdges(bp: Blueprint, done: set<string>): set<Edge>
    requires done <= bp.wiring.Keys
  {
    set k | k in done && ComponentOf(k) in Nodes(bp) && ComponentOf(bp.wiring[k]) in Nodes(bp)
      :: (ComponentOf(k), ComponentOf(bp.wiring[k]))
  }

  // ---------------------------------------------------------------------------
  // Step 3: seeding each component from the keys it is wired to

  /** What the wires of consumer `c` contribute before propagation. */
  ghost function SeedOf(bp: Blueprint, c: string, done: set<string>): set<Capability>
    requires done <= bp.wiring.Keys
  {
    set k, cap | k in done && ComponentOf(k) == c && cap in InferCapabilities(bp.wiring[k]) :: cap
  }

  /** The seeded capability map: one set per component and nothing else. */
  ghost function Seed(bp: Blueprint): Caps
  {
    map c | c in bp.components :: SeedOf(bp, c, bp.wiring.Keys)
  }

  /** Steps 2 and 3 of `verify`: empty sets for every component, then every wire seeds its consumer. */
  method SeedCapabilities(bp: Blueprint) returns (caps: Caps)
    ensures caps == Seed(bp)
    ensures caps.Keys == bp.components.Keys
    ensures forall c, cap :: c in caps ==>
      (cap in caps[c] <==> exists k :: k in bp.wiring && ComponentOf(k) == c && cap in InferCapabilities(bp.wiring[k]))
  {
    caps := map c | c in bp.components :: {};
    var todo := bp.wiring.Keys;
    while todo != {}
      invariant todo <= bp.wiring.Keys
      invariant caps.Keys == bp.components.Keys
      invariant forall c :: c in caps ==> caps[c] == SeedOf(bp, c, bp.wiring.Keys - todo)
      decreases todo
    {
      var key :| key in todo;
      var consumer := ComponentOf(key);
      var inferred := InferCapabilities(bp.wiring[key]);
      ghost var done := bp.wiring.Keys - todo;
      if consumer in caps {
        caps := caps[consumer := caps[consumer] + set cap | cap in inferred];
      }
      todo := todo - {key};
      forall c | c in caps ensures caps[c] == SeedOf(bp, c, done + {key}) {
        SeedOfAdd(bp, c, done, key);
      }
      assert done + {key} == bp.wiring.Keys - todo;
    }
    assert bp.wiring.Keys - todo == bp.wiring.Keys;
  }

  lemma SeedOfAdd(bp: Blueprint, c: string, done: set<string>, key: string)
    requires done <= bp.wiring.Keys && key in bp.wiring
    ensures SeedOf(bp, c, done + {key}) ==
      SeedOf(bp, c, done) + (if ComponentOf(key) == c then set cap | cap in InferCapabilities(bp.wiring[key]) else {})
  {
  }

  // ---------------------------------------------------------------------------
  // Step 4: transitive propagation

  /** What consumer `c` receives in one round: every capability of each provider it has an edge to. */
  ghost function Inflow(c: string, caps: Caps, edges: set<Edge>): set<Capability>
  {
    set p, cap | p in caps && (c, p) in edges && cap in caps[p] :: cap
  }

  /** One round of the `while changed` loop, read from the round's snapshot. */
  ghost function Round(caps: Caps, edges: set<Edge>): (next: Caps)
    ensures next.Keys == caps.Keys
  {
    map c | c in caps :: RoundAt(caps, edges, c)
  }

  /** The entry of one consumer after a round. */
  ghost function RoundAt(caps: Caps, edges: set<Edge>, c: string): set<Capability>
    requires c in caps
  {
    caps[c] + Inflow(c, caps, edges)
  }

  lemma RoundFromEntries(caps: Caps, edges: set<Edge>, next: Caps)
    requires next.Keys == caps.Keys
    requires forall c :: c in caps ==> next[c] == RoundAt(caps, edges, c)
    ensures next == Round(caps, edges)
  {
  }

  /** The (component, capability) pairs not yet present; shrinks in every round that changes something. */
  ghost function Missing(caps: Caps): set<(string, Capability)>
  {
    set c, k | c in caps && k in AllCapabilities && k !in caps[c] :: (c, k)
  }

  lemma AllCapabilitiesComplete(k: Capability)
    ensures k in AllCapabilities
  {
  }

  lemma RoundShrinksMissing(caps: Caps, edges: set<Edge>)
    requires Round(caps, edges) != caps
    ensures Missing(Round(caps, edges)) < Missing(caps)
  {
    var next := Round(caps, edges);
    var c :| c in caps && next[c] != caps[c];
    var k :| k in next[c] && k !in caps[c];
    AllCapabilitiesComplete(k);
    assert (c, k) in Missing(caps) && (c, k) !in Missing(next);
  }

  /** Rounds repeated until a round changes nothing. */
  ghost function Saturate(caps: Caps, edges: set<Edge>): (r: Caps)
    ensures r.Keys == caps.Keys
    decreases Missing(caps)
  {
    var next := Round(caps, edges);
    if next == caps then caps
    else
      RoundShrinksMissing(caps, edges);
      Saturate(next, edges)
  }

  function EdgeSet(edges: seq<Edge>): set<Edge>
  {
    set e | e in edges
  }

  /** Step 4 of `verify`: the `while changed` loop, each round working on a cloned snapshot. */
  method Propagate(seed: Caps, edges: seq<Edge>) returns (caps: Caps)
    ensures caps == Saturate(seed, EdgeSet(edges))
  {
    caps := seed;
    var changed := true;
    while changed
      invariant caps.Keys == seed.Keys
      invariant Saturate(caps, EdgeSet(edges)) == Saturate(seed, EdgeSet(edges))
      invariant !changed ==> Round(caps, EdgeSet(edges)) == caps
      decreases Missing(caps), changed
    {
      var current := caps;
      caps, changed := PropagateRound(current, edges);
      if changed {
        RoundShrinksMissing(current, EdgeSet(edges));
      }
    }
  }

  /** One pass of the `for (consumer_name, consumer_caps)` loop: every consumer reads the snapshot. */
  method PropagateRound(current: Caps, edges: seq<Edge>) returns (caps: Caps, changed: bool)
    ensures caps == Round(current, EdgeSet(edges))
    ensures changed <==> caps != current
  {
    caps := current;
    changed := false;
    var todo := current.Keys;
    while todo != {}
      invariant todo <= current.Keys && caps.Keys == current.Keys
      invariant forall c :: c in caps ==> caps[c] == if c in todo then current[c] else RoundAt(current, EdgeSet(edges), c)
      invariant changed <==> caps != current
      decreases todo
    {
      var consumer :| consumer in todo;
      var acc, grew := GatherInflow(consumer, current, edges);
      ghost var before := caps;
      caps := caps[consumer := acc];
      MapUpdateChanged(current, before, consumer, acc);
      changed := changed || grew;
      todo := todo - {consumer};
    }
    RoundFromEntries(current, EdgeSet(edges), caps);
  }

  /** Overwriting a still-untouched entry makes the map differ exactly when the new value does. */
  lemma MapUpdateChanged(current: Caps, m: Caps, k: string, v: set<Capability>)
    requires k in current && m.Keys == current.Keys && m[k] == current[k]
    ensures (m[k := v] != current) <==> (m != current || v != current[k])
  {
    if m == current {
      assert m[k := v] == current <==> v == current[k] by {
        if v != current[k] {
          assert m[k := v][k] != current[k];
        }
      }
    } else {
      var c :| c in current && m[c] != current[c];
      assert c != k;
      assert m[k := v][c] != current[c];
    }
  }

  /** The provider loop for one consumer: insert every capability of every provider it depends on. */
  method GatherInflow(consumer: string, current: Caps, edges: seq<Edge>) returns (acc: set<Capability>, grew: bool)
    requires consumer in current
    ensures acc == RoundAt(current, EdgeSet(edges), consumer)
    ensures grew <==> acc != current[consumer]
  {
    acc := current[consumer];
    grew := false;
    var j := 0;
    while j < |edges|
      invariant 0 <= j <= |edges|
      invariant acc == current[consumer] + Inflow(consumer, current, EdgeSet(edges[..j]))
      invariant grew <==> acc != current[consumer]
    {
      if edges[j].0 == consumer && edges[j].1 in current {
        var provided := current[edges[j].1];
        if !(provided <= acc) {
          grew := true;
        }
        acc := acc + provided;
      }
      InflowStep(consumer, current, edges, j);
      j := j + 1;
    }
    assert edges[..|edges|] == edges;
  }

  lemma InflowStep(c: string, caps: Caps, edges: seq<Edge>, j: nat)
    requires j < |edges|
    ensures Inflow(c, caps, EdgeSet(edges[..j + 1])) ==
      Inflow(c, caps, EdgeSet(edges[..j]))
      + (if edges[j].0 == c && edges[j].1 in caps then caps[edges[j].1] else {})
  {
    assert edges[..j + 1] == edges[..j] + [edges[j]];
  }

  /** A round that changes some component changes the map, and vice versa. */
  lemma RoundChanged(caps: Caps, es: set<Edge>)
    ensures Round(caps, es) != caps <==> exists c :: c in caps && Round(caps, es)[c] != caps[c]
  {
  }

  // ---------------------------------------------------------------------------
  // Step 5: violations

  predicate HasTrifecta(caps: set<Capability>)
  {
    UntrustedInput in caps && InternalData in caps && Exfiltration in caps
  }

  predicate HasDeadlyDuo(caps: set<Capability>)
  {
    UntrustedInput in caps && Destructive in caps
  }

  function TrifectaDetails(name: string): string
  {
    "Component '" + name + "' has access to Untrusted Input, Internal Data, and Exfiltration."
  }

  function DuoDetails(name: string): string
  {
    "Component '" + name + "' has access to Untrusted Input and Destructive Capabilities."
  }

  /** Every violation the final capability map calls for. */
  ghost function Expected(caps: Caps): set<SafetyViolation>
  {
    (set c | c in caps && HasTrifecta(caps[c]) :: SafetyViolation(c, LethalTrifecta, TrifectaDetails(c)))
    + (set c | c in caps && HasDeadlyDuo(caps[c]) :: SafetyViolation(c, DeadlyDuo, DuoDetails(c)))
  }

  /** Only components of the map are reported. */
  lemma ExpectedComponents(caps: Caps)
    ensures forall v :: v in Expected(caps) ==> v.component in caps
  {
  }

  /** Step 5 of `verify`: one pass over the components, pushing each combination found. */
  method CheckViolations(caps: Caps) returns (violations: seq<SafetyViolation>)
    ensures forall v :: v in violations <==> v in Expected(caps)
    ensures NoDuplicates(violations)
  {
    hide Expected, TrifectaDetails, DuoDetails;
    ExpectedComponents(caps);
    violations := [];
    var todo := caps.Keys;
    while todo != {}
      invariant todo <= caps.Keys
      invariant forall v :: v in violations <==> v in Expected(caps) && v.component !in todo
      invariant NoDuplicates(violations)
      decreases todo
    {
      var name :| name in todo;
      var held := caps[name];
      ViolationRules(caps, name);
      if HasTrifecta(held) {
        violations := violations + [SafetyViolation(name, LethalTrifecta, TrifectaDetails(name))];
      }
      if HasDeadlyDuo(held) {
        violations := violations + [SafetyViolation(name, DeadlyDuo, DuoDetails(name))];
      }
      todo := todo - {name};
    }
  }

  // ---------------------------------------------------------------------------
  // Properties of propagation

  /** `a` is pointwise contained in `b`, over the same components. */
  ghost predicate Below(a: Caps, b: Caps)
  {
    a.Keys == b.Keys && forall c :: c in a ==> a[c] <= b[c]
  }

  /** Every consumer holds everything its providers hold. */
  ghost predicate Closed(x: Caps, edges: set<Edge>)
  {
    forall c, p :: c in x && p in x && (c, p) in edges ==> x[p] <= x[c]
  }

  /** Network access always comes with untrusted input. */
  predicate ExfilHasUntrusted(caps: set<Capability>)
  {
    Exfiltration in caps ==> UntrustedInput in caps
  }

  ghost predicate AllExfilHaveUntrusted(x: Caps)
  {
    forall c :: c in x ==> ExfilHasUntrusted(x[c])
  }

  lemma RoundGrows(caps: Caps, edges: set<Edge>)
    ensures Below(caps, Round(caps, edges))
  {
  }

  /** Propagation only ever adds capabilities. */
  lemma {:induction false} SaturateExtends(caps: Caps, edges: set<Edge>)
    ensures Below(caps, Saturate(caps, edges))
    decreases Missing(caps)
  {
    var next := Round(caps, edges);
    if next != caps {
      RoundShrinksMissing(caps, edges);
      RoundGrows(caps, edges);
      SaturateExtends(next, edges);
    }
  }

  /** The result of propagation is a fixpoint of one more round. */
  lemma {:induction false} SaturateIsFixpoint(caps: Caps, edges: set<Edge>)
    ensures Round(Saturate(caps, edges), edges) == Saturate(caps, edges)
    decreases Missing(caps)
  {
    var next := Round(caps, edges);
    if next != caps {
      RoundShrinksMissing(caps, edges);
      SaturateIsFixpoint(next, edges);
    }
  }

  lemma FixpointIsClosed(x: Caps, edges: set<Edge>)
    requires Round(x, edges) == x
    ensures Closed(x, edges)
  {
    forall c, p | c in x && p in x && (c, p) in edges ensures x[p] <= x[c] {
      assert RoundAt(x, edges, c) == Round(x, edges)[c];
      forall cap | cap in x[p] ensures cap in x[c] {
        assert cap in Inflow(c, x, edges);
      }
    }
  }

  /** At the fixpoint every provider's set is contained in each of its consumers' sets. */
  lemma SaturateClosed(caps: Caps, edges: set<Edge>)
    ensures Closed(Saturate(caps, edges), edges)
  {
    SaturateIsFixpoint(caps, edges);
    FixpointIsClosed(Saturate(caps, edges), edges);
  }

  lemma RoundBelowClosed(y: Caps, x: Caps, edges: set<Edge>)
    requires Below(y, x) && Closed(x, edges)
    ensures Below(Round(y, edges), x)
  {
    forall c | c in y ensures Round(y, edges)[c] <= x[c] {
      assert Round(y, edges)[c] == RoundAt(y, edges, c);
      forall cap | cap in Inflow(c, y, edges) ensures cap in x[c] {
        var p :| p in y && (c, p) in edges && cap in y[p];
        assert cap in x[p];
      }
    }
  }

  /** Propagation adds nothing that every closed extension of the seed does not also hold. */
  lemma {:induction false} SaturateLeast(caps: Caps, x: Caps, edges: set<Edge>)
    requires Below(caps, x) && Closed(x, edges)
    ensures Below(Saturate(caps, edges), x)
    decreases Missing(caps)
  {
    var next := Round(caps, edges);
    if next != caps {
      RoundShrinksMissing(caps, edges);
      RoundBelowClosed(caps, x, edges);
      SaturateLeast(next, x, edges);
    }
  }

  lemma RoundKeepsExfil(y: Caps, edges: set<Edge>)
    requires AllExfilHaveUntrusted(y)
    ensures AllExfilHaveUntrusted(Round(y, edges))
  {
    forall c | c in y ensures ExfilHasUntrusted(Round(y, edges)[c]) {
      assert Round(y, edges)[c] == RoundAt(y, edges, c);
      if Exfiltration in Inflow(c, y, edges) {
        var p :| p in y && (c, p) in edges && Exfiltration in y[p];
        assert UntrustedInput in Inflow(c, y, edges);
      }
    }
  }

  /** The Exfiltration-implies-UntrustedInput invariant survives propagation. */
  lemma {:induction false} SaturateKeepsExfil(caps: Caps, edges: set<Edge>)
    requires AllExfilHaveUntrusted(caps)
    ensures AllExfilHaveUntrusted(Saturate(caps, edges))
    decreases Missing(caps)
  {
    var next := Round(caps, edges);
    if next != caps {
      RoundShrinksMissing(caps, edges);
      RoundKeepsExfil(caps, edges);
      SaturateKeepsExfil(next, edges);
    }
  }

  lemma SeedExfil(bp: Blueprint)
    ensures AllExfilHaveUntrusted(Seed(bp))
  {
    forall c | c in Seed(bp) ensures ExfilHasUntrusted(Seed(bp)[c]) {
      if Exfiltration in Seed(bp)[c] {
        var k :| k in bp.wiring && ComponentOf(k) == c && Exfiltration in InferCapabilities(bp.wiring[k]);
        assert UntrustedInput in SeedOf(bp, c, bp.wiring.Keys);
      }
    }
  }

  /** The capability map at the end of propagation. */
  ghost function FinalCapabilities(bp: Blueprint): Caps
  {
    Saturate(Seed(bp), WireEdges(bp))
  }

  /** `verify`: `Ok` exactly when no violation is found, otherwise `Err` with every violation once. */
  method Verify(bp: Blueprint) returns (result: Result<(), seq<SafetyViolation>>)
    ensures result.Ok? <==> Expected(FinalCapabilities(bp)) == {}
    ensures result.Err? ==> result.error != [] && NoDuplicates(result.error)
    ensures result.Err? ==> forall v :: v in result.error <==> v in Expected(FinalCapabilities(bp))
  {
    var nodes, edges := BuildGraph(bp);
    var seed := SeedCapabilities(bp);
    var caps := Propagate(seed, edges);
    assert EdgeSet(edges) == WireEdges(bp);
    assert caps == FinalCapabilities(bp);
    var violations := CheckViolations(caps);
    if violations == [] {
      result := Ok(());
    } else {
      assert violations[0] in Expected(caps);
      result := Err(violations);
    }
  }

  // ---------------------------------------------------------------------------
  // What `verify` computes, stated on the blueprint

  /** Only components get capability sets. */
  lemma FinalKeys(bp: Blueprint)
    ensures FinalCapabilities(bp).Keys == bp.components.Keys
  {
  }

  /** A wire seeds its consumer for good: what the provider key suggests is in the consumer's final set. */
  lemma FinalHasSeed(bp: Blueprint, k: string, cap: Capability)
    requires k in bp.wiring && ComponentOf(k) in bp.components
    requires cap in InferCapabilities(bp.wiring[k])
    ensures cap in FinalCapabilities(bp)[ComponentOf(k)]
  {
    var c := ComponentOf(k);
    assert cap in SeedOf(bp, c, bp.wiring.Keys);
    SaturateExtends(Seed(bp), WireEdges(bp));
  }

  /** A component wired to another component holds, at the end, all the provider holds. */
  lemma FinalClosedOverWiring(bp: Blueprint, k: string)
    requires k in bp.wiring
    requires ComponentOf(k) in bp.components && ComponentOf(bp.wiring[k]) in bp.components
    ensures FinalCapabilities(bp)[ComponentOf(bp.wiring[k])] <= FinalCapabilities(bp)[ComponentOf(k)]
  {
    assert (ComponentOf(k), ComponentOf(bp.wiring[k])) in WireEdges(bp);
    SaturateClosed(Seed(bp), WireEdges(bp));
  }

  /** The final map is the least one that contains the seed and is closed over the wiring. */
  lemma FinalLeast(bp: Blueprint, x: Caps)
    requires Below(Seed(bp), x) && Closed(x, WireEdges(bp))
    ensures Below(FinalCapabilities(bp), x)
  {
    SaturateLeast(Seed(bp), x, WireEdges(bp));
  }

  /** In the final map Exfiltration always comes with UntrustedInput, so a Lethal Trifecta
      is exactly InternalData together with Exfiltration. */
  lemma FinalTrifecta(bp: Blueprint, c: string)
    requires c in bp.components
    ensures ExfilHasUntrusted(FinalCapabilities(bp)[c])
    ensures HasTrifecta(FinalCapabilities(bp)[c]) <==>
      InternalData in FinalCapabilities(bp)[c] && Exfiltration in FinalCapabilities(bp)[c]
  {
    SeedExfil(bp);
    SaturateKeepsExfil(Seed(bp), WireEdges(bp));
  }

  /** Each component is reported with LethalTrifecta exactly when it holds all three, with
      DeadlyDuo exactly when it holds untrusted input and destruction, and at most twice. */
  lemma ViolationRules(caps: Caps, c: string)
    ensures SafetyViolation(c, LethalTrifecta, TrifectaDetails(c)) in Expected(caps) <==>
      c in caps && HasTrifecta(caps[c])
    ensures SafetyViolation(c, DeadlyDuo, DuoDetails(c)) in Expected(caps) <==>
      c in caps && HasDeadlyDuo(caps[c])
    ensures forall v :: v in Expected(caps) && v.component == c ==>
      v == SafetyViolation(c, LethalTrifecta, TrifectaDetails(c)) || v == SafetyViolation(c, DeadlyDuo, DuoDetails(c))
  {
  }
}

