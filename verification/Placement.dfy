/** Node selection, internal/nodeselector: a base strategy, narrowed by affinity rules,
    narrowed by capacity; and the pool's eligibility probe built on it. */
module Placement {
  import opened Common
  import opened Ledger
  import Parking

  datatype ExistingVM = ExistingVM(node: string, profile: string)

  datatype Hint = Hint(avoid: seq<string>, profile: string, existing: seq<ExistingVM>, shape: Shape)

  datatype Rule = Rule(profile: string, preferNodes: seq<string>, require: bool, antiAffinityWith: string)

  datatype Pick = Picked(node: string) | Unsatisfiable | NoCapacity | NoNode

  /** The capacity fitter: not configured, unable to answer, or an answer per candidate. */
  datatype Fitter = Absent | Failed | Answers(fits: map<string, bool>)

  /** Scores are given per call; `None` is a failed read without an older one to fall back on. */
  datatype Strategy = Single(node: string) | RoundRobin(nodes: seq<string>) | LeastLoaded(members: seq<string>)

  function Universe(s: Strategy): set<string> {
    match s
    case Single(node) => {node}
    case RoundRobin(nodes) => set n | n in nodes
    case LeastLoaded(members) => set n | n in members
  }

  // ------------------------------------------------------------------
  // What a placement must respect, without reference to the wrappers
  // ------------------------------------------------------------------

  predicate Matches(r: Rule, profile: string) { r.profile == "" || r.profile == profile }

  predicate AntiAffine(r: Rule, existing: seq<ExistingVM>, node: string) {
    r.antiAffinityWith != "" && ExistingVM(node, r.antiAffinityWith) in existing
  }

  /** No anti-affine VM is there, and a hard pin (which must name nodes) names this one. */
  predicate RulePermits(r: Option<Rule>, existing: seq<ExistingVM>, node: string) {
    r.Some? ==>
      && !AntiAffine(r.value, existing, node)
      && (r.value.require && r.value.preferNodes != [] ==> node in r.value.preferNodes)
  }

  /** A rule matches its own profile, or every profile if it names none. */
  lemma MatchesExactly(r: Rule, profile: string)
    ensures r.profile == "" ==> Matches(r, profile)
    ensures r.profile != "" ==> (Matches(r, profile) <==> r.profile == profile)
  {}

  /** The first rule in declaration order that matches. */
  function MatchingRule(rules: seq<Rule>, profile: string): (r: Option<Rule>)
    ensures r.None? ==> forall i :: 0 <= i < |rules| ==> !Matches(rules[i], profile)
    ensures r.Some? ==> exists i :: 0 <= i < |rules| && rules[i] == r.value && Matches(rules[i], profile)
                                    && forall j :: 0 <= j < i ==> !Matches(rules[j], profile)
  {
    if rules == [] then None
    else if Matches(rules[0], profile) then Some(rules[0])
    else
      var r := MatchingRule(rules[1..], profile);
      assert r.Some? ==>
        exists i :: 0 <= i < |rules[1..]| && rules[1..][i] == r.value && Matches(rules[1..][i], profile)
                                    && forall j :: 0 <= j < i ==> !Matches(rules[1..][j], profile);
      assert r.Some? ==> exists i :: 0 <= i < |rules| && rules[i] == r.value && Matches(rules[i], profile)
                                    && forall j :: 0 <= j < i ==> !Matches(rules[j], profile) by {
        if r.Some? {
          var i :| 0 <= i < |rules[1..]| && rules[1..][i] == r.value && Matches(rules[1..][i], profile)
                   && forall j :: 0 <= j < i ==> !Matches(rules[1..][j], profile);
          assert forall j :: 0 < j < i + 1 ==> rules[j] == rules[1..][j - 1];
          assert rules[i + 1] == r.value;
        }
      }
      r
  }

  predicate HasRoom(f: Fitter, shape: Shape, node: string) {
    match f
    case Absent => true
    case Failed => shape == Shape(0, 0)
    case Answers(fits) => shape == Shape(0, 0) || (node in fits && fits[node])
  }

  /** Everything the stack of selectors promises about a node it returns. */
  predicate Allowed(universe: set<string>, rules: seq<Rule>, h: Hint, f: Fitter, node: string) {
    && node in universe && node !in h.avoid
    && RulePermits(MatchingRule(rules, h.profile), h.existing, node)
    && HasRoom(f, h.shape, node)
  }

  /** In the hint's and the rule's own fields. */
  lemma AllowedExactly(universe: set<string>, rules: seq<Rule>, h: Hint, f: Fitter, node: string)
    ensures
      var r := MatchingRule(rules, h.profile);
      Allowed(universe, rules, h, f, node) <==>
        && node in universe && node !in h.avoid
        && (r.Some? && r.value.antiAffinityWith != "" ==> ExistingVM(node, r.value.antiAffinityWith) !in h.existing)
        && (r.Some? && r.value.require && |r.value.preferNodes| > 0 ==> node in r.value.preferNodes)
        && (h.shape.memoryBytes > 0 || h.shape.vcpus > 0 ==>
              f == Absent || (f.Answers? && node in f.fits && f.fits[node]))
  {
    hide MatchingRule;
  }

  // ------------------------------------------------------------------
  // Base strategies
  // ------------------------------------------------------------------

  function Next(i: nat, n: nat): (r: nat)
    requires i < n
    ensures r == if i + 1 == n then 0 else i + 1
  {
    (i + 1) % n
  }

  /** The pick is one of the polled nodes that are wanted, with a score no higher than any of
      theirs; without scores, or if no polled node is wanted, there is none. */
  ghost predicate LeastOf(p: Pick, scores: Option<map<string, real>>, wanted: string -> bool) {
    && (p.Picked? ==> scores.Some? && p.node in scores.value && wanted(p.node)
                      && forall n :: n in scores.value && wanted(n) ==> scores.value[p.node] <= scores.value[n])
    && (p == NoNode <==> scores.None? || forall n :: n in scores.value ==> !wanted(n))
  }

  class BaseSelector {
    const strategy: Strategy
    var next: nat

    ghost predicate Valid()
      reads this
    {
      strategy.RoundRobin? ==> next < |strategy.nodes|
    }

    constructor (strategy: Strategy)
      requires strategy.RoundRobin? ==> strategy.nodes != []
      ensures Valid() && this.strategy == strategy && next == 0
    {
      this.strategy := strategy;
      next := 0;
    }

    /** A picked node is one of the strategy's own and not avoided. Single and round robin
        give up only if every node is avoided; round robin takes the first free node at or
        after its cursor and leaves the cursor behind it; least loaded takes a lowest score. */
    method Select(avoid: seq<string>, scores: Option<map<string, real>>) returns (p: Pick)
      requires Valid()
      modifies this
      ensures Valid() && (p.Picked? || p == NoNode)
      ensures p.Picked? ==> p.node in Universe(strategy) && p.node !in avoid
      ensures !strategy.LeastLoaded? && p == NoNode ==> forall n :: n in Universe(strategy) ==> n in avoid
      ensures strategy.RoundRobin? && p.Picked? ==> exists k: nat :: TurnedTo(old(next), k, avoid, p.node, next)
      ensures strategy.RoundRobin? && p == NoNode ==> next == old(next)
      ensures strategy.LeastLoaded? ==> LeastOf(p, scores, n => n in strategy.members && n !in avoid)
    {
      match strategy
      case Single(node) =>
        if node in avoid {
          return NoNode;
        }
        return Picked(node);
      case RoundRobin(nodes) =>
        p := Rotate(avoid);
      case LeastLoaded(members) =>
        if scores.None? {
          return NoNode;
        }
        p := Best(avoid, scores.value);
    }

    /** The cursor position `k` turns after `i`. */
    function After(i: nat, k: nat): (r: nat)
      requires strategy.RoundRobin? && i < |strategy.nodes| && k <= |strategy.nodes|
      ensures r < |strategy.nodes|
    {
      if i + k < |strategy.nodes| then i + k else i + k - |strategy.nodes|
    }

    /** The first `k` positions from `i` on are avoided, the next one is the node, which is
        not avoided, and the cursor ends up one further. */
    ghost predicate TurnedTo(i: nat, k: nat, avoid: seq<string>, node: string, end: nat)
      requires strategy.RoundRobin? && i < |strategy.nodes|
    {
      && k < |strategy.nodes|
      && (forall j :: 0 <= j < k ==> strategy.nodes[After(i, j)] in avoid)
      && strategy.nodes[After(i, k)] == node && node !in avoid
      && end == After(i, k + 1)
    }

    /** Every turn hands on: the cursor stops right behind the node picked, and with nothing to
        avoid the node is the one at the cursor, so the nodes are picked in rotation. */
    lemma TurnsInRotation(i: nat, k: nat, avoid: seq<string>, node: string, end: nat) returns (pos: nat)
      requires strategy.RoundRobin? && i < |strategy.nodes| && TurnedTo(i, k, avoid, node, end)
      ensures pos < |strategy.nodes| && strategy.nodes[pos] == node
      ensures end == if pos == |strategy.nodes| - 1 then 0 else pos + 1
      ensures avoid == [] ==> pos == i
    {
      pos := After(i, k);
      assert k > 0 ==> strategy.nodes[After(i, 0)] in avoid;
    }

    method Rotate(avoid: seq<string>) returns (p: Pick)
      requires Valid() && strategy.RoundRobin?
      modifies this
      ensures Valid() && (p.Picked? || p == NoNode)
      ensures p.Picked? ==> exists k: nat :: TurnedTo(old(next), k, avoid, p.node, next)
      ensures p == NoNode ==> next == old(next) && forall n :: n in strategy.nodes ==> n in avoid
    {
      hide Next;
      var nodes := strategy.nodes;
      for k := 0 to |nodes|
        invariant next == After(old(next), k)
        invariant forall j :: 0 <= j < k ==> nodes[After(old(next), j)] in avoid
      {
        var node := nodes[next];
        next := Next(next, |nodes|);
        assert next == After(old(next), k + 1);
        if node !in avoid {
          assert TurnedTo(old(next), k, avoid, node, next);
          return Picked(node);
        }
      }
      forall n | n in nodes ensures n in avoid {
        var i :| 0 <= i < |nodes| && nodes[i] == n;
        var j := if i >= old(next) then i - old(next) else i + |nodes| - old(next);
        assert After(old(next), j) == i;
      }
      p := NoNode;
    }

    /** The lowest score among the nodes that were polled and are not avoided. */
    method Best(avoid: seq<string>, scores: map<string, real>) returns (p: Pick)
      requires strategy.LeastLoaded?
      ensures p.Picked? || p == NoNode
      ensures p.Picked? ==> p.node in strategy.members && p.node in scores && p.node !in avoid
      ensures p.Picked? ==> forall n :: n in scores && n in strategy.members && n !in avoid ==>
        scores[p.node] <= scores[n]
      ensures p == NoNode ==> forall n :: n in scores && n in strategy.members ==> n in avoid
    {
      p := NoNode;
      var wanted := set n | n in scores && n in strategy.members;
      var left := wanted;
      while left != {}
        invariant left <= wanted && (p.Picked? || p == NoNode)
        invariant p.Picked? ==> p.node in wanted && p.node !in avoid
        invariant p.Picked? ==> forall n :: n in wanted - left && n !in avoid ==> scores[p.node] <= scores[n]
        invariant p == NoNode ==> forall n :: n in wanted - left ==> n in avoid
        decreases left
      {
        var node := PickAny(left);
        left := left - {node};
        if node !in avoid && (p == NoNode || scores[node] < scores[p.node]) {
          p := Picked(node);
        }
      }
    }
  }

  // ------------------------------------------------------------------
  // Affinity
  // ------------------------------------------------------------------

  /** The nodes a matching rule leaves to the base strategy: the permitted preferred ones if
      there are any, else every permitted one. */
  predicate Left(allNodes: seq<string>, r: Rule, h: Hint, node: string) {
    && node !in h.avoid && !AntiAffine(r, h.existing, node)
    && (if exists n :: n in r.preferNodes && n !in h.avoid && !AntiAffine(r, h.existing, n)
        then node in r.preferNodes else node in allNodes)
  }

  /** With or without a rule. */
  predicate Leaves(allNodes: seq<string>, r: Option<Rule>, h: Hint, node: string) {
    node !in h.avoid && (r.Some? ==> Left(allNodes, r.value, h, node))
  }

  /** A hard pin none of whose nodes is free of avoidance and anti-affine VMs. */
  predicate PinImpossible(allNodes: seq<string>, r: Rule, h: Hint) {
    && r.require
    && forall n :: n in (if r.preferNodes != [] then r.preferNodes else allNodes) ==>
      n in h.avoid || AntiAffine(r, h.existing, n)
  }

  class AffinityWrapper {
    const underlying: BaseSelector
    const rules: seq<Rule>
    const allNodes: seq<string>

    constructor (underlying: BaseSelector, rules: seq<Rule>, allNodes: seq<string>)
      ensures this.underlying == underlying && this.rules == rules && this.allNodes == allNodes
    {
      this.underlying, this.rules, this.allNodes := underlying, rules, allNodes;
    }

    /** Both wrappers and the base strategy work on the same node universe. */
    ghost predicate Valid()
      reads underlying
    {
      underlying.Valid() && (set n | n in allNodes) == Universe(underlying.strategy)
    }

    method Select(h: Hint, scores: Option<map<string, real>>) returns (p: Pick)
      requires Valid()
      modifies underlying
      ensures Valid() && p != NoCapacity
      ensures p.Picked? ==> Allowed(Universe(underlying.strategy), rules, h, Absent, p.node)
      ensures var r := MatchingRule(rules, h.profile); p.Picked? && r.Some? ==> Left(allNodes, r.value, h, p.node)
      ensures
        var r := MatchingRule(rules, h.profile);
        p == Unsatisfiable <==> r.Some? && PinImpossible(allNodes, r.value, h)
      ensures !underlying.strategy.LeastLoaded? && p == NoNode ==>
        var r := MatchingRule(rules, h.profile);
        forall n :: n in Universe(underlying.strategy) ==> n in h.avoid || (r.Some? && !Left(allNodes, r.value, h, n))
      ensures underlying.strategy.LeastLoaded? && p != Unsatisfiable ==>
        LeastOf(p, scores, n => n in allNodes && Leaves(allNodes, MatchingRule(rules, h.profile), h, n))
    {
      hide Universe;
      var rule := MatchingRule(rules, h.profile);
      ghost var wanted := n => n in allNodes && Leaves(allNodes, rule, h, n);
      MembersAre(underlying.strategy, allNodes);
      if rule.None? {
        p := underlying.Select(h.avoid, scores);
        if underlying.strategy.LeastLoaded? {
          LeastOfSame(p, scores, n => n in underlying.strategy.members && n !in h.avoid, wanted);
        }
        return;
      }
      var r := rule.value;
      var excluded: set<string> := {};
      if r.antiAffinityWith != "" {
        excluded := HostsOf(h.existing, r.antiAffinityWith);
      }
      ExcludedMeansAntiAffine(r, h.existing, excluded);
      hide AntiAffine;
      var eligible: set<string>;
      if |r.preferNodes| > 0 {
        eligible := EligibleFrom(r.preferNodes, excluded, h.avoid);
      } else {
        eligible := EligibleFrom(allNodes, excluded, h.avoid);
      }
      if eligible == {} {
        if r.require {
          return Unsatisfiable;
        }
        eligible := EligibleFrom(allNodes, excluded, h.avoid);
        if eligible == {} {
          assert forall n :: !wanted(n);
          return NoNode;
        }
      }
      assert forall n :: n in allNodes ==> (n in eligible <==> Left(allNodes, r, h, n));
      var avoid := Complement(h.avoid, allNodes, eligible);
      p := underlying.Select(avoid, scores);
      if underlying.strategy.LeastLoaded? {
        LeastOfSame(p, scores, n => n in underlying.strategy.members && n !in avoid, wanted);
      }
    }
  }

  lemma MembersAre(s: Strategy, allNodes: seq<string>)
    requires (set n | n in allNodes) == Universe(s)
    ensures s.LeastLoaded? ==> forall n :: n in s.members <==> n in allNodes
  {
    if s.LeastLoaded? {
      forall n ensures n in s.members <==> n in allNodes {
        assert n in Universe(s) <==> n in (set m | m in allNodes);
      }
    }
  }

  lemma LeastOfSame(p: Pick, scores: Option<map<string, real>>, f: string -> bool, g: string -> bool)
    requires LeastOf(p, scores, f) && forall n :: f(n) <==> g(n)
    ensures LeastOf(p, scores, g)
  {}

  method HostsOf(existing: seq<ExistingVM>, profile: string) returns (nodes: set<string>)
    ensures forall n :: n in nodes <==> ExistingVM(n, profile) in existing
  {
    nodes := {};
    for i := 0 to |existing|
      invariant forall n :: n in nodes <==> ExistingVM(n, profile) in existing[..i]
    {
      assert existing[..i + 1] == existing[..i] + [existing[i]];
      if existing[i].profile == profile {
        nodes := nodes + {existing[i].node};
      }
    }
    assert existing[..|existing|] == existing;
  }

  lemma ExcludedMeansAntiAffine(r: Rule, existing: seq<ExistingVM>, excluded: set<string>)
    requires r.antiAffinityWith == "" ==> excluded == {}
    requires r.antiAffinityWith != "" ==> forall n :: n in excluded <==> ExistingVM(n, r.antiAffinityWith) in existing
    ensures forall n :: n in excluded <==> AntiAffine(r, existing, n)
  {}

  method EligibleFrom(candidates: seq<string>, excluded: set<string>, avoid: seq<string>) returns (out: set<string>)
    ensures forall n :: n in out <==> n in candidates && n !in excluded && n !in avoid
  {
    out := {};
    for i := 0 to |candidates|
      invariant forall n :: n in out <==> n in candidates[..i] && n !in excluded && n !in avoid
    {
      assert candidates[..i + 1] == candidates[..i] + [candidates[i]];
      if candidates[i] !in excluded && candidates[i] !in avoid {
        out := out + {candidates[i]};
      }
    }
    assert candidates[..|candidates|] == candidates;
  }

  /** The avoid list extended by every node that is not eligible. */
  method Complement(avoid: seq<string>, allNodes: seq<string>, eligible: set<string>) returns (out: seq<string>)
    ensures forall n :: n in out <==> n in avoid || (n in allNodes && n !in eligible)
  {
    out := avoid;
    for i := 0 to |allNodes|
      invariant forall n :: n in out <==> n in avoid || (n in allNodes[..i] && n !in eligible)
    {
      assert allNodes[..i + 1] == allNodes[..i] + [allNodes[i]];
      if allNodes[i] !in eligible {
        out := out + [allNodes[i]];
      }
    }
    assert allNodes[..|allNodes|] == allNodes;
  }

  // ------------------------------------------------------------------
  // Capacity
  // ------------------------------------------------------------------

  /** The node could have been picked instead: it is allowed, and preferred if the pick is. */
  predicate Competes(a: AffinityWrapper, h: Hint, f: Fitter, picked: string, node: string) {
    && Allowed(Universe(a.underlying.strategy), a.rules, h, f, node)
    && var r := MatchingRule(a.rules, h.profile);
       r.Some? && picked in r.value.preferNodes ==> node in r.value.preferNodes
  }

  class CapacityWrapper {
    const underlying: AffinityWrapper

    constructor (underlying: AffinityWrapper)
      ensures this.underlying == underlying
    {
      this.underlying := underlying;
    }

    ghost predicate Valid()
      reads underlying.underlying
    {
      underlying.Valid()
    }

    /** A picked node satisfies everything the layers promise, and is a preferred one if any
        preferred one does. With single or round robin and validated rules a node is picked
        exactly when one does. */
    method Select(h: Hint, f: Fitter, scores: Option<map<string, real>>) returns (p: Pick)
      requires Valid()
      modifies underlying.underlying
      ensures Valid()
      ensures p.Picked? ==> Allowed(Universe(underlying.underlying.strategy), underlying.rules, h, f, p.node)
      ensures !p.Picked? && !underlying.underlying.strategy.LeastLoaded? &&
              Validated(underlying.rules, underlying.allNodes) ==>
        forall n :: !Allowed(Universe(underlying.underlying.strategy), underlying.rules, h, f, n)
      ensures
        var r := MatchingRule(underlying.rules, h.profile);
        p.Picked? && r.Some? && r.value.preferNodes != [] && p.node !in r.value.preferNodes ==>
          forall n :: n in r.value.preferNodes ==>
            !Allowed(Universe(underlying.underlying.strategy), underlying.rules, h, f, n)
      ensures
        var r := MatchingRule(underlying.rules, h.profile);
        h.shape == Shape(0, 0) ==>
          p != NoCapacity && (p == Unsatisfiable <==> r.Some? && PinImpossible(underlying.allNodes, r.value, h))
      ensures underlying.underlying.strategy.LeastLoaded? && p.Picked? ==>
        scores.Some? && p.node in scores.value &&
        forall n :: n in scores.value && Competes(underlying, h, f, p.node, n) ==>
          scores.value[p.node] <= scores.value[n]
    {
      hide Universe, MatchingRule;
      if f.Absent? || h.shape == Shape(0, 0) {
        p := underlying.Select(h, scores);
        ghost var universe := Universe(underlying.underlying.strategy);
        RefusesOnlyIfNone(underlying.allNodes, universe, underlying.rules, h, p,
                          underlying.underlying.strategy.LeastLoaded?);
        assert forall n :: Allowed(universe, underlying.rules, h, f, n) <==>
          Allowed(universe, underlying.rules, h, Absent, n);
        return;
      }
      var candidates := EligibleFrom(underlying.allNodes, {}, h.avoid);
      if candidates == {} {
        p := underlying.Select(h, scores);
        return;
      }
      if f.Failed? {
        return NoCapacity;
      }
      var roomy := set n | n in candidates && n in f.fits && f.fits[n];
      if roomy == {} {
        return NoCapacity;
      }
      var avoid := Complement(h.avoid, underlying.allNodes, roomy);
      ghost var h' := h.(avoid := avoid);
      p := underlying.Select(h.(avoid := avoid), scores);
      ghost var universe := Universe(underlying.underlying.strategy);
      RefusesOnlyIfNone(underlying.allNodes, universe, underlying.rules, h', p,
                        underlying.underlying.strategy.LeastLoaded?);
      assert forall n :: Allowed(universe, underlying.rules, h, f, n) <==>
        Allowed(universe, underlying.rules, h', Absent, n);
    }
  }

  /** Config validation: preferred nodes are declared nodes, and a rule requires its
      preferred nodes only if it names some. */
  predicate Validated(rules: seq<Rule>, allNodes: seq<string>) {
    forall i :: 0 <= i < |rules| ==>
      && (forall n :: n in rules[i].preferNodes ==> n in allNodes)
      && (rules[i].require ==> rules[i].preferNodes != [])
  }

  /** Under validated rules the affinity layer refuses only when no node is allowed. */
  lemma RefusesOnlyIfNone(allNodes: seq<string>, universe: set<string>, rules: seq<Rule>, h: Hint, p: Pick,
                          leastLoaded: bool)
    requires (set n | n in allNodes) == universe
    requires
      var r := MatchingRule(rules, h.profile);
      p == Unsatisfiable ==> r.Some? && PinImpossible(allNodes, r.value, h)
    requires !leastLoaded && p == NoNode ==>
      var r := MatchingRule(rules, h.profile);
      forall n :: n in universe ==> n in h.avoid || (r.Some? && !Left(allNodes, r.value, h, n))
    ensures (p == Unsatisfiable || p == NoNode) && !leastLoaded && Validated(rules, allNodes) ==>
      forall n :: !Allowed(universe, rules, h, Absent, n)
  {
  }

  // ------------------------------------------------------------------
  // The eligibility probe
  // ------------------------------------------------------------------

  /** Asks the selector about one node by avoiding every other one, with nothing to size. For
      single and round robin with validated rules the answer is exact: eligible if and only
      if the node is declared and the rule permits it, definitely not if and only if a hard
      pin excludes it, and unknown otherwise. For least loaded "eligible" is still never
      wrong. */
  method NodeEligible(sel: CapacityWrapper, nodes: seq<string>, linkedClones: bool, templateNode: string,
                      profile: string, existing: seq<ExistingVM>, node: string, f: Fitter,
                      scores: Option<map<string, real>>)
    returns (v: Parking.Verdict)
    requires sel.Valid() && (set n | n in nodes) == (set n | n in sel.underlying.allNodes)
    modifies sel.underlying.underlying
    ensures sel.Valid()
    ensures linkedClones ==> v == if node == templateNode then Parking.Eligible else Parking.NotEligible
    ensures !linkedClones && v == Parking.Eligible ==>
      node in nodes && RulePermits(MatchingRule(sel.underlying.rules, profile), existing, node)
    ensures !linkedClones && nodes != [] && Validated(sel.underlying.rules, nodes) ==>
      var r := MatchingRule(sel.underlying.rules, profile);
      v == Parking.NotEligible <==> r.Some? && r.value.require && !RulePermits(r, existing, node)
    ensures !linkedClones && Validated(sel.underlying.rules, nodes) &&
            !sel.underlying.underlying.strategy.LeastLoaded? ==>
      (v == Parking.Eligible <==>
       node in nodes && RulePermits(MatchingRule(sel.underlying.rules, profile), existing, node))
  {
    hide AntiAffine, Left;
    if linkedClones {
      return if node == templateNode then Parking.Eligible else Parking.NotEligible;
    }
    if |nodes| == 0 {
      return Parking.Unknown;
    }
    var avoid := Complement([], nodes, {node});
    var h := Hint(avoid, profile, existing, Shape(0, 0));
    var got := sel.Select(h, f, scores);
    ghost var universe, rules := Universe(sel.underlying.underlying.strategy), sel.underlying.rules;
    assert forall n :: n in universe <==> n in nodes;
    assert Allowed(universe, rules, h, f, node) <==>
      node in nodes && RulePermits(MatchingRule(rules, profile), existing, node);
    match got
    case Unsatisfiable => v := Parking.NotEligible;
    case Picked(n) => v := if n == node then Parking.Eligible else Parking.NotEligible;
    case _ => v := Parking.Unknown;
  }
}
