/**
 * Blast radius, risk score, tier and approval roles, and how they move when
 * the topology grows.
 */
module RiskPolicy {
  import opened Arithmetic
  import opened Wrappers
  import opened Text
  import opened Json
  import opened Domain
  import opened Lists
  import IdempotencyKey
  import JsonOrder

  // The topology

  datatype ServiceStatus = Healthy | DegradedService | Down

  datatype ServiceNode = ServiceNode(name: string, dependencies: seq<string>, status: ServiceStatus)

  /** The dictionary of services in insertion order; a name occurs once. */
  type Services = seq<ServiceNode>

  const DEFAULT_TOPOLOGY: Services := [
    ServiceNode("api-gateway", ["auth-service", "order-service", "payment-service"], Healthy),
    ServiceNode("auth-service", [], Healthy),
    ServiceNode("order-service", ["payment-service", "notification-service"], Healthy),
    ServiceNode("payment-service", ["notification-service"], Healthy),
    ServiceNode("notification-service", [], Healthy)]

  predicate UniqueNames(services: Services) {
    forall i, j :: 0 <= i < j < |services| ==> services[i].name != services[j].name
  }

  function Dependents(services: Services, name: string): seq<string> {
    if services == [] then [] else
      var last := services[|services| - 1];
      Dependents(services[..|services| - 1], name) + if name in last.dependencies then [last.name] else []
  }

  function Lookup(services: Services, name: string): Option<ServiceNode> {
    if services == [] then None
    else if services[0].name == name then Some(services[0])
    else Lookup(services[1..], name)
  }

  function Dependencies(services: Services, name: string): seq<string> {
    match Lookup(services, name)
    case None => []
    case Some(node) => node.dependencies
  }

  class ServiceTopology {
    var services: Services

    constructor (services: Services)
      requires UniqueNames(services)
      ensures this.services == services
    {
      this.services := services;
    }

    method GetUpstreamDependents(name: string) returns (dependents: seq<string>)
      ensures dependents == Dependents(services, name)
    {
      dependents := [];
      for i := 0 to |services|
        invariant dependents == Dependents(services[..i], name)
      {
        assert services[..i + 1][..i] == services[..i];
        if name in services[i].dependencies {
          dependents := dependents + [services[i].name];
        }
      }
      assert services[..|services|] == services;
    }

    /** Only the status of the named service changes, so no blast radius does. */
    method SetServiceStatus(name: string, status: ServiceStatus)
      requires UniqueNames(services)
      modifies this
      ensures |services| == |old(services)|
      ensures forall i :: 0 <= i < |services| ==>
                services[i] == if old(services)[i].name == name then old(services)[i].(status := status)
                    else old(services)[i]
      ensures forall t :: BlastRadius(services, t) == BlastRadius(old(services), t)
    {
      var i := 0;
      while i < |services| && services[i].name != name
        invariant 0 <= i <= |services|
        invariant forall j :: 0 <= j < i ==> services[j].name != name
      {
        i := i + 1;
      }
      if i < |services| {
        services := services[i := services[i].(status := status)];
        forall t ensures BlastRadius(services, t) == BlastRadius(old(services), t) {
          SameEdges(old(services), services, t);
        }
      }
    }
  }

  function Names(services: Services): (r: seq<string>)
    ensures |r| == |services| && forall i :: 0 <= i < |services| ==> r[i] == services[i].name
  {
    seq(|services|, i requires 0 <= i < |services| => services[i].name)
  }

  /** The dependents come in the order of the dictionary. */
  lemma {:induction false} DependentsInOrder(services: Services, name: string)
    ensures Subsequence(Dependents(services, name), Names(services))
  {
    if services != [] {
      var front, last := services[..|services| - 1], services[|services| - 1];
      DependentsInOrder(front, name);
      assert Names(services)[..|services| - 1] == Names(front);
      assert Dependents(front, name) + [] == Dependents(front, name);
      assert (Dependents(front, name) + [last.name])[..|Dependents(front, name)|] == Dependents(front, name);
    }
  }

  lemma {:induction false} SameDependents(a: Services, b: Services, t: string)
    requires |a| == |b| && forall i :: 0 <= i < |a| ==> a[i].name == b[i].name && a[i].dependencies == b[i].dependencies
    ensures Dependents(a, t) == Dependents(b, t)
  {
    if a != [] {
      SameDependents(a[..|a| - 1], b[..|b| - 1], t);
    }
  }

  lemma {:induction false} SameDependencies(a: Services, b: Services, t: string)
    requires |a| == |b| && forall i :: 0 <= i < |a| ==> a[i].name == b[i].name && a[i].dependencies == b[i].dependencies
    ensures Dependencies(a, t) == Dependencies(b, t)
  {
    if a != [] && a[0].name != t {
      SameDependencies(a[1..], b[1..], t);
    }
  }

  lemma SameEdges(a: Services, b: Services, t: string)
    requires |a| == |b| && forall i :: 0 <= i < |a| ==> a[i].name == b[i].name && a[i].dependencies == b[i].dependencies
    ensures BlastRadius(a, t) == BlastRadius(b, t)
  {
    SameDependents(a, b, t);
    SameDependencies(a, b, t);
  }

  // The blast radius

  /** `list(dict.fromkeys(xs))`: each element once, where it first occurred. */
  function Dedup(xs: seq<string>): seq<string> {
    if xs == [] then [] else
      var front := Dedup(xs[..|xs| - 1]);
      if xs[|xs| - 1] in front then front else front + [xs[|xs| - 1]]
  }

  function BlastRadius(services: Services, target: string): seq<string> {
    Dedup([target] + Dependents(services, target) + Dependencies(services, target))
  }

  /** The service named `a` lists `b` among its dependencies. */
  ghost predicate DependsOn(services: Services, a: string, b: string) {
    exists i :: 0 <= i < |services| && services[i].name == a && b in services[i].dependencies
  }

  ghost predicate Distinct(s: seq<string>) {
    forall i, j :: 0 <= i < j < |s| ==> s[i] != s[j]
  }

  lemma {:induction false} DedupMeaning(xs: seq<string>)
    ensures Distinct(Dedup(xs))
    ensures forall x :: x in Dedup(xs) <==> x in xs
    ensures xs != [] ==> Dedup(xs) != [] && Dedup(xs)[0] == xs[0]
  {
    if xs != [] {
      var front := xs[..|xs| - 1];
      DedupMeaning(front);
      assert xs == front + [xs[|xs| - 1]];
      if front == [] {
        assert Dedup(front) == [];
      }
    }
  }

  lemma {:induction false} DependentsMeaning(services: Services, name: string, x: string)
    ensures x in Dependents(services, name) <==> DependsOn(services, x, name)
  {
    if services != [] {
      var n := |services| - 1;
      DependentsMeaning(services[..n], name, x);
      if DependsOn(services[..n], x, name) {
        var i :| 0 <= i < n && services[..n][i].name == x && name in services[..n][i].dependencies;
        assert services[i].name == x;
      }
      if DependsOn(services, x, name) {
        var i :| 0 <= i < |services| && services[i].name == x && name in services[i].dependencies;
        if i < n {
          assert services[..n][i].name == x;
        }
      }
    }
  }

  lemma {:induction false} DependenciesMeaning(services: Services, name: string, x: string)
    requires UniqueNames(services)
    ensures x in Dependencies(services, name) <==> DependsOn(services, name, x)
  {
    if services != [] {
      var rest := services[1..];
      if services[0].name != name {
        DependenciesMeaning(rest, name, x);
        if DependsOn(rest, name, x) {
          var i :| 0 <= i < |rest| && rest[i].name == name && x in rest[i].dependencies;
          assert services[i + 1].name == name;
        }
        if DependsOn(services, name, x) {
          var i :| 0 <= i < |services| && services[i].name == name && x in services[i].dependencies;
          assert rest[i - 1].name == name;
        }
      }
    }
  }

  /** The target and its direct neighbours in either direction, each once, the target first. */
  lemma BlastRadiusMeaning(services: Services, target: string)
    requires UniqueNames(services)
    ensures var r := BlastRadius(services, target);
            && Distinct(r) && r != [] && r[0] == target
            && forall x :: x in r <==> x == target || DependsOn(services, x, target) || DependsOn(services, target, x)
  {
    DedupMeaning([target] + Dependents(services, target) + Dependencies(services, target));
    forall x
      ensures x in BlastRadius(services, target) <==>
                x == target || DependsOn(services, x, target) || DependsOn(services, target, x)
    {
      DependentsMeaning(services, target, x);
      DependenciesMeaning(services, target, x);
    }
  }

  /** A service is in reach of another exactly when the other is in reach of it. */
  lemma BlastRadiusSymmetric(services: Services, a: string, b: string)
    requires UniqueNames(services)
    ensures a in BlastRadius(services, b) <==> b in BlastRadius(services, a)
  {
    BlastRadiusMeaning(services, a);
    BlastRadiusMeaning(services, b);
  }

  // Risk

  function BaseRisk(t: ActionType): int {
    match t
    case ClearCache => 200
    case ScaleReplicas => 300
    case ModifyConfiguration => 450
    case RestartService => 650
    case RollbackDeployment => 700
    case RunQuery => 850
  }

  function RiskScore(t: ActionType, destructive: bool, reach: nat): int {
    Min(1000, (if destructive then 1000 else BaseRisk(t)) + Min(200, reach * 50))
  }

  function Tier(score: int): RiskTier {
    if score < 350 then Low else if score < 600 then Medium else if score < 850 then High else Critical
  }

  function TypeName(t: ActionType): string {
    match t
    case RestartService => "restart_service"
    case RollbackDeployment => "rollback_deployment"
    case ScaleReplicas => "scale_replicas"
    case ModifyConfiguration => "modify_configuration"
    case RunQuery => "run_query"
    case ClearCache => "clear_cache"
  }

  /** What the engine is configured with; the hash and the destructive-payload test are given. */
  datatype Engine = Engine(services: Services, destructive: Json -> bool, hash: string -> string,
      autoRemediateLowRisk: bool)

  function Assess(e: Engine, action: RemediationAction, incidentId: string): RemediationAction {
    var destructive := e.destructive(Obj(action.parameters));
    var score := RiskScore(action.actionType, destructive, |BlastRadius(e.services, action.targetService)|);
    action.(riskScore := score,
            riskTier := Tier(score),
            requiresApproval := !(Tier(score) == Low && e.autoRemediateLowRisk && !destructive),
            idempotencyKey := e.hash(IdempotencyKey.RawKey(incidentId, TypeName(action.actionType),
                action.targetService, Obj(action.parameters))))
  }

  datatype Denial = UnknownRole | ViewerReadOnly | NeedsAdmin | NeedsOperator

  function Authorize(tier: RiskTier, approverRole: string): Result<(), Denial> {
    var role := Upper(approverRole);
    if role !in ["VIEWER", "OPERATOR", "ADMIN"] then Err(UnknownRole)
    else if role == "VIEWER" then Err(ViewerReadOnly)
    else if tier == Critical && role != "ADMIN" then Err(NeedsAdmin)
    else if tier == High && role !in ["ADMIN", "OPERATOR"] then Err(NeedsOperator)
    else Ok(())
  }

  // Who may approve what

  /** Administrators may approve everything, operators everything that is not critical, and nobody else anything. */
  lemma WhoMayApprove(tier: RiskTier, role: string)
    ensures Authorize(tier, role).Ok? <==>
              SameIgnoringCase(role, "ADMIN") || (SameIgnoringCase(role, "OPERATOR") && tier != Critical)
    ensures Authorize(tier, role).Err? ==>
              Authorize(tier, role).error ==
                if SameIgnoringCase(role, "OPERATOR") then NeedsAdmin
                else if SameIgnoringCase(role, "VIEWER") then ViewerReadOnly
                else UnknownRole
  {
    UpperMeaning(role, "VIEWER");
    UpperMeaning(role, "OPERATOR");
    UpperMeaning(role, "ADMIN");
  }

  // How the tiers fall

  /**
   * The score in thousandths: a base for the type of the action, the whole for
   * a destructive payload, and fifty for each service in reach up to four.
   * Assessment changes nothing else than the score, the tier, the need of
   * approval, which only a low tier may lose, and the key.
   */
  lemma AssessmentMeaning(e: Engine, action: RemediationAction, incidentId: string)
    requires UniqueNames(e.services)
    ensures var n := |BlastRadius(e.services, action.targetService)|;
            var penalty := if n >= 4 then 200 else 50 * n;
            var destructive := e.destructive(Obj(action.parameters));
            var r := Assess(e, action, incidentId);
            && 1 <= n
            && r == action.(riskScore := r.riskScore, riskTier := r.riskTier, requiresApproval := r.requiresApproval,
                            idempotencyKey := r.idempotencyKey)
            && (destructive ==> r.riskScore == 1000)
            && (!destructive ==>
                  match action.actionType
                  case ClearCache => r.riskScore == 200 + penalty
                  case ScaleReplicas => r.riskScore == 300 + penalty
                  case ModifyConfiguration => r.riskScore == 450 + penalty
                  case RestartService => r.riskScore == 650 + penalty
                  case RollbackDeployment => r.riskScore == 700 + penalty
                  case RunQuery => r.riskScore == if n >= 3 then 1000 else 850 + penalty)
            && (r.riskTier == Low <==> r.riskScore < 350)
            && (r.riskTier == Medium <==> 350 <= r.riskScore < 600)
            && (r.riskTier == High <==> 600 <= r.riskScore < 850)
            && (r.requiresApproval <==> !(e.autoRemediateLowRisk && r.riskTier == Low && !destructive))
  {
    BlastRadiusMeaning(e.services, action.targetService);
  }

  /** What is hashed: incident, type, target and parameters by key, joined by colons. */
  lemma KeyText(e: Engine, action: RemediationAction, incidentId: string)
    ensures var name := match action.actionType
                        case RestartService => "restart_service"
                        case RollbackDeployment => "rollback_deployment"
                        case ScaleReplicas => "scale_replicas"
                        case ModifyConfiguration => "modify_configuration"
                        case RunQuery => "run_query"
                        case ClearCache => "clear_cache";
            Assess(e, action, incidentId).idempotencyKey ==
              e.hash(incidentId + ":" + name + ":" + action.targetService + ":"
                     + JsonOrder.Dumps(Obj(action.parameters)))
  {
  }

  /**
   * The tier from the action type and the number of services in reach alone:
   * only clearing a cache can be low, and only up to two services.
   */
  lemma TierByReach(e: Engine, action: RemediationAction, incidentId: string)
    requires UniqueNames(e.services)
    ensures var n := |BlastRadius(e.services, action.targetService)|;
            var t := action.actionType;
            var tier := Assess(e, action, incidentId).riskTier;
            && n >= 1
            && (e.destructive(Obj(action.parameters)) ==> tier == Critical)
            && (!e.destructive(Obj(action.parameters)) ==>
                  && (tier == Low <==> t == ClearCache && n <= 2)
                  && (tier == Medium <==>
                          (t == ClearCache && n > 2) || t == ScaleReplicas || (t == ModifyConfiguration && n <= 2))
                  && (tier == Critical <==>
                          t == RunQuery || (t == RollbackDeployment && n >= 3) || (t == RestartService && n >= 4)))
  {
    BlastRadiusMeaning(e.services, action.targetService);
  }

  /** Rolling back or restarting the payment service of the default topology is critical. */
  lemma PaymentServiceIsCritical(e: Engine, action: RemediationAction, incidentId: string)
    requires e.services == DEFAULT_TOPOLOGY && action.targetService == "payment-service"
    requires action.actionType == RollbackDeployment || action.actionType == RestartService
    ensures Assess(e, action, incidentId).riskTier == Critical && Assess(e, action, incidentId).requiresApproval
  {
    var services := e.services;
    var reach := BlastRadius(services, "payment-service");
    assert services[0].name == "api-gateway" && services[1].name == "auth-service"
           && services[2].name == "order-service"
           && services[3].name == "payment-service" && services[4].name == "notification-service";
    hide Assess;
    hide BlastRadius;
    BlastRadiusMeaning(services, "payment-service");
    assert DependsOn(services, services[0].name, "payment-service");
    assert DependsOn(services, services[2].name, "payment-service");
    assert DependsOn(services, "payment-service", services[4].name);
    DistinctLength(["payment-service", "api-gateway", "order-service", "notification-service"], reach);
    TierByReach(e, action, incidentId);
  }

  // Growth

  /** Every dependency of the one topology is a dependency of the other. */
  ghost predicate Extends(services: Services, larger: Services) {
    forall a, b :: DependsOn(services, a, b) ==> DependsOn(larger, a, b)
  }

  function AddDependency(services: Services, i: nat, dependency: string): Services
    requires i < |services|
  {
    services[i := services[i].(dependencies := services[i].dependencies + [dependency])]
  }

  lemma AddDependencyExtends(services: Services, i: nat, dependency: string)
    requires i < |services| && UniqueNames(services)
    ensures UniqueNames(AddDependency(services, i, dependency))
    ensures Extends(services, AddDependency(services, i, dependency))
  {
    var larger := AddDependency(services, i, dependency);
    forall a, b | DependsOn(services, a, b) ensures DependsOn(larger, a, b) {
      var j :| 0 <= j < |services| && services[j].name == a && b in services[j].dependencies;
      assert larger[j].name == a && b in larger[j].dependencies;
    }
  }

  lemma AddServiceExtends(services: Services, node: ServiceNode)
    requires UniqueNames(services) && forall i :: 0 <= i < |services| ==> services[i].name != node.name
    ensures UniqueNames(services + [node]) && Extends(services, services + [node])
  {
    forall a, b | DependsOn(services, a, b) ensures DependsOn(services + [node], a, b) {
      var j :| 0 <= j < |services| && services[j].name == a && b in services[j].dependencies;
      assert (services + [node])[j].name == a;
    }
  }

  lemma {:induction false} DistinctLength(s: seq<string>, t: seq<string>)
    requires Distinct(s) && forall x :: x in s ==> x in t
    ensures |s| <= |t|
  {
    if s != [] {
      var x := s[|s| - 1];
      assert x in t;
      var k :| 0 <= k < |t| && t[k] == x;
      var rest := t[..k] + t[k + 1..];
      var front := s[..|s| - 1];
      forall y | y in front ensures y in rest {
        var i :| 0 <= i < |front| && front[i] == y;
        assert s[i] in s && s[i] in t && y != x;
        var j :| 0 <= j < |t| && t[j] == y;
        assert y == if j < k then rest[j] else rest[j - 1];
      }
      DistinctLength(front, rest);
    }
  }

  lemma BlastRadiusGrows(services: Services, larger: Services, target: string)
    requires UniqueNames(services) && UniqueNames(larger) && Extends(services, larger)
    ensures forall x :: x in BlastRadius(services, target) ==> x in BlastRadius(larger, target)
    ensures |BlastRadius(services, target)| <= |BlastRadius(larger, target)|
  {
    BlastRadiusMeaning(services, target);
    BlastRadiusMeaning(larger, target);
    DistinctLength(BlastRadius(services, target), BlastRadius(larger, target));
  }

  function Rank(t: RiskTier): nat {
    match t
    case Low => 0
    case Medium => 1
    case High => 2
    case Critical => 3
  }

  /**
   * When the topology grows, no assessed action gets a lower score or tier,
   * needs approval less, or becomes approvable by a role that could not
   * approve it before.
   */
  lemma RiskGrows(e: Engine, larger: Services, action: RemediationAction, incidentId: string, role: string)
    requires UniqueNames(e.services) && UniqueNames(larger) && Extends(e.services, larger)
    ensures var before := Assess(e, action, incidentId);
            var after := Assess(e.(services := larger), action, incidentId);
            && before.riskScore <= after.riskScore
            && Rank(before.riskTier) <= Rank(after.riskTier)
            && (before.requiresApproval ==> after.requiresApproval)
            && (Authorize(after.riskTier, role).Ok? ==> Authorize(before.riskTier, role).Ok?)
            && before.idempotencyKey == after.idempotencyKey
  {
    BlastRadiusGrows(e.services, larger, action.targetService);
  }
}
