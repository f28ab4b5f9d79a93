/**
 * The master's handling of a "set quota" request: building the `QuotaInfo`,
 * the capacity heuristic, the rescinding of outstanding offers, and the order
 * of checks that decides the HTTP response (400 Bad Request, 409 Conflict or
 * 200 OK, section 6 of RFC 7231).
 */
module QuotaHandler {
  import opened Wrappers
  import opened Resources
  import opened Quota

  /** A framework of a role, as far as rescinding cares. */
  datatype Framework = Framework(connected: bool, active: bool)

  /** An outstanding offer: its framework and the resources it holds. */
  datatype Offer = Offer(framework: string, resources: seq<Resource>)

  /** A registered agent: its state, its `SlaveInfo` resources and its outstanding offers. */
  datatype Agent = Agent(connected: bool, active: bool, resources: seq<Resource>, offers: seq<Offer>)

  /** Only connected and active agents take part in allocation. */
  predicate Eligible(a: Agent)
  {
    a.connected && a.active
  }

  /** `createQuotaInfo`: the guarantee is the resources, the role that of the first resource. */
  function CreateQuotaInfo(resources: seq<Resource>): (q: QuotaInfo)
    ensures q.guarantee == resources
    ensures |resources| > 0 ==> q.role == RoleOf(resources[0])
    ensures |resources| == 0 ==> q.role == ""
  {
    QuotaInfo(if |resources| > 0 then RoleOf(resources[0]) else "", resources)
  }

  /** The unreserved resources of the eligible agents among `agents`, in order. */
  function Capacity(agents: seq<Agent>): seq<Resource>
  {
    if agents == [] then []
    else
      var last := agents[|agents| - 1];
      Capacity(agents[..|agents| - 1]) + (if Eligible(last) then Unreserved(last.resources) else [])
  }

  /** Some agent is eligible. */
  predicate AnyEligible(agents: seq<Agent>)
  {
    exists i :: 0 <= i < |agents| && Eligible(agents[i])
  }

  /** The guarantees of the quotas of `order`'s roles, concatenated in that order. */
  function Guarantees(quotas: map<string, QuotaInfo>, order: seq<string>): seq<Resource>
    requires forall i :: 0 <= i < |order| ==> order[i] in quotas
  {
    if order == [] then []
    else Guarantees(quotas, order[..|order| - 1]) + quotas[order[|order| - 1]].guarantee
  }

  /** The flattened total of the request and of all existing quotas. */
  function TotalQuota(request: QuotaInfo, quotas: map<string, QuotaInfo>, order: seq<string>): seq<Resource>
    requires forall i :: 0 <= i < |order| ==> order[i] in quotas
  {
    Flatten(request.guarantee + Guarantees(quotas, order))
  }

  /** `order` lists every role with quota once: the iteration order of the `quotas` hashmap. */
  predicate Enumerates(order: seq<string>, quotas: map<string, QuotaInfo>)
  {
    (forall i :: 0 <= i < |order| ==> order[i] in quotas) &&
    (forall r :: r in quotas ==> r in order) &&
    (forall i, j :: 0 <= i < j < |order| ==> order[i] != order[j])
  }

  /** The offers of the eligible agents among `agents`, in order. */
  function OffersOf(agents: seq<Agent>): seq<Offer>
  {
    if agents == [] then []
    else
      var last := agents[|agents| - 1];
      OffersOf(agents[..|agents| - 1]) + (if Eligible(last) then last.offers else [])
  }

  /** The resources of `offers`, added up. */
  function OfferResources(offers: seq<Offer>): seq<Resource>
  {
    if offers == [] then []
    else OfferResources(offers[..|offers| - 1]) + offers[|offers| - 1].resources
  }

  /** How many of `agents` are eligible. */
  function Visited(agents: seq<Agent>): nat
  {
    if agents == [] then 0
    else Visited(agents[..|agents| - 1]) + (if Eligible(agents[|agents| - 1]) then 1 else 0)
  }

  /** How many of a role's frameworks are connected and active. */
  function QuotaedFrameworks(frameworks: seq<Framework>): nat
  {
    if frameworks == [] then 0
    else QuotaedFrameworks(frameworks[1..]) + (if frameworks[0].connected && frameworks[0].active then 1 else 0)
  }

  /**
   * The stop condition checked before each agent: what the first `i` agents'
   * offers gave back contains the flattened guarantee, and at least
   * `frameworks` agents have been visited.
   */
  predicate Enough(agents: seq<Agent>, guarantee: seq<Resource>, frameworks: nat, i: nat)
    requires i <= |agents|
  {
    Contains(OfferResources(OffersOf(agents[..i])), guarantee) && Visited(agents[..i]) >= frameworks
  }

  /** The number of agents `rescindOffers` goes through before it stops, counting from `i`. */
  function StopIndex(agents: seq<Agent>, guarantee: seq<Resource>, frameworks: nat, i: nat): (k: nat)
    requires i <= |agents|
    ensures i <= k <= |agents|
    ensures k < |agents| ==> Enough(agents, guarantee, frameworks, k)
    ensures forall j :: i <= j < k ==> !Enough(agents, guarantee, frameworks, j)
    decreases |agents| - i
  {
    if i == |agents| then i
    else if Enough(agents, guarantee, frameworks, i) then i
    else StopIndex(agents, guarantee, frameworks, i + 1)
  }

  /** `agents` with the offers of the eligible ones among the first `k` removed. */
  function ClearedUpTo(agents: seq<Agent>, k: nat): (r: seq<Agent>)
    ensures |r| == |agents|
  {
    seq(|agents|, i requires 0 <= i < |agents| =>
      if i < k && Eligible(agents[i]) then agents[i].(offers := []) else agents[i])
  }

  /** Why a set-quota request is answered 400 Bad Request. */
  datatype SetFailure =
    | DecodeFailed
    | MissingResources
    | ParseFailed(reason: string)
    | Invalid(error: QuotaError)
    | UnknownRole
    | QuotaExists

  datatype Response = OK | BadRequest(failure: SetFailure) | Conflict

  /**
   * The checks of `QuotaHandler::set` before the capacity heuristic, in the
   * order the handler applies them. `decoded` is the result of decoding the
   * query string and `parse` stands for the JSON parsing of resources.
   * (`createQuotaInfo` cannot fail.)
   */
  function Admit(
    decoded: Result<map<string, string>, string>,
    parse: string -> Result<seq<Resource>, string>,
    validate: Resource -> Option<string>,
    roles: set<string>,
    quotas: set<string>): (r: Result<QuotaInfo, SetFailure>)
    ensures r.Ok? <==>
      decoded.Ok? && "resources" in decoded.value && parse(decoded.value["resources"]).Ok? &&
      FirstProblem(CreateQuotaInfo(parse(decoded.value["resources"]).value), validate).None? &&
      CreateQuotaInfo(parse(decoded.value["resources"]).value).role in roles &&
      CreateQuotaInfo(parse(decoded.value["resources"]).value).role !in quotas
    ensures r.Ok? ==> r.value == CreateQuotaInfo(parse(decoded.value["resources"]).value)
    ensures decoded.Err? ==> r == Err(DecodeFailed)
  {
    if decoded.Err? then Err(DecodeFailed)
    else if "resources" !in decoded.value then Err(MissingResources)
    else
      var parsed := parse(decoded.value["resources"]);
      if parsed.Err? then Err(ParseFailed(parsed.error))
      else
        var info := CreateQuotaInfo(parsed.value);
        var problem := FirstProblem(info, validate);
        if problem.Some? then Err(Invalid(problem.value))
        else if info.role !in roles then Err(UnknownRole)
        else if info.role in quotas then Err(QuotaExists)
        else Ok(info)
  }

  /** Capacity adds up over consecutive groups of agents. */
  lemma {:induction false} CapacityConcat(a: seq<Agent>, b: seq<Agent>)
    ensures Capacity(a + b) == Capacity(a) + Capacity(b)
    decreases |b|
  {
    if b == [] {
      assert a + b == a;
    } else {
      assert (a + b)[..|a + b| - 1] == a + b[..|b| - 1];
      CapacityConcat(a, b[..|b| - 1]);
    }
  }

  /** Agents after the last eligible one add no capacity. */
  lemma {:induction false} CapacityIneligibleTail(agents: seq<Agent>, last: nat)
    requires last < |agents|
    requires forall j :: last < j < |agents| ==> !Eligible(agents[j])
    ensures Capacity(agents) == Capacity(agents[..last + 1])
    decreases |agents|
  {
    if last + 1 < |agents| {
      var pre := agents[..|agents| - 1];
      assert pre[..last + 1] == agents[..last + 1];
      CapacityIneligibleTail(pre, last);
    } else {
      assert agents[..last + 1] == agents;
    }
  }

  /** Once the agents up to an eligible one contain the total, all agents do. */
  lemma EarlyExitSound(agents: seq<Agent>, i: nat, total: seq<Resource>)
    requires i < |agents| && Eligible(agents[i])
    requires Contains(Capacity(agents[..i + 1]), total)
    ensures AnyEligible(agents) && Contains(Capacity(agents), total)
  {
    CapacityConcat(agents[..i + 1], agents[i + 1..]);
    assert agents[..i + 1] + agents[i + 1..] == agents;
    ContainsGrow(Capacity(agents[..i + 1]), Capacity(agents[i + 1..]), total);
  }

  /** The last eligible agent, when there is one. */
  lemma {:induction false} LastEligible(agents: seq<Agent>) returns (last: nat)
    requires AnyEligible(agents)
    ensures last < |agents| && Eligible(agents[last])
    ensures forall j :: last < j < |agents| ==> !Eligible(agents[j])
    decreases |agents|
  {
    if Eligible(agents[|agents| - 1]) {
      last := |agents| - 1;
    } else {
      var pre := agents[..|agents| - 1];
      var i :| 0 <= i < |agents| && Eligible(agents[i]);
      assert pre[i] == agents[i];
      last := LastEligible(pre);
    }
  }

  /** No eligible agent among the first `i` brought the capacity up to `total`. */
  predicate NoPrefixContains(agents: seq<Agent>, i: nat, total: seq<Resource>)
    requires i <= |agents|
  {
    forall j :: 0 <= j < i && Eligible(agents[j]) ==> !Contains(Capacity(agents[..j + 1]), total)
  }

  lemma NoPrefixContainsStep(agents: seq<Agent>, i: nat, total: seq<Resource>)
    requires i < |agents| && NoPrefixContains(agents, i, total)
    requires Eligible(agents[i]) ==> !Contains(Capacity(agents[..i + 1]), total)
    ensures NoPrefixContains(agents, i + 1, total)
  {
  }

  /** If no eligible prefix contained the total, the full capacity does not either. */
  lemma ExhaustedFails(agents: seq<Agent>, total: seq<Resource>)
    requires NoPrefixContains(agents, |agents|, total)
    ensures !(AnyEligible(agents) && Contains(Capacity(agents), total))
  {
    if AnyEligible(agents) {
      var last := LastEligible(agents);
      CapacityIneligibleTail(agents, last);
    }
  }

  /** Adding the next role's guarantee to the running total. */
  lemma GuaranteesStep(head: seq<Resource>, quotas: map<string, QuotaInfo>, order: seq<string>, q: nat)
    requires q < |order| && forall i :: 0 <= i < |order| ==> order[i] in quotas
    ensures head + Guarantees(quotas, order[..q + 1]) == head + Guarantees(quotas, order[..q]) + quotas[order[q]].guarantee
  {
    assert order[..q + 1][..q] == order[..q];
  }

  /** Counting agent `i`: its unreserved resources join the capacity when it is eligible. */
  lemma CapacityStep(agents: seq<Agent>, i: nat)
    requires i < |agents|
    ensures Capacity(agents[..i + 1]) ==
      Capacity(agents[..i]) + (if Eligible(agents[i]) then Unreserved(agents[i].resources) else [])
  {
    assert agents[..i + 1][..i] == agents[..i];
  }

  /** Why the capacity heuristic rejects a request. */
  const InsufficientCapacity: string :=
    "Not enough available cluster capacity to reasonably satisfy quota request; the force flag can be used to override this check"

  /**
   * `QuotaHandler::capacityHeuristic`. The request passes (no error) exactly
   * when some agent is connected and active and the unreserved resources of
   * all such agents contain the flattened sum of the request and of every
   * existing quota; stopping at the first agent that makes the sum large
   * enough does not change that verdict. With no eligible agent the request
   * fails even when the total is empty, because the containment is only
   * tested after an agent is counted. Disconnected and inactive agents add
   * nothing. `order` is the iteration order of the master's quota map.
   */
  method CapacityHeuristic(
    request: QuotaInfo,
    roles: set<string>,
    quotas: map<string, QuotaInfo>,
    order: seq<string>,
    agents: seq<Agent>) returns (error: Option<string>)
    requires request.role in roles && request.role !in quotas
    requires Enumerates(order, quotas)
    ensures error.None? <==> AnyEligible(agents) && Contains(Capacity(agents), TotalQuota(request, quotas, order))
  {
    var total := request.guarantee;
    var q := 0;
    while q < |order|
      invariant 0 <= q <= |order|
      invariant total == request.guarantee + Guarantees(quotas, order[..q])
    {
      GuaranteesStep(request.guarantee, quotas, order, q);
      total := total + quotas[order[q]].guarantee;
      q := q + 1;
    }
    assert order[..q] == order;
    total := Flatten(total);

    var sum: seq<Resource> := [];
    var i := 0;
    while i < |agents|
      invariant 0 <= i <= |agents|
      invariant sum == Capacity(agents[..i])
      invariant NoPrefixContains(agents, i, total)
    {
      var agent := agents[i];
      CapacityStep(agents, i);
      if !agent.connected || !agent.active {
        NoPrefixContainsStep(agents, i, total);
        i := i + 1;
        continue;
      }
      sum := sum + Unreserved(agent.resources);
      if Contains(sum, total) {
        EarlyExitSound(agents, i, total);
        return None;
      }
      NoPrefixContainsStep(agents, i, total);
      i := i + 1;
    }
    ExhaustedFails(agents, total);
    return Some(InsufficientCapacity);
  }

  /** What a list of offers gives back adds up over consecutive groups. */
  lemma {:induction false} OfferResourcesConcat(a: seq<Offer>, b: seq<Offer>)
    ensures OfferResources(a + b) == OfferResources(a) + OfferResources(b)
    decreases |b|
  {
    if b == [] {
      assert a + b == a;
    } else {
      assert (a + b)[..|a + b| - 1] == a + b[..|b| - 1];
      OfferResourcesConcat(a, b[..|b| - 1]);
    }
  }

  /** Going past agent `i`: its offers join the rescinded ones when it is eligible, and it is counted. */
  lemma VisitStep(agents: seq<Agent>, i: nat)
    requires i < |agents|
    ensures OffersOf(agents[..i + 1]) ==
      if Eligible(agents[i]) then OffersOf(agents[..i]) + agents[i].offers else OffersOf(agents[..i])
    ensures Visited(agents[..i + 1]) == Visited(agents[..i]) + (if Eligible(agents[i]) then 1 else 0)
    ensures ClearedUpTo(agents, i + 1) ==
      if Eligible(agents[i]) then ClearedUpTo(agents, i)[i := agents[i].(offers := [])] else ClearedUpTo(agents, i)
  {
    assert agents[..i + 1][..i] == agents[..i];
    assert OffersOf(agents[..i]) + [] == OffersOf(agents[..i]);
  }

  lemma {:induction false} OffersOfConcat(a: seq<Agent>, b: seq<Agent>)
    ensures OffersOf(a + b) == OffersOf(a) + OffersOf(b)
    decreases |b|
  {
    if b == [] {
      assert a + b == a;
    } else {
      assert (a + b)[..|a + b| - 1] == a + b[..|b| - 1];
      OffersOfConcat(a, b[..|b| - 1]);
    }
  }

  lemma {:induction false} VisitedConcat(a: seq<Agent>, b: seq<Agent>)
    ensures Visited(a + b) == Visited(a) + Visited(b)
    decreases |b|
  {
    if b == [] {
      assert a + b == a;
    } else {
      assert (a + b)[..|a + b| - 1] == a + b[..|b| - 1];
      VisitedConcat(a, b[..|b| - 1]);
    }
  }

  /**
   * A disconnected or inactive agent, wherever it sits, adds nothing to the
   * capacity, gives back no offers and is not counted as visited.
   */
  lemma IneligibleIgnored(a: seq<Agent>, x: Agent, b: seq<Agent>)
    requires !Eligible(x)
    ensures Capacity(a + [x] + b) == Capacity(a + b)
    ensures OffersOf(a + [x] + b) == OffersOf(a + b)
    ensures Visited(a + [x] + b) == Visited(a + b)
  {
    CapacityConcat(a + [x], b);
    CapacityConcat(a, b);
    OffersOfConcat(a + [x], b);
    OffersOfConcat(a, b);
    VisitedConcat(a + [x], b);
    VisitedConcat(a, b);
    assert (a + [x])[..|a|] == a;
    assert Capacity(a + [x]) == Capacity(a) + [];
    assert OffersOf(a + [x]) == OffersOf(a) + [];
  }

  /** The test `rescindOffers` makes on its running totals is `Enough`. */
  lemma EnoughHere(agents: seq<Agent>, guarantee: seq<Resource>, frameworks: nat, i: nat, rescinded: seq<Resource>, visited: nat)
    requires i <= |agents|
    requires rescinded == OfferResources(OffersOf(agents[..i])) && visited == Visited(agents[..i])
    ensures Enough(agents, guarantee, frameworks, i) <==> Contains(rescinded, guarantee) && visited >= frameworks
  {
  }

  /** Rescinding the offers of eligible agent `i` extends what was given back by exactly those offers. */
  lemma RescindStep(recovered: seq<Offer>, agents: seq<Agent>, i: nat)
    requires i < |agents| && Eligible(agents[i])
    ensures recovered + OffersOf(agents[..i + 1]) == recovered + OffersOf(agents[..i]) + agents[i].offers
    ensures OfferResources(OffersOf(agents[..i + 1])) ==
      OfferResources(OffersOf(agents[..i])) + OfferResources(agents[i].offers)
  {
    var before := OffersOf(agents[..i]);
    EligibleOffersStep(agents, i);
    assert recovered + (before + agents[i].offers) == recovered + before + agents[i].offers;
    OfferResourcesConcat(before, agents[i].offers);
  }

  /** The offers of an eligible agent follow those of the agents before it. */
  lemma EligibleOffersStep(agents: seq<Agent>, i: nat)
    requires i < |agents| && Eligible(agents[i])
    ensures OffersOf(agents[..i + 1]) == OffersOf(agents[..i]) + agents[i].offers
  {
    assert agents[..i + 1][..i] == agents[..i];
  }

  /** The verdict of the capacity heuristic for `request` (see `CapacityHeuristic`). */
  predicate HeuristicPasses(request: QuotaInfo, quotas: map<string, QuotaInfo>, order: seq<string>, agents: seq<Agent>)
    requires Enumerates(order, quotas)
  {
    AnyEligible(agents) && Contains(Capacity(agents), TotalQuota(request, quotas, order))
  }

  /** The part of the master's state the quota handler reads and changes. */
  class Master {
    /** The known roles and, for each, its frameworks in iteration order. */
    var roles: map<string, seq<Framework>>
    /** The quota of each role that has one. */
    var quotas: map<string, QuotaInfo>
    /** The registered agents, in iteration order. */
    var agents: seq<Agent>
    /** The offers whose resources were handed back to the allocator, in order. */
    var recovered: seq<Offer>
    /** The quotas the allocator has been told about. */
    var allocatorQuotas: map<string, QuotaInfo>

    constructor (roles: map<string, seq<Framework>>, agents: seq<Agent>)
      ensures this.roles == roles && this.agents == agents
      ensures quotas == map[] && recovered == [] && allocatorQuotas == map[]
    {
      this.roles := roles;
      this.agents := agents;
      quotas := map[];
      recovered := [];
      allocatorQuotas := map[];
    }

    /**
     * `QuotaHandler::rescindOffers`. Agents are visited in order until the
     * offers given back contain the flattened guarantee and at least as many
     * agents were visited as the role has connected, active frameworks. Each
     * visited (connected, active) agent loses all its outstanding offers,
     * which go back to the allocator; other agents are skipped and not
     * counted.
     */
    method RescindOffers(request: QuotaInfo)
      requires request.role in roles
      modifies this
      ensures roles == old(roles) && quotas == old(quotas) && allocatorQuotas == old(allocatorQuotas)
      ensures
        var k := StopIndex(old(agents), Flatten(request.guarantee), QuotaedFrameworks(old(roles)[request.role]), 0);
        agents == ClearedUpTo(old(agents), k) && recovered == old(recovered) + OffersOf(old(agents)[..k])
    {
      var guarantee := Flatten(request.guarantee);
      var frameworks := QuotaedFrameworks(roles[request.role]);
      ghost var k := StopIndex(agents, guarantee, frameworks, 0);
      ghost var initial := agents;
      var visited := 0;
      var rescinded: seq<Resource> := [];
      var i := 0;
      while i < |agents|
        invariant 0 <= i <= k
        invariant |agents| == |initial|
        invariant roles == old(roles) && quotas == old(quotas) && allocatorQuotas == old(allocatorQuotas)
        invariant agents == ClearedUpTo(initial, i)
        invariant recovered == old(recovered) + OffersOf(initial[..i])
        invariant rescinded == OfferResources(OffersOf(initial[..i]))
        invariant visited == Visited(initial[..i])
      {
        EnoughHere(initial, guarantee, frameworks, i, rescinded, visited);
        if Contains(rescinded, guarantee) && visited >= frameworks {
          break;
        }
        assert i < k;
        VisitStep(initial, i);
        if !agents[i].connected || !agents[i].active {
          i := i + 1;
          continue;
        }
        RescindStep(old(recovered), initial, i);
        var got := RescindAgent(i);
        rescinded := rescinded + got;
        visited := visited + 1;
        i := i + 1;
      }
      assert i == k;
    }

    /**
     * `QuotaHandler::set`. The first failing check decides the answer: the
     * checks of `Admit` give 400 Bad Request, a failed capacity heuristic 409
     * Conflict; in both cases nothing changes. Otherwise the quota is recorded,
     * then offers are rescinded for it, then the allocator is told, and the
     * answer is 200 OK. `order` is the iteration order of the quota map.
     */
    method Set(
      decoded: Result<map<string, string>, string>,
      parse: string -> Result<seq<Resource>, string>,
      validate: Resource -> Option<string>,
      order: seq<string>) returns (response: Response)
      requires Enumerates(order, quotas)
      modifies this
      ensures roles == old(roles)
      ensures
        var admitted := Admit(decoded, parse, validate, old(roles).Keys, old(quotas).Keys);
        admitted.Err? ==>
          response == BadRequest(admitted.error) &&
          quotas == old(quotas) && agents == old(agents) && recovered == old(recovered) && allocatorQuotas == old(allocatorQuotas)
      ensures
        var admitted := Admit(decoded, parse, validate, old(roles).Keys, old(quotas).Keys);
        admitted.Ok? && !HeuristicPasses(admitted.value, old(quotas), order, old(agents)) ==>
          response == Conflict &&
          quotas == old(quotas) && agents == old(agents) && recovered == old(recovered) && allocatorQuotas == old(allocatorQuotas)
      ensures
        var admitted := Admit(decoded, parse, validate, old(roles).Keys, old(quotas).Keys);
        admitted.Ok? && HeuristicPasses(admitted.value, old(quotas), order, old(agents)) ==>
          var info := admitted.value;
          var k := StopIndex(old(agents), Flatten(info.guarantee), QuotaedFrameworks(old(roles)[info.role]), 0);
          response == OK &&
          quotas == old(quotas)[info.role := info] && allocatorQuotas == old(allocatorQuotas)[info.role := info] &&
          agents == ClearedUpTo(old(agents), k) && recovered == old(recovered) + OffersOf(old(agents)[..k])
    {
      if decoded.Err? {
        return BadRequest(DecodeFailed);
      }
      var values := decoded.value;
      if "resources" !in values {
        return BadRequest(MissingResources);
      }
      var resources := parse(values["resources"]);
      if resources.Err? {
        return BadRequest(ParseFailed(resources.error));
      }
      var info := CreateQuotaInfo(resources.value);
      var problem := ValidateQuotaInfo(info, validate);
      if problem.Some? {
        return BadRequest(Invalid(problem.value));
      }
      if info.role !in roles {
        return BadRequest(UnknownRole);
      }
      if info.role in quotas {
        return BadRequest(QuotaExists);
      }
      var error := CapacityHeuristic(info, roles.Keys, quotas, order, agents);
      if error.Some? {
        return Conflict;
      }
      quotas := quotas[info.role := info];
      RescindOffers(info);
      allocatorQuotas := allocatorQuotas[info.role := info];
      return OK;
    }

    /** Hand back every outstanding offer of agent `i`, in order, and remove them. */
    method RescindAgent(i: nat) returns (got: seq<Resource>)
      requires i < |agents|
      modifies this
      ensures roles == old(roles) && quotas == old(quotas) && allocatorQuotas == old(allocatorQuotas)
      ensures agents == old(agents)[i := old(agents)[i].(offers := [])]
      ensures recovered == old(recovered) + old(agents)[i].offers
      ensures got == OfferResources(old(agents)[i].offers)
    {
      var offers := agents[i].offers;
      got := [];
      var j := 0;
      while j < |offers|
        invariant 0 <= j <= |offers|
        invariant roles == old(roles) && quotas == old(quotas) && allocatorQuotas == old(allocatorQuotas)
        invariant agents == old(agents)[i := old(agents)[i].(offers := offers[j..])]
        invariant recovered == old(recovered) + offers[..j]
        invariant got == OfferResources(offers[..j])
      {
        assert offers[..j + 1][..j] == offers[..j];
        recovered := recovered + [offers[j]];
        got := got + offers[j].resources;
        agents := agents[i := agents[i].(offers := offers[j + 1..])];
        j := j + 1;
      }
      assert offers[..j] == offers && offers[j..] == [];
    }
  }
}
