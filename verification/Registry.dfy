/** The endpoint registry: agents, each with a linear chain of proxies, and the operations that change it. */
module Registry {
  import opened Outcomes

  /** Proxies allowed in one agent's chain. */
  const MAX_PROXY_CHAIN_LEN: nat := 16

  type Id = string

  /** `settings` stands for everything else a configuration holds. */
  datatype AgentConfig = AgentConfig(settings: nat, proxyChain: seq<Id>)

  datatype ProxyConfig = ProxyConfig(settings: nat)

  datatype Image = Image(agents: map<Id, AgentConfig>, proxies: map<Id, ProxyConfig>)

  datatype RegistryError = InvalidRegistry | NotFound

  predicate IsIdChar(c: char)
  {
    'a' <= c <= 'z' || 'A' <= c <= 'Z' || '0' <= c <= '9' || c == '_' || c == '.' || c == '-'
  }

  predicate IsValidId(id: Id)
  {
    |id| > 0 && forall i | 0 <= i < |id| :: IsIdChar(id[i])
  }

  predicate ChainFits(chain: seq<Id>)
  {
    |chain| <= MAX_PROXY_CHAIN_LEN && forall i, j | 0 <= i < j < |chain| :: chain[i] != chain[j]
  }

  predicate ChainKnown(chain: seq<Id>, proxies: map<Id, ProxyConfig>)
  {
    forall i | 0 <= i < |chain| :: chain[i] in proxies
  }

  predicate AgentOk(id: Id, agent: AgentConfig, proxies: map<Id, ProxyConfig>)
  {
    IsValidId(id) && ChainFits(agent.proxyChain) && ChainKnown(agent.proxyChain, proxies)
  }

  ghost predicate Valid(image: Image)
  {
    && (forall id | id in image.agents :: AgentOk(id, image.agents[id], image.proxies))
    && (forall id | id in image.proxies :: IsValidId(id))
  }

  /** The proxies behind a chain, in order, or nothing when one is missing. */
  function ResolveChain(chain: seq<Id>, proxies: map<Id, ProxyConfig>): (r: Option<seq<ProxyConfig>>)
    ensures r.Some? <==> ChainKnown(chain, proxies)
    ensures r.Some? ==> |r.value| == |chain| && forall i | 0 <= i < |chain| :: r.value[i] == proxies[chain[i]]
  {
    if |chain| == 0 then Some([]) else
      var last := chain[|chain| - 1];
      var init := ResolveChain(chain[..|chain| - 1], proxies);
      if init.None? || last !in proxies then None else Some(init.value + [proxies[last]])
  }

  /** What a connection to an agent is built from. */
  datatype Built = Built(config: AgentConfig, proxies: seq<ProxyConfig>)

  function Resolve(image: Image, id: Id): (r: Option<Built>)
  {
    if id !in image.agents then None else
      var chain := image.agents[id].proxyChain;
      var resolved := ResolveChain(chain, image.proxies);
      if !ChainFits(chain) || resolved.None? then None else Some(Built(image.agents[id], resolved.value))
  }

  /** In a valid registry every agent resolves. */
  lemma ValidMeansResolvable(image: Image, id: Id)
    requires Valid(image)
    ensures id in image.agents <==> Resolve(image, id).Some?
  {
    if id in image.agents {
      assert AgentOk(id, image.agents[id], image.proxies);
    }
  }

  /** A chain fits exactly when it has at most sixteen proxies, each once. */
  lemma ChainFitsMeans(chain: seq<Id>)
    ensures ChainFits(chain) <==> |chain| <= 16 && |ProxiesOf(chain)| == |chain|
  {
    EachOnce(chain);
  }

  function ProxiesOf(chain: seq<Id>): (ids: set<Id>)
  {
    set i | 0 <= i < |chain| :: chain[i]
  }

  /** As many different elements as places: no element is twice in the list. */
  lemma {:induction false} EachOnce(chain: seq<Id>)
    ensures |ProxiesOf(chain)| <= |chain|
    ensures |ProxiesOf(chain)| == |chain| <==> forall i, j | 0 <= i < j < |chain| :: chain[i] != chain[j]
  {
    if |chain| > 0 {
      var init, last := chain[..|chain| - 1], chain[|chain| - 1];
      EachOnce(init);
      assert ProxiesOf(chain) == ProxiesOf(init) + {last} by {
        assert forall i | 0 <= i < |init| :: chain[i] == init[i];
        assert chain[|chain| - 1] in ProxiesOf(chain);
        assert forall id | id in ProxiesOf(init) :: id in ProxiesOf(chain);
      }
      if last in ProxiesOf(init) {
        assert ProxiesOf(init) + {last} == ProxiesOf(init);
        var i :| 0 <= i < |init| && init[i] == last;
        assert chain[i] == chain[|chain| - 1];
      } else {
        assert forall i | 0 <= i < |init| :: chain[i] in ProxiesOf(init);
      }
    }
  }

  // ---- the changes ---------------------------------------------------------------------------------

  datatype Change =
    | RegisterAgent(agentId: Id, agent: AgentConfig)
    | RemoveAgent(agentId: Id)
    | RegisterProxy(proxyId: Id, proxy: ProxyConfig)
    | RemoveProxy(proxyId: Id)

  predicate Referenced(image: Image, proxy: Id)
  {
    exists id | id in image.agents :: proxy in image.agents[id].proxyChain
  }

  ghost function Changed(image: Image, change: Change): (r: Result<Image, RegistryError>)
  {
    match change
    case RegisterAgent(id, agent) =>
      var next := image.(agents := image.agents[id := agent]);
      if !IsValidId(id) || !Valid(next) then Err(InvalidRegistry) else Ok(next)
    case RemoveAgent(id) =>
      if id !in image.agents then Err(NotFound) else Ok(image.(agents := image.agents - {id}))
    case RegisterProxy(id, proxy) =>
      var next := image.(proxies := image.proxies[id := proxy]);
      if !IsValidId(id) || !Valid(next) then Err(InvalidRegistry) else Ok(next)
    case RemoveProxy(id) =>
      if id !in image.proxies then Err(NotFound)
      else if Referenced(image, id) then Err(InvalidRegistry)
      else Ok(image.(proxies := image.proxies - {id}))
  }

  /**
   Every change of a valid registry leaves a valid one, and is accepted exactly when: the agent's id
   and chain are well formed and its proxies known; the agent exists; the proxy's id is well formed;
   the proxy exists and no agent uses it.
   */
  lemma ChangesKeepValid(image: Image, change: Change)
    requires Valid(image)
    ensures Changed(image, change).Ok? ==> Valid(Changed(image, change).value)
    ensures Changed(image, change).Ok? <==>
              match change
              case RegisterAgent(id, agent) => AgentOk(id, agent, image.proxies)
              case RemoveAgent(id) => id in image.agents
              case RegisterProxy(id, _) => IsValidId(id)
              case RemoveProxy(id) => id in image.proxies && !Referenced(image, id)
  {
    hide IsValidId, ChainFits;
    match change
    case RegisterAgent(id, agent) =>
      var next := image.(agents := image.agents[id := agent]);
      assert id in next.agents && next.agents[id] == agent;
      assert forall other | other in next.agents && other != id :: other in image.agents;
    case RemoveAgent(id) =>
    case RegisterProxy(id, proxy) =>
      assert forall other | other in image.agents :: AgentOk(other, image.agents[other], image.proxies[id := proxy]);
    case RemoveProxy(id) =>
      if id in image.proxies && !Referenced(image, id) {
        forall other | other in image.agents ensures AgentOk(other, image.agents[other], image.proxies - {id}) {
          assert AgentOk(other, image.agents[other], image.proxies);
          assert id !in image.agents[other].proxyChain;
        }
      }
  }

  /**
   What an accepted change leaves in the registry: the one entry is as asked for, every other entry is as it was.
   A change is refused as not found exactly when it removes an entry that is not there.
   */
  lemma ChangedContents(image: Image, change: Change, other: Id)
    ensures Changed(image, change).Ok? ==>
              var next := Changed(image, change).value;
              match change
              case RegisterAgent(id, agent) =>
                && next.proxies == image.proxies && id in next.agents && next.agents[id] == agent
                && (other != id ==> SameEntry(image.agents, next.agents, other))
              case RemoveAgent(id) =>
                next.proxies == image.proxies && id !in next.agents && (other != id ==> SameEntry(image.agents, next.agents, other))
              case RegisterProxy(id, proxy) =>
                && next.agents == image.agents && id in next.proxies && next.proxies[id] == proxy
                && (other != id ==> SameEntry(image.proxies, next.proxies, other))
              case RemoveProxy(id) =>
                next.agents == image.agents && id !in next.proxies && (other != id ==> SameEntry(image.proxies, next.proxies, other))
    ensures Changed(image, change) == Err(NotFound) <==>
              || (change.RemoveAgent? && change.agentId !in image.agents)
              || (change.RemoveProxy? && change.proxyId !in image.proxies)
  {
    hide Valid, IsValidId, Referenced;
  }

  predicate IsIdCode(code: int)
  {
    0x30 <= code <= 0x39 || 0x41 <= code <= 0x5A || 0x61 <= code <= 0x7A || code in {0x2D, 0x2E, 0x5F}
  }

  /** An id is a non-empty text of ASCII digits, letters, dots, hyphens and underscores, by their codes. */
  lemma ValidIdMeans(id: Id)
    ensures IsValidId(id) <==>
              id != "" && forall i | 0 <= i < |id| :: IsIdCode(id[i] as int)
  {
    if id != "" {
      hide IsIdChar;
      forall i | 0 <= i < |id| ensures IsIdChar(id[i]) <==> IsIdCode(id[i] as int) {
        IdCharMeans(id[i]);
      }
    }
  }

  lemma IdCharMeans(c: char)
    ensures IsIdChar(c) <==> IsIdCode(c as int)
  {
  }

  // ---- which agents a change affects -----------------------------------------------------------------

  predicate SameEntry<V(==)>(a: map<Id, V>, b: map<Id, V>, id: Id)
  {
    (id in a <==> id in b) && (id in a && id in b ==> a[id] == b[id])
  }

  function ChangedProxies(before: Image, after: Image): (ids: set<Id>)
  {
    set id | id in before.proxies.Keys + after.proxies.Keys && !SameEntry(before.proxies, after.proxies, id)
  }

  predicate Uses(image: Image, id: Id, proxies: set<Id>)
  {
    id in image.agents && exists i | 0 <= i < |image.agents[id].proxyChain| :: image.agents[id].proxyChain[i] in proxies
  }

  function Affected(before: Image, after: Image): (ids: set<Id>)
  {
    var changed := ChangedProxies(before, after);
    set id | id in before.agents.Keys + after.agents.Keys &&
             (!SameEntry(before.agents, after.agents, id) || Uses(before, id, changed) || Uses(after, id, changed))
  }

  lemma {:induction false} UnchangedChainResolvesAlike(chain: seq<Id>, before: map<Id, ProxyConfig>, after: map<Id, ProxyConfig>)
    requires forall i | 0 <= i < |chain| :: SameEntry(before, after, chain[i])
    ensures ResolveChain(chain, before) == ResolveChain(chain, after)
  {
    if |chain| > 0 {
      UnchangedChainResolvesAlike(chain[..|chain| - 1], before, after);
      assert SameEntry(before, after, chain[|chain| - 1]);
    }
  }

  /** Agents that are not affected are built from the same configuration and proxies as before. */
  lemma UnaffectedResolveAlike(before: Image, after: Image, id: Id)
    requires id !in Affected(before, after)
    ensures Resolve(before, id) == Resolve(after, id)
  {
    if id in before.agents.Keys + after.agents.Keys {
      assert SameEntry(before.agents, after.agents, id);
      var chain, changed := before.agents[id].proxyChain, ChangedProxies(before, after);
      forall i | 0 <= i < |chain| ensures SameEntry(before.proxies, after.proxies, chain[i]) {
        assert chain[i] !in changed;
      }
      UnchangedChainResolvesAlike(chain, before.proxies, after.proxies);
    }
  }

  lemma {:induction false} SameBuildSameProxies(chain: seq<Id>, before: map<Id, ProxyConfig>, after: map<Id, ProxyConfig>)
    requires ResolveChain(chain, before).Some? && ResolveChain(chain, before) == ResolveChain(chain, after)
    ensures forall i | 0 <= i < |chain| :: SameEntry(before, after, chain[i])
  {
    forall i | 0 <= i < |chain| ensures SameEntry(before, after, chain[i]) {
      assert ResolveChain(chain, before).value[i] == before[chain[i]];
      assert ResolveChain(chain, after).value[i] == after[chain[i]];
    }
  }

  /** Between valid registries the affected agents are exactly those that would be built differently. */
  lemma AffectedExactlyWhenBuildChanges(before: Image, after: Image, id: Id)
    requires Valid(before) && Valid(after)
    ensures id in Affected(before, after) <==> Resolve(before, id) != Resolve(after, id)
  {
    ValidMeansResolvable(before, id);
    ValidMeansResolvable(after, id);
    if id !in Affected(before, after) {
      UnaffectedResolveAlike(before, after, id);
    } else if Resolve(before, id) == Resolve(after, id) && id in before.agents {
      var chain, changed := before.agents[id].proxyChain, ChangedProxies(before, after);
      SameBuildSameProxies(chain, before.proxies, after.proxies);
      assert forall i | 0 <= i < |chain| :: chain[i] !in changed;
    }
  }

  // ---- the registry as the source runs it --------------------------------------------------------------

  method ValidateChain(chain: seq<Id>) returns (ok: bool)
    ensures ok <==> ChainFits(chain)
  {
    if |chain| > MAX_PROXY_CHAIN_LEN {
      return false;
    }
    var index := 0;
    while index < |chain|
      invariant index <= |chain| && forall i, j | 0 <= i < j < index :: chain[i] != chain[j]
    {
      if chain[index] in chain[..index] {
        return false;
      }
      index := index + 1;
    }
    return true;
  }

  method ValidateImage(image: Image) returns (ok: bool)
    ensures ok <==> Valid(image)
  {
    var proxies := image.proxies.Keys;
    while proxies != {}
      invariant proxies <= image.proxies.Keys
      invariant forall id | id in image.proxies && id !in proxies :: IsValidId(id)
      decreases |proxies|
    {
      var id :| id in proxies;
      if !IsValidId(id) {
        return false;
      }
      proxies := proxies - {id};
    }
    hide IsValidId, ChainFits;
    var agents := image.agents.Keys;
    while agents != {}
      invariant agents <= image.agents.Keys
      invariant forall id | id in image.agents && id !in agents :: AgentOk(id, image.agents[id], image.proxies)
      decreases |agents|
    {
      var id :| id in agents;
      var chain := image.agents[id].proxyChain;
      var fits := ValidateChain(chain);
      if !IsValidId(id) || !fits || !ChainKnown(chain, image.proxies) {
        assert !AgentOk(id, image.agents[id], image.proxies);
        return false;
      }
      agents := agents - {id};
    }
    return true;
  }

  class EndpointRegistry {
    var agents: map<Id, AgentConfig>
    var proxies: map<Id, ProxyConfig>

    ghost function View(): (image: Image)
      reads this
    {
      Image(agents, proxies)
    }

    constructor ()
      ensures View() == Image(map[], map[]) && Valid(View())
    {
      agents, proxies := map[], map[];
    }

    method AddAgent(id: Id, config: AgentConfig) returns (r: Result<(), RegistryError>)
      modifies this
      ensures match Changed(old(View()), RegisterAgent(id, config))
              case Ok(next) => r == Ok(()) && View() == next
              case Err(e) => r == Err(e) && View() == old(View())
    {
      hide Valid;
      if !IsValidId(id) {
        return Err(InvalidRegistry);
      }
      var next := Image(agents[id := config], proxies);
      var ok := ValidateImage(next);
      if !ok {
        return Err(InvalidRegistry);
      }
      agents, proxies := next.agents, next.proxies;
      return Ok(());
    }

    method DeleteAgent(id: Id) returns (r: Result<(), RegistryError>)
      modifies this
      ensures match Changed(old(View()), RemoveAgent(id))
              case Ok(next) => r == Ok(()) && View() == next
              case Err(e) => r == Err(e) && View() == old(View())
    {
      if id !in agents {
        return Err(NotFound);
      }
      agents := agents - {id};
      return Ok(());
    }

    method AddProxy(id: Id, config: ProxyConfig) returns (r: Result<(), RegistryError>)
      modifies this
      ensures match Changed(old(View()), RegisterProxy(id, config))
              case Ok(next) => r == Ok(()) && View() == next
              case Err(e) => r == Err(e) && View() == old(View())
    {
      hide Valid;
      if !IsValidId(id) {
        return Err(InvalidRegistry);
      }
      var next := Image(agents, proxies[id := config]);
      var ok := ValidateImage(next);
      if !ok {
        return Err(InvalidRegistry);
      }
      agents, proxies := next.agents, next.proxies;
      return Ok(());
    }

    method DeleteProxy(id: Id) returns (r: Result<(), RegistryError>)
      modifies this
      ensures match Changed(old(View()), RemoveProxy(id))
              case Ok(next) => r == Ok(()) && View() == next
              case Err(e) => r == Err(e) && View() == old(View())
    {
      if id !in proxies {
        return Err(NotFound);
      }
      if exists agent | agent in agents.Keys :: id in agents[agent].proxyChain {
        return Err(InvalidRegistry);
      }
      proxies := proxies - {id};
      return Ok(());
    }

    /** Resolves an agent's proxies one by one, in chain order. */
    method ProxyChain(id: Id) returns (r: Result<seq<ProxyConfig>, RegistryError>)
      ensures match Resolve(View(), id)
              case Some(built) => r == Ok(built.proxies)
              case None => r.Err?
      ensures id !in agents ==> r == Err(NotFound)
    {
      if id !in agents {
        return Err(NotFound);
      }
      var chain := agents[id].proxyChain;
      var fits := ValidateChain(chain);
      if !fits {
        return Err(InvalidRegistry);
      }
      var resolved: seq<ProxyConfig> := [];
      var i := 0;
      while i < |chain|
        invariant i <= |chain| && |resolved| == i
        invariant forall j | 0 <= j < i :: chain[j] in proxies && resolved[j] == proxies[chain[j]]
      {
        if chain[i] !in proxies {
          return Err(NotFound);
        }
        resolved := resolved + [proxies[chain[i]]];
        i := i + 1;
      }
      assert ResolveChain(chain, proxies).Some? ==> resolved == ResolveChain(chain, proxies).value;
      return Ok(resolved);
    }
  }
}
