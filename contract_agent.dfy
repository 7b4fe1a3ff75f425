/**
 * The mock "LLM" of `contract_agent`: keyword flags on the lowercased prompt
 * decide which components and wires a generated blueprint gets.
 */
module ContractAgent {
  import opened Wrappers
  import opened Strings
  import opened Analyser

  /** A wiring key or provider: an instance name, a dot, an interface name. */
  function Wire(name: string, iface: string): string
  {
    name + "." + iface
  }

  /** The consumer of a wire is the name before its first dot. */
  lemma ComponentOfWire(name: string, iface: string)
    requires '.' !in name
    ensures ComponentOf(Wire(name, iface)) == name
  {
    BeforeJoin(name, '.', iface);
  }

  // Wiring keys and the providers they are wired to.
  const AgentCalendarRead := Wire("agent", "local:calendar/read")
  const CalendarRead := Wire("calendar", "local:calendar/read")
  const CalendarFs := Wire("calendar", "wasi:filesystem/types")
  const HostFs := Wire("host", "wasi:filesystem/types")
  const AgentSearch := Wire("agent", "local:search/query")
  const SearchQuery := Wire("search", "local:search/query")
  const SearchHttp := Wire("search", "wasi:http/outgoing-handler")
  const HostHttp := Wire("host", "wasi:http/outgoing-handler")
  const AgentProposeDelete := Wire("agent", "local:calendar/propose_delete")
  const HostProposeDelete := Wire("host", "local:calendar/propose_delete")
  const AgentDelete := Wire("agent", "local:calendar/delete")
  const CalendarDelete := Wire("calendar", "local:calendar/delete")
  const AgentEmail := Wire("agent", "local:email/send")
  const EmailerSend := Wire("emailer", "local:email/send")
  const EmailerHttp := Wire("emailer", "wasi:http/outgoing-handler")

  /** Every wiring key the generator can emit. */
  const GeneratedKeys := {AgentCalendarRead, CalendarFs, AgentSearch, SearchHttp,
                          AgentProposeDelete, AgentDelete, AgentEmail, EmailerHttp}

  predicate NeedsCalendar(lower: string)
  {
    Contains(lower, "calendar") || Contains(lower, "time") || Contains(lower, "schedule")
  }

  predicate NeedsSearch(lower: string)
  {
    Contains(lower, "search") || Contains(lower, "find") || Contains(lower, "look for")
  }

  predicate NeedsDelete(lower: string)
  {
    Contains(lower, "delete") || Contains(lower, "remove") || Contains(lower, "cancel")
  }

  predicate NeedsEmail(lower: string)
  {
    Contains(lower, "email") || Contains(lower, "send")
  }

  predicate IsProposal(lower: string)
  {
    Contains(lower, "propose") || Contains(lower, "safely")
  }

  /** The five keyword flags of a prompt, read from its lowercase form. */
  datatype Intent = Intent(calendar: bool, search: bool, delete: bool, email: bool, proposal: bool)

  function Heuristics(prompt: string): Intent
  {
    var lower := ToLower(prompt);
    Intent(NeedsCalendar(lower), NeedsSearch(lower), NeedsDelete(lower), NeedsEmail(lower),
           IsProposal(lower))
  }

  /** Matching is case-insensitive: lowercasing the prompt first changes no flag. */
  lemma HeuristicsIgnoreCase(prompt: string)
    ensures Heuristics(ToLower(prompt)) == Heuristics(prompt)
  {
    ToLowerIdempotent(prompt);
  }

  /** A component's path is derived from its name. */
  function ModulePath(name: string): string
  {
    "modules/" + name + ".wasm"
  }

  /**
   * The blueprint `generate_blueprint_from_prompt` builds for a set of flags: the
   * agent first, then the calendar, search, delete and email blocks in that order,
   * each inserting into the maps the previous blocks left.
   */
  function Planned(i: Intent): Blueprint
  {
    var c0 := map["agent" := ModulePath("agent")];
    var w0: map<string, string> := map[];
    var c1 := if i.calendar then c0["calendar" := ModulePath("calendar")] else c0;
    var w1 := if i.calendar then w0[AgentCalendarRead := CalendarRead][CalendarFs := HostFs] else w0;
    var c2 := if i.search then c1["search" := ModulePath("search")] else c1;
    var w2 := if i.search then w1[AgentSearch := SearchQuery][SearchHttp := HostHttp] else w1;
    var addCalendar := i.delete && "calendar" !in c2;
    var c3 := if addCalendar then c2["calendar" := ModulePath("calendar")] else c2;
    var w3 := if addCalendar then w2[CalendarFs := HostFs] else w2;
    var w4 := if !i.delete then w3
              else if i.proposal then w3[AgentProposeDelete := HostProposeDelete]
              else w3[AgentDelete := CalendarDelete];
    var c5 := if i.email then c3["emailer" := ModulePath("emailer")] else c3;
    var w5 := if i.email then w4[AgentEmail := EmailerSend][EmailerHttp := HostHttp] else w4;
    Blueprint(c5, w5, None)
  }

  /**
   * `generate_blueprint_from_prompt`. The flags are computed once up front;
   * `is_proposal` is read even when no delete is asked for, which changes nothing
   * because it is only consulted inside the delete branch.
   */
  method GenerateBlueprintFromPrompt(prompt: string) returns (bp: Blueprint)
    ensures bp == Planned(Heuristics(prompt))
  {
    var intent := Heuristics(prompt);
    var components: map<string, string> := map[];
    var wiring: map<string, string> := map[];

    components := components["agent" := ModulePath("agent")];

    if intent.calendar {
      components := components["calendar" := ModulePath("calendar")];
      wiring := wiring[AgentCalendarRead := CalendarRead];
      wiring := wiring[CalendarFs := HostFs];
    }

    if intent.search {
      components := components["search" := ModulePath("search")];
      wiring := wiring[AgentSearch := SearchQuery];
      wiring := wiring[SearchHttp := HostHttp];
    }

    if intent.delete {
      if "calendar" !in components {
        components := components["calendar" := ModulePath("calendar")];
        wiring := wiring[CalendarFs := HostFs];
      }
      if intent.proposal {
        wiring := wiring[AgentProposeDelete := HostProposeDelete];
      } else {
        wiring := wiring[AgentDelete := CalendarDelete];
      }
    }

    if intent.email {
      components := components["emailer" := ModulePath("emailer")];
      wiring := wiring[AgentEmail := EmailerSend];
      wiring := wiring[EmailerHttp := HostHttp];
    }

    bp := Blueprint(components, wiring, None);
  }

  /** The generated wiring keys are pairwise different. */
  lemma KeysDistinct()
    ensures AgentCalendarRead != CalendarFs && AgentCalendarRead != AgentSearch
    ensures AgentCalendarRead != SearchHttp && AgentCalendarRead != AgentProposeDelete
    ensures AgentCalendarRead != AgentDelete && AgentCalendarRead != AgentEmail
    ensures AgentCalendarRead != EmailerHttp
    ensures CalendarFs != AgentSearch && CalendarFs != SearchHttp
    ensures CalendarFs != AgentProposeDelete && CalendarFs != AgentDelete
    ensures CalendarFs != AgentEmail && CalendarFs != EmailerHttp
    ensures AgentSearch != SearchHttp && AgentSearch != AgentProposeDelete
    ensures AgentSearch != AgentDelete && AgentSearch != AgentEmail && AgentSearch != EmailerHttp
    ensures SearchHttp != AgentProposeDelete && SearchHttp != AgentDelete
    ensures SearchHttp != AgentEmail && SearchHttp != EmailerHttp
    ensures AgentProposeDelete != AgentDelete && AgentProposeDelete != AgentEmail
    ensures AgentProposeDelete != EmailerHttp
    ensures AgentDelete != AgentEmail && AgentDelete != EmailerHttp
    ensures AgentEmail != EmailerHttp
  {
  }

  /** `k` is a wire whose consumer instance is among `components`. */
  ghost predicate ConsumedBy(k: string, components: set<string>)
  {
    exists name, iface :: k == Wire(name, iface) && '.' !in name && name in components
  }

  /**
   * When every wire is consumed by an instance of the blueprint, every wiring key's
   * prefix (what the analyser reads as its consumer) names a component.
   */
  lemma ConsumersPresent(bp: Blueprint)
    requires forall k :: k in bp.wiring ==> ConsumedBy(k, bp.components.Keys)
    ensures forall k :: k in bp.wiring ==> ComponentOf(k) in bp.components
  {
    forall k | k in bp.wiring
      ensures ComponentOf(k) in bp.components
    {
      var name, iface :| k == Wire(name, iface) && '.' !in name && name in bp.components;
      ComponentOfWire(name, iface);
    }
  }

  /** A wire out of a dot-free instance of the blueprint is consumed by it. */
  lemma WireConsumed(name: string, iface: string, components: set<string>)
    requires '.' !in name && name in components
    ensures ConsumedBy(Wire(name, iface), components)
  {
  }

  /**
   * A set of generated wiring keys is consumed by the given instances as soon
   * as the non-agent consumers among them are present.
   */
  lemma GeneratedConsumed(components: set<string>, wiring: set<string>)
    requires wiring <= GeneratedKeys
    requires "agent" in components
    requires CalendarFs in wiring ==> "calendar" in components
    requires SearchHttp in wiring ==> "search" in components
    requires EmailerHttp in wiring ==> "emailer" in components
    ensures forall k :: k in wiring ==> ConsumedBy(k, components)
  {
    hide Wire;
    forall k | k in wiring
      ensures ConsumedBy(k, components)
    {
      if k == CalendarFs {
        WireConsumed("calendar", "wasi:filesystem/types", components);
      } else if k == SearchHttp {
        WireConsumed("search", "wasi:http/outgoing-handler", components);
      } else if k == EmailerHttp {
        WireConsumed("emailer", "wasi:http/outgoing-handler", components);
      } else if k == AgentCalendarRead {
        WireConsumed("agent", "local:calendar/read", components);
      } else if k == AgentSearch {
        WireConsumed("agent", "local:search/query", components);
      } else if k == AgentProposeDelete {
        WireConsumed("agent", "local:calendar/propose_delete", components);
      } else if k == AgentDelete {
        WireConsumed("agent", "local:calendar/delete", components);
      } else {
        WireConsumed("agent", "local:email/send", components);
      }
    }
  }

  /** The agent is always there; the other instances follow their flags; each runs its own module. */
  lemma PlannedComponents(i: Intent)
    ensures Planned(i).workflow == None
    ensures "agent" in Planned(i).components
    ensures Planned(i).components.Keys ==
      {"agent"}
      + (if i.calendar || i.delete then {"calendar"} else {})
      + (if i.search then {"search"} else {})
      + (if i.email then {"emailer"} else {})
    ensures forall name :: name in Planned(i).components ==>
      Planned(i).components[name] == ModulePath(name)
  {
  }

  /** Which wires a set of flags produces. */
  lemma PlannedWiring(i: Intent)
    ensures Planned(i).wiring.Keys ==
      (if i.calendar then {AgentCalendarRead} else {})
      + (if i.calendar || i.delete then {CalendarFs} else {})
      + (if i.search then {AgentSearch, SearchHttp} else {})
      + (if i.delete && i.proposal then {AgentProposeDelete} else {})
      + (if i.delete && !i.proposal then {AgentDelete} else {})
      + (if i.email then {AgentEmail, EmailerHttp} else {})
  {
    hide Wire;
    KeysDistinct();
  }

  /** Each wire goes to its fixed provider. */
  lemma PlannedProviders(i: Intent)
    ensures var w := Planned(i).wiring;
      && (AgentCalendarRead in w ==> w[AgentCalendarRead] == CalendarRead)
      && (CalendarFs in w ==> w[CalendarFs] == HostFs)
      && (AgentSearch in w ==> w[AgentSearch] == SearchQuery)
      && (SearchHttp in w ==> w[SearchHttp] == HostHttp)
      && (AgentProposeDelete in w ==> w[AgentProposeDelete] == HostProposeDelete)
      && (AgentDelete in w ==> w[AgentDelete] == CalendarDelete)
      && (AgentEmail in w ==> w[AgentEmail] == EmailerSend)
      && (EmailerHttp in w ==> w[EmailerHttp] == HostHttp)
  {
    hide Wire;
    KeysDistinct();
  }

  /** A prompt with no trigger word yields the agent alone and no wiring. */
  lemma PlannedNothingAsked(i: Intent)
    requires !i.calendar && !i.search && !i.delete && !i.email
    ensures Planned(i).components == map["agent" := ModulePath("agent")]
    ensures Planned(i).wiring == map[]
  {
  }

  /** A delete request wires either the proposal interface or the direct delete, never both. */
  lemma PlannedSingleDelete(i: Intent)
    ensures !(AgentProposeDelete in Planned(i).wiring && AgentDelete in Planned(i).wiring)
    ensures i.delete ==> (AgentProposeDelete in Planned(i).wiring <==> i.proposal)
    ensures i.delete ==> (AgentDelete in Planned(i).wiring <==> !i.proposal)
  {
    hide Wire;
    PlannedWiring(i);
    KeysDistinct();
  }

  /**
   * Every generated wire's consumer prefix names a component of the generated
   * blueprint, so the analyser sees each wire as an edge between two nodes.
   */
  lemma PlannedConsumers(i: Intent)
    ensures forall k :: k in Planned(i).wiring ==> ComponentOf(k) in Planned(i).components
  {
    hide Wire, ComponentOf;
    KeysDistinct();
    var bp := Planned(i);
    PlannedComponents(i);
    PlannedWiring(i);
    GeneratedConsumed(bp.components.Keys, bp.wiring.Keys);
    ConsumersPresent(bp);
  }

  /** Keyword matching ignores case: a prompt and its lowercase form give the same blueprint. */
  method GenerateIgnoresCase(prompt: string) returns (bp: Blueprint, bpLower: Blueprint)
    ensures bp == bpLower
  {
    bp := GenerateBlueprintFromPrompt(prompt);
    bpLower := GenerateBlueprintFromPrompt(ToLower(prompt));
    HeuristicsIgnoreCase(prompt);
  }
}
