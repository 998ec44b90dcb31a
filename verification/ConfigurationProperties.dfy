/**
 * The version determines the configuration: over every run of edits, deletions, enrolments, delayed
 * and reordered responses and installs.
 */
module ConfigurationProperties {
  import opened Options
  import opened Configuration

  datatype Delivery = Delivery(agentId: string, configuration: AgentConfiguration)

  /** `served` is every configuration ever sent, `sessions` what the connector supervisor runs; `usedAgents` and `usedProfiles` are the ids ever given out. */
  datatype World = World(
    fleet: Fleet,
    served: seq<Delivery>,
    files: map<string, File>,
    sessions: Sessions,
    usedAgents: set<string>,
    usedProfiles: set<string>)

  datatype Action =
    | CreateProfile(profileId: string, kind: ProfileKind, written: ProfileDefinition)
    | UpdateProfile(profileId: string, kind: ProfileKind, written: ProfileDefinition)
    | DeleteProfile(profileId: string)
    | CreateToken(offer: Offer)
    | Enroll(token: nat, agentId: string, request: Request)
    | UpdateAgent(agentId: string, name: string, settings: Cadence)
    | CreateConnector(agentId: string, name: string, mapping: string, options: string, seconds: int)
    | UpdateConnector(agentId: string, name: string, mapping: string, enabled: bool, options: string, seconds: int)
    | Reconcile
    | Purge(agentId: string)
    | Fetch(agentId: string)
    | Install(delivery: nat, writable: bool)
    | Damage(agentId: string)

  function Start(): World {
    World(Fleet(map[], map[], map[], []), [], map[], map[], {}, {})
  }

  function Serve(builtIns: ProfileTable, w: World, agentId: string): World
    requires agentId in w.fleet.agents
  {
    w.(served := w.served + [Delivery(agentId, ConfigOf(builtIns, w.fleet.profiles, w.fleet.agents[agentId]))])
  }

  function FileOf(w: World, agentId: string): File {
    if agentId in w.files then w.files[agentId] else Missing
  }

  /** An edit of the tables alone. Ids are new UUIDs; built-in profiles' ids are not. */
  function Edited(builtIns: ProfileTable, w: World, a: Action): Fleet {
    match a
    case CreateProfile(id, kind, written) =>
      if id in w.usedProfiles || id in builtIns || id == TESLAMATE_MAPPING_PROFILE then w.fleet else ProfileCreated(w.fleet, id, kind, written)
    case UpdateProfile(id, kind, written) => ProfileUpdated(w.fleet, id, kind, written)
    case DeleteProfile(id) => ProfileDeleted(w.fleet, id)
    case CreateToken(offer) => TokenCreated(builtIns, w.fleet, offer)
    case Enroll(token, id, request) => if id in w.usedAgents then w.fleet else Enrolled(w.fleet, token, id, request)
    case UpdateAgent(id, name, settings) => AgentUpdated(builtIns, w.fleet, id, name, settings)
    case CreateConnector(id, name, mapping, options, seconds) =>
      if id in w.usedAgents then w.fleet else ConnectorCreated(builtIns, w.fleet, id, name, mapping, options, seconds)
    case UpdateConnector(id, name, mapping, enabled, options, seconds) =>
      ConnectorUpdated(builtIns, w.fleet, id, name, mapping, enabled, options, seconds)
    case Purge(id) => w.fleet.(agents := w.fleet.agents - {id}, connectors := w.fleet.connectors - {id})
    case _ => w.fleet
  }

  function Stepped(builtIns: ProfileTable, w: World, a: Action): World {
    var fleet := Edited(builtIns, w, a);
    var next := w.(fleet := fleet,
                   usedAgents := w.usedAgents + fleet.agents.Keys + fleet.connectors.Keys,
                   usedProfiles := w.usedProfiles + fleet.profiles.Keys);
    match a
    case Enroll(_, id, _) => if id in fleet.agents && id !in w.usedAgents then Serve(builtIns, next, id) else next
    case Fetch(id) => if id in fleet.agents then Serve(builtIns, next, id) else next
    case Install(k, writable) =>
      if k < |w.served| then
        var d := w.served[k];
        next.(files := w.files[d.agentId := FileAfter(FileOf(w, d.agentId), d.configuration, writable)])
      else next
    case Damage(id) => next.(files := w.files[id := Unreadable])
    case Reconcile => next.(sessions := Reconciled(w.sessions, Definitions(builtIns, w.fleet)))
    case _ => next
  }

  function WorldAfter(builtIns: ProfileTable, run: seq<Action>): World {
    if run == [] then Start() else Stepped(builtIns, WorldAfter(builtIns, run[..|run| - 1]), run[|run| - 1])
  }

  // One edit at a time.

  /** A profile reference names nothing, a built-in, or a stored profile that exists or once did. */
  predicate RefersToUsed(builtIns: ProfileTable, used: set<string>, reference: Option<string>) {
    || reference.None? || reference.value == "" || reference.value == TESLAMATE_MAPPING_PROFILE
    || reference.value in builtIns || reference.value in used
  }

  ghost predicate WellReferenced(builtIns: ProfileTable, fleet: Fleet, usedAgents: set<string>, usedProfiles: set<string>) {
    && fleet.agents.Keys + fleet.connectors.Keys <= usedAgents
    && fleet.profiles.Keys <= usedProfiles
    && usedProfiles !! builtIns.Keys
    && TESLAMATE_MAPPING_PROFILE !in usedProfiles
    && AgentsRefer(builtIns, fleet.agents, usedProfiles)
    && ConnectorsRefer(builtIns, fleet.connectors, usedProfiles)
    && TokensRefer(builtIns, fleet.tokens, usedProfiles)
  }

  /** Every agent that lives on has its version unchanged and its configuration with it, or a higher version. */
  ghost predicate VersionsTell(builtIns: ProfileTable, before: Fleet, after: Fleet) {
    forall id :: id in before.agents && id in after.agents ==>
      (var earlier, later := ConfigOf(builtIns, before.profiles, before.agents[id]), ConfigOf(builtIns, after.profiles, after.agents[id]);
       later == earlier || later.version > earlier.version)
  }

  lemma EditIsTold(builtIns: ProfileTable, w: World, a: Action)
    requires WellReferenced(builtIns, w.fleet, w.usedAgents, w.usedProfiles)
    ensures VersionsTell(builtIns, w.fleet, Edited(builtIns, w, a))
  {
    hide VersionsTell, WellReferenced;
    match a
    case CreateProfile(id, kind, written) => NewProfileIsUnreferenced(builtIns, w, id, kind, written);
    case UpdateProfile(id, kind, written) => ProfileEditIsTold(builtIns, w.fleet, id, kind, written);
    case DeleteProfile(id) => ProfileDeletionIsTold(builtIns, w.fleet, id);
    case _ =>
      KnownAgentsAreUsed(builtIns, w);
      OtherEditsAreTold(builtIns, w, a);
  }

  lemma OtherEditsAreTold(builtIns: ProfileTable, w: World, a: Action)
    requires w.fleet.agents.Keys <= w.usedAgents && !a.CreateProfile? && !a.UpdateProfile? && !a.DeleteProfile?
    ensures VersionsTell(builtIns, w.fleet, Edited(builtIns, w, a))
  {
    hide CanDefinition, MappingAt, FullDefinition;
  }

  lemma NewProfileIsUnreferenced(builtIns: ProfileTable, w: World, id: string, kind: ProfileKind, written: ProfileDefinition)
    requires WellReferenced(builtIns, w.fleet, w.usedAgents, w.usedProfiles)
    ensures VersionsTell(builtIns, w.fleet, Edited(builtIns, w, CreateProfile(id, kind, written)))
  {
    hide AgentDefinitionOf, TokensRefer;
    forall other | other in w.fleet.agents ensures RefersToUsed(builtIns, w.usedProfiles, w.fleet.agents[other].settings.vehicleProfile) {
    }
  }

  lemma ProfileEditIsTold(builtIns: ProfileTable, f: Fleet, id: string, kind: ProfileKind, written: ProfileDefinition)
    ensures VersionsTell(builtIns, f, ProfileUpdated(f, id, kind, written))
  {
    hide AgentDefinitionOf;
  }

  lemma ProfileDeletionIsTold(builtIns: ProfileTable, f: Fleet, id: string)
    ensures VersionsTell(builtIns, f, ProfileDeleted(f, id))
  {
    hide AgentDefinitionOf;
  }

  ghost predicate AgentsRefer(builtIns: ProfileTable, agents: map<string, AgentRow>, used: set<string>) {
    forall id :: id in agents ==> RefersToUsed(builtIns, used, agents[id].settings.vehicleProfile)
  }

  ghost predicate TokensRefer(builtIns: ProfileTable, tokens: seq<Token>, used: set<string>) {
    forall i :: 0 <= i < |tokens| ==> RefersToUsed(builtIns, used, tokens[i].offer.settings.vehicleProfile)
  }

  ghost predicate ConnectorsRefer(builtIns: ProfileTable, connectors: map<string, ConnectorRow>, used: set<string>) {
    forall id :: id in connectors ==> RefersToUsed(builtIns, used, Some(connectors[id].mapping))
  }

  lemma AvailableIsUsed(builtIns: ProfileTable, profiles: ProfileTable, used: set<string>, reference: Option<string>)
    requires IsAvailable(builtIns, profiles, reference) && profiles.Keys <= used
    ensures RefersToUsed(builtIns, used, reference)
  {
  }

  lemma UsedGrows(builtIns: ProfileTable, f: Fleet, used: set<string>, more: set<string>)
    requires AgentsRefer(builtIns, f.agents, used) && ConnectorsRefer(builtIns, f.connectors, used) && TokensRefer(builtIns, f.tokens, used)
    requires used <= more
    ensures AgentsRefer(builtIns, f.agents, more) && ConnectorsRefer(builtIns, f.connectors, more) && TokensRefer(builtIns, f.tokens, more)
  {
  }

  lemma EditKeepsAgentReferences(builtIns: ProfileTable, w: World, a: Action)
    requires WellReferenced(builtIns, w.fleet, w.usedAgents, w.usedProfiles)
    ensures AgentsRefer(builtIns, Edited(builtIns, w, a).agents, w.usedProfiles)
  {
    hide CanDefinition;
    match a
    case UpdateAgent(id, name, settings) =>
      if IsAvailable(builtIns, w.fleet.profiles, settings.vehicleProfile) {
        AvailableIsUsed(builtIns, w.fleet.profiles, w.usedProfiles, settings.vehicleProfile);
      }
      hide IsAvailable;
    case _ =>
  }

  lemma EditKeepsTokenReferences(builtIns: ProfileTable, w: World, a: Action)
    requires WellReferenced(builtIns, w.fleet, w.usedAgents, w.usedProfiles)
    ensures TokensRefer(builtIns, Edited(builtIns, w, a).tokens, w.usedProfiles)
  {
    hide CanDefinition;
    match a
    case CreateToken(offer) =>
      if IsAvailable(builtIns, w.fleet.profiles, offer.settings.vehicleProfile) {
        AvailableIsUsed(builtIns, w.fleet.profiles, w.usedProfiles, offer.settings.vehicleProfile);
      }
      hide IsAvailable;
    case _ =>
  }

  lemma MappingIsUsed(builtIns: ProfileTable, profiles: ProfileTable, used: set<string>, mapping: string)
    requires MappingAt(builtIns, profiles, mapping).Some? && profiles.Keys <= used
    ensures RefersToUsed(builtIns, used, Some(mapping))
  {
  }

  lemma EditKeepsConnectorReferences(builtIns: ProfileTable, w: World, a: Action)
    requires WellReferenced(builtIns, w.fleet, w.usedAgents, w.usedProfiles)
    ensures ConnectorsRefer(builtIns, Edited(builtIns, w, a).connectors, w.usedProfiles)
  {
    hide CanDefinition, IsAvailable;
    match a
    case CreateConnector(_, _, mapping, _, _) =>
      if MappingAt(builtIns, w.fleet.profiles, mapping).Some? {
        MappingIsUsed(builtIns, w.fleet.profiles, w.usedProfiles, mapping);
      }
      hide MappingAt;
    case UpdateConnector(_, _, mapping, _, _, _) =>
      if MappingAt(builtIns, w.fleet.profiles, mapping).Some? {
        MappingIsUsed(builtIns, w.fleet.profiles, w.usedProfiles, mapping);
      }
      hide MappingAt;
    case _ => hide MappingAt;
  }

  lemma EditUsesNoBuiltIn(builtIns: ProfileTable, w: World, a: Action)
    requires WellReferenced(builtIns, w.fleet, w.usedAgents, w.usedProfiles)
    ensures Edited(builtIns, w, a).profiles.Keys !! builtIns.Keys
    ensures TESLAMATE_MAPPING_PROFILE !in Edited(builtIns, w, a).profiles
  {
    hide CanDefinition, IsAvailable, RefersToUsed;
  }

  lemma EditKeepsReferences(builtIns: ProfileTable, w: World, a: Action)
    requires WellReferenced(builtIns, w.fleet, w.usedAgents, w.usedProfiles)
    ensures var fleet := Edited(builtIns, w, a);
      WellReferenced(builtIns, fleet, w.usedAgents + fleet.agents.Keys + fleet.connectors.Keys, w.usedProfiles + fleet.profiles.Keys)
  {
    hide Edited;
    var fleet := Edited(builtIns, w, a);
    EditKeepsAgentReferences(builtIns, w, a);
    EditKeepsTokenReferences(builtIns, w, a);
    EditKeepsConnectorReferences(builtIns, w, a);
    EditUsesNoBuiltIn(builtIns, w, a);
    UsedGrows(builtIns, fleet, w.usedProfiles, w.usedProfiles + fleet.profiles.Keys);
    hide RefersToUsed;
  }

  // Whole runs.

  /** No configuration of an agent, past or present, shares its version with a different one. */
  ghost predicate ServedIsCurrent(builtIns: ProfileTable, fleet: Fleet, served: seq<Delivery>, usedAgents: set<string>) {
    forall i :: 0 <= i < |served| ==> IsNoNewer(builtIns, fleet, served[i], usedAgents)
  }

  ghost predicate IsNoNewer(builtIns: ProfileTable, fleet: Fleet, d: Delivery, usedAgents: set<string>) {
    && d.agentId in usedAgents
    && (d.agentId in fleet.agents ==>
          (var now := ConfigOf(builtIns, fleet.profiles, fleet.agents[d.agentId]);
           d.configuration == now || d.configuration.version < now.version))
  }

  ghost predicate VersionsAreUnique(served: seq<Delivery>) {
    forall i, j :: 0 <= i < |served| && 0 <= j < |served| && SameVersion(served[i], served[j]) ==> served[i] == served[j]
  }

  predicate SameVersion(d: Delivery, e: Delivery) {
    d.agentId == e.agentId && d.configuration.version == e.configuration.version
  }

  ghost predicate FilesWereServed(served: seq<Delivery>, files: map<string, File>) {
    forall id :: id in files && files[id].Holds? ==> Delivery(id, files[id].configuration) in served
  }

  ghost predicate Coherent(builtIns: ProfileTable, w: World) {
    && WellReferenced(builtIns, w.fleet, w.usedAgents, w.usedProfiles)
    && ServedIsCurrent(builtIns, w.fleet, w.served, w.usedAgents)
    && VersionsAreUnique(w.served)
    && FilesWereServed(w.served, w.files)
  }

  lemma ServingKeepsVersionsUnique(builtIns: ProfileTable, w: World, id: string)
    requires ServedIsCurrent(builtIns, w.fleet, w.served, w.usedAgents) && VersionsAreUnique(w.served) && id in w.fleet.agents
    requires w.fleet.agents.Keys <= w.usedAgents
    ensures var next := Serve(builtIns, w, id);
      && ServedIsCurrent(builtIns, next.fleet, next.served, next.usedAgents)
      && VersionsAreUnique(next.served)
  {
    hide CanDefinition;
    var d := Delivery(id, ConfigOf(builtIns, w.fleet.profiles, w.fleet.agents[id]));
    var next := Serve(builtIns, w, id);
    assert next.served == w.served + [d];
    forall i | 0 <= i < |w.served| ensures IsNoNewer(builtIns, w.fleet, w.served[i], w.usedAgents) {
    }
    assert IsNoNewer(builtIns, w.fleet, d, w.usedAgents);
  }

  lemma EditingKeepsServedOld(builtIns: ProfileTable, before: Fleet, after: Fleet, served: seq<Delivery>, used: set<string>, usedAfter: set<string>)
    requires ServedIsCurrent(builtIns, before, served, used) && VersionsTell(builtIns, before, after)
    requires used <= usedAfter && forall id :: id in after.agents && id in used ==> id in before.agents
    ensures ServedIsCurrent(builtIns, after, served, usedAfter)
  {
    hide ConfigOf;
    forall i | 0 <= i < |served| ensures IsNoNewer(builtIns, after, served[i], usedAfter) {
      assert IsNoNewer(builtIns, before, served[i], used);
    }
  }

  lemma NoAgentReturns(builtIns: ProfileTable, w: World, a: Action)
    requires w.fleet.agents.Keys <= w.usedAgents
    ensures forall id :: id in Edited(builtIns, w, a).agents && id in w.usedAgents ==> id in w.fleet.agents
  {
    hide ConfigOf, CanDefinition;
  }

  lemma InstallKeepsFilesServed(w: World, k: nat, writable: bool)
    requires FilesWereServed(w.served, w.files) && k < |w.served|
    ensures var d := w.served[k];
      FilesWereServed(w.served, w.files[d.agentId := FileAfter(FileOf(w, d.agentId), d.configuration, writable)])
  {
    assert w.served[k] in w.served;
    hide Validates;
  }

  lemma ServingKeepsFilesServed(builtIns: ProfileTable, w: World, id: string)
    requires FilesWereServed(w.served, w.files) && id in w.fleet.agents
    ensures FilesWereServed(Serve(builtIns, w, id).served, w.files)
  {
    hide ConfigOf;
  }

  lemma DamageKeepsFilesServed(w: World, id: string)
    requires FilesWereServed(w.served, w.files)
    ensures FilesWereServed(w.served, w.files[id := Unreadable])
  {
  }

  lemma StepIsCoherent(builtIns: ProfileTable, w: World, a: Action)
    requires Coherent(builtIns, w)
    ensures Coherent(builtIns, Stepped(builtIns, w, a))
  {
    hide Edited, WellReferenced, ServedIsCurrent, VersionsAreUnique, FilesWereServed, VersionsTell, ConfigOf, FileAfter, FileOf;
    KnownAgentsAreUsed(builtIns, w);
    EditIsTold(builtIns, w, a);
    EditKeepsReferences(builtIns, w, a);
    NoAgentReturns(builtIns, w, a);
    var fleet := Edited(builtIns, w, a);
    var usedAgents := w.usedAgents + fleet.agents.Keys + fleet.connectors.Keys;
    EditingKeepsServedOld(builtIns, w.fleet, fleet, w.served, w.usedAgents, usedAgents);
    var next := w.(fleet := fleet, usedAgents := usedAgents, usedProfiles := w.usedProfiles + fleet.profiles.Keys);
    match a
    case Enroll(_, id, _) => if id in fleet.agents { ServingKeepsVersionsUnique(builtIns, next, id); ServingKeepsFilesServed(builtIns, next, id); }
    case Fetch(id) => if id in fleet.agents { ServingKeepsVersionsUnique(builtIns, next, id); ServingKeepsFilesServed(builtIns, next, id); }
    case Install(k, writable) => if k < |w.served| { InstallKeepsFilesServed(w, k, writable); }
    case Damage(id) => DamageKeepsFilesServed(w, id);
    case _ =>
  }

  lemma KnownAgentsAreUsed(builtIns: ProfileTable, w: World)
    requires WellReferenced(builtIns, w.fleet, w.usedAgents, w.usedProfiles)
    ensures w.fleet.agents.Keys + w.fleet.connectors.Keys <= w.usedAgents
  {
    hide AgentsRefer, ConnectorsRefer, TokensRefer;
  }

  lemma {:induction false} EveryRunIsCoherent(builtIns: ProfileTable, run: seq<Action>)
    ensures Coherent(builtIns, WorldAfter(builtIns, run))
  {
    hide Coherent, Stepped;
    if run == [] {
      StartIsCoherent(builtIns);
    } else {
      EveryRunIsCoherent(builtIns, run[..|run| - 1]);
      StepIsCoherent(builtIns, WorldAfter(builtIns, run[..|run| - 1]), run[|run| - 1]);
    }
  }

  lemma StartIsCoherent(builtIns: ProfileTable)
    ensures Coherent(builtIns, Start())
  {
  }

  /** Any two configurations served to one agent under one version are the same. */
  lemma VersionDeterminesConfiguration(builtIns: ProfileTable, run: seq<Action>, i: nat, j: nat)
    requires var served := WorldAfter(builtIns, run).served;
      && i < |served| && j < |served|
      && served[i].agentId == served[j].agentId && served[i].configuration.version == served[j].configuration.version
    ensures WorldAfter(builtIns, run).served[i].configuration == WorldAfter(builtIns, run).served[j].configuration
  {
    EveryRunIsCoherent(builtIns, run);
    hide WorldAfter;
  }

  // The connectors' sessions.

  /** Every connector that lives on is set up as before, its mapping included, or has a higher version. */
  ghost predicate ConnectorsTell(builtIns: ProfileTable, before: Fleet, after: Fleet) {
    forall id :: id in before.connectors && id in after.connectors ==>
      || after.connectors[id].version > before.connectors[id].version
      || (after.connectors[id] == before.connectors[id]
          && MappingAt(builtIns, after.profiles, after.connectors[id].mapping) == MappingAt(builtIns, before.profiles, before.connectors[id].mapping))
  }

  lemma ConnectorEditIsTold(builtIns: ProfileTable, w: World, a: Action)
    requires WellReferenced(builtIns, w.fleet, w.usedAgents, w.usedProfiles)
    ensures ConnectorsTell(builtIns, w.fleet, Edited(builtIns, w, a))
  {
    match a
    case CreateProfile(id, kind, written) => NewProfileIsNoMapping(builtIns, w, id, kind, written);
    case UpdateProfile(id, kind, written) => ProfileEditTellsConnectors(builtIns, w.fleet, id, kind, written);
    case DeleteProfile(id) => ProfileDeletionTellsConnectors(builtIns, w.fleet, id);
    case _ =>
      KnownAgentsAreUsed(builtIns, w);
      OtherEditsTellConnectors(builtIns, w, a);
      hide ConnectorsTell, Edited;
  }

  lemma OtherEditsTellConnectors(builtIns: ProfileTable, w: World, a: Action)
    requires w.fleet.connectors.Keys <= w.usedAgents && !a.CreateProfile? && !a.UpdateProfile? && !a.DeleteProfile?
    ensures ConnectorsTell(builtIns, w.fleet, Edited(builtIns, w, a))
  {
    hide CanDefinition, IsAvailable, FullDefinition, MappingAt;
  }

  lemma NewProfileIsNoMapping(builtIns: ProfileTable, w: World, id: string, kind: ProfileKind, written: ProfileDefinition)
    requires WellReferenced(builtIns, w.fleet, w.usedAgents, w.usedProfiles)
    ensures ConnectorsTell(builtIns, w.fleet, Edited(builtIns, w, CreateProfile(id, kind, written)))
  {
    hide AgentsRefer, TokensRefer;
    forall other | other in w.fleet.connectors ensures RefersToUsed(builtIns, w.usedProfiles, Some(w.fleet.connectors[other].mapping)) {
    }
  }

  lemma ProfileEditTellsConnectors(builtIns: ProfileTable, f: Fleet, id: string, kind: ProfileKind, written: ProfileDefinition)
    ensures ConnectorsTell(builtIns, f, ProfileUpdated(f, id, kind, written))
  {
  }

  lemma ProfileDeletionTellsConnectors(builtIns: ProfileTable, f: Fleet, id: string)
    ensures ConnectorsTell(builtIns, f, ProfileDeleted(f, id))
  {
  }

  /** A session is of an older version than its connector, or is what the connector says now. */
  ghost predicate SessionsFit(builtIns: ProfileTable, f: Fleet, sessions: Sessions, usedAgents: set<string>) {
    forall id :: id in sessions ==> id in usedAgents && (id in f.connectors ==> SessionFits(builtIns, f, id, sessions[id]))
  }

  predicate SessionFits(builtIns: ProfileTable, f: Fleet, id: string, s: Session)
    requires id in f.connectors
  {
    var row := f.connectors[id];
    s.version < row.version
    || (s.version == row.version && s.options == row.options && MappingAt(builtIns, f.profiles, row.mapping) == Some(s.mapping))
  }

  lemma NoConnectorReturns(builtIns: ProfileTable, w: World, a: Action)
    requires w.fleet.connectors.Keys <= w.usedAgents
    ensures forall id :: id in Edited(builtIns, w, a).connectors && id in w.usedAgents ==> id in w.fleet.connectors
  {
    hide ConfigOf, CanDefinition, MappingAt;
  }

  lemma EditingKeepsSessions(builtIns: ProfileTable, before: Fleet, after: Fleet, sessions: Sessions, used: set<string>, usedAfter: set<string>)
    requires SessionsFit(builtIns, before, sessions, used) && ConnectorsTell(builtIns, before, after)
    requires used <= usedAfter && forall id :: id in after.connectors && id in used ==> id in before.connectors
    ensures SessionsFit(builtIns, after, sessions, usedAfter)
  {
    hide MappingAt;
  }

  lemma ReconcilingIsExact(builtIns: ProfileTable, f: Fleet, sessions: Sessions, usedAgents: set<string>)
    requires SessionsFit(builtIns, f, sessions, usedAgents)
    ensures Reconciled(sessions, Definitions(builtIns, f)) == Definitions(builtIns, f)
  {
    hide MappingAt;
  }

  lemma DefinitionsFit(builtIns: ProfileTable, f: Fleet, usedAgents: set<string>)
    requires f.connectors.Keys <= usedAgents
    ensures SessionsFit(builtIns, f, Definitions(builtIns, f), usedAgents)
  {
    hide FullDefinition;
  }

  lemma {:induction false} SessionsAlwaysFit(builtIns: ProfileTable, run: seq<Action>)
    ensures var w := WorldAfter(builtIns, run); SessionsFit(builtIns, w.fleet, w.sessions, w.usedAgents)
  {
    hide Stepped, SessionsFit, WellReferenced;
    if run == [] {
      NoSessionsFit(builtIns);
    } else {
      SessionsAlwaysFit(builtIns, run[..|run| - 1]);
      EveryRunIsWellReferenced(builtIns, run[..|run| - 1]);
      StepKeepsSessions(builtIns, WorldAfter(builtIns, run[..|run| - 1]), run[|run| - 1]);
    }
  }

  lemma StepKeepsSessions(builtIns: ProfileTable, w: World, a: Action)
    requires SessionsFit(builtIns, w.fleet, w.sessions, w.usedAgents) && w.fleet.connectors.Keys <= w.usedAgents
    requires WellReferenced(builtIns, w.fleet, w.usedAgents, w.usedProfiles)
    ensures var next := Stepped(builtIns, w, a); SessionsFit(builtIns, next.fleet, next.sessions, next.usedAgents)
  {
    hide Edited, SessionsFit, ConnectorsTell, Definitions, Reconciled, WellReferenced, ConfigOf, FileAfter, Loaded;
    var fleet := Edited(builtIns, w, a);
    var used := w.usedAgents + fleet.agents.Keys + fleet.connectors.Keys;
    if a.Reconcile? {
      EditedByReconciling(builtIns, w);
      ReconcilingIsExact(builtIns, w.fleet, w.sessions, w.usedAgents);
      DefinitionsFit(builtIns, w.fleet, used);
    } else {
      ConnectorEditIsTold(builtIns, w, a);
      NoConnectorReturns(builtIns, w, a);
      EditingKeepsSessions(builtIns, w.fleet, fleet, w.sessions, w.usedAgents, used);
    }
  }

  lemma EditedByReconciling(builtIns: ProfileTable, w: World)
    ensures Edited(builtIns, w, Reconcile) == w.fleet
  {
  }

  lemma NoSessionsFit(builtIns: ProfileTable)
    ensures SessionsFit(builtIns, Start().fleet, Start().sessions, {})
  {
  }

  lemma EveryRunIsWellReferenced(builtIns: ProfileTable, run: seq<Action>)
    ensures var w := WorldAfter(builtIns, run);
      WellReferenced(builtIns, w.fleet, w.usedAgents, w.usedProfiles) && w.fleet.connectors.Keys <= w.usedAgents
  {
    EveryRunIsCoherent(builtIns, run);
    hide WorldAfter, AgentsRefer, ConnectorsRefer, TokensRefer, ServedIsCurrent, VersionsAreUnique, FilesWereServed;
  }

  /**
   * The supervisor restarts a session only when its version differs; that is enough. After it has
   * looked, exactly the enabled connectors with a mapping run, each as its row and its mapping are now.
   */
  lemma SupervisorIsExact(builtIns: ProfileTable, run: seq<Action>)
    ensures WorldAfter(builtIns, run + [Reconcile]).sessions == Definitions(builtIns, WorldAfter(builtIns, run).fleet)
  {
    RunNext(builtIns, run, Reconcile);
    SessionsAlwaysFit(builtIns, run);
    var w := WorldAfter(builtIns, run);
    hide WorldAfter, SessionsFit, Edited, Definitions, Reconciled;
    ReconcilingIsExact(builtIns, w.fleet, w.sessions, w.usedAgents);
  }

  /** A device whose installed version is the server's holds the server's configuration; and it never runs ahead. */
  lemma SameVersionSameConfiguration(builtIns: ProfileTable, run: seq<Action>, id: string)
    requires var w := WorldAfter(builtIns, run); id in w.fleet.agents && FileOf(w, id).Holds?
    ensures var w := WorldAfter(builtIns, run);
      var installed, current := FileOf(w, id).configuration, ConfigOf(builtIns, w.fleet.profiles, w.fleet.agents[id]);
      installed.version <= current.version && (installed.version == current.version <==> installed == current)
  {
    EveryRunIsCoherent(builtIns, run);
    var w := WorldAfter(builtIns, run);
    hide WorldAfter, ConfigOf;
    var d := Delivery(id, w.files[id].configuration);
    var k :| 0 <= k < |w.served| && w.served[k] == d;
    assert IsNoNewer(builtIns, w.fleet, w.served[k], w.usedAgents);
    ConfigCarriesVersion(builtIns, w.fleet.profiles, w.fleet.agents[id]);
  }

  lemma ConfigCarriesVersion(builtIns: ProfileTable, profiles: ProfileTable, row: AgentRow)
    ensures ConfigOf(builtIns, profiles, row).version == row.version
  {
  }

  /** What the device has loaded only ever gives way to a higher version, unless the file itself is damaged. */
  lemma InstalledVersionNeverDecreases(builtIns: ProfileTable, run: seq<Action>, a: Action, id: string)
    requires Loaded(FileOf(WorldAfter(builtIns, run), id)).Some?
    ensures var before, after := Loaded(FileOf(WorldAfter(builtIns, run), id)), Loaded(FileOf(WorldAfter(builtIns, run + [a]), id));
      if a == Damage(id) then after.None?
      else after.Some? && (after == before || after.value.version > before.value.version)
  {
    assert (run + [a])[..|run|] == run;
    hide WorldAfter, Edited, Validates;
    if a.Install? && a.delivery < |WorldAfter(builtIns, run).served| {
      var d := WorldAfter(builtIns, run).served[a.delivery];
      InstallingRaises(FileOf(WorldAfter(builtIns, run), d.agentId), d.configuration, a.writable);
    }
  }

  /** Over any further run in which the file is not damaged: what is loaded stays, or its version rises. */
  lemma {:induction false} InstalledVersionNeverFallsBack(builtIns: ProfileTable, run: seq<Action>, more: seq<Action>, id: string)
    requires Loaded(FileOf(WorldAfter(builtIns, run), id)).Some? && Damage(id) !in more
    ensures var before, after := Loaded(FileOf(WorldAfter(builtIns, run), id)), Loaded(FileOf(WorldAfter(builtIns, run + more), id));
      after.Some? && (after == before || after.value.version > before.value.version)
  {
    if more == [] {
      assert run + more == run;
    } else {
      var front, a := more[..|more| - 1], more[|more| - 1];
      hide WorldAfter, Loaded;
      assert run + more == run + front + [a];
      InstalledVersionNeverFallsBack(builtIns, run, front, id);
      InstalledVersionNeverDecreases(builtIns, run + front, a, id);
    }
  }

  lemma InstallingRaises(file: File, c: AgentConfiguration, writable: bool)
    ensures Loaded(file).Some? ==>
      Loaded(FileAfter(file, c, writable)) == Loaded(file)
      || (Loaded(FileAfter(file, c, writable)) == Some(c) && c.version > Loaded(file).value.version)
  {
  }

  // What is served can be installed: exactly when.

  /** The bounds a device puts on the cadences it is given. */
  predicate CadenceIsValid(settings: Cadence) {
    && 1 <= settings.sampling <= LONGEST_SECONDS && 1 <= settings.upload <= LONGEST_SECONDS
    && 0 <= settings.parkedSampling <= LONGEST_SECONDS && 0 <= settings.parkedUpload <= LONGEST_SECONDS
  }

  /** The reference is absent, or names a CAN profile whose definition a device can parse and which carries that id. */
  predicate ReferenceResolves(builtIns: ProfileTable, profiles: ProfileTable, reference: Option<string>) {
    reference.None?
    || (var definition := CanDefinition(builtIns, profiles, reference);
        definition.Some? && Parses(definition.value) && definition.value.id == reference.value)
  }

  /** A new device installs an agent's configuration exactly when the cadences are within bounds and the reference resolves. */
  lemma ConfigurationInstallsIff(builtIns: ProfileTable, profiles: ProfileTable, row: AgentRow)
    requires row.version >= 1
    ensures Installs(Missing, ConfigOf(builtIns, profiles, row), true)
            <==> CadenceIsValid(row.settings) && ReferenceResolves(builtIns, profiles, row.settings.vehicleProfile)
  {
    assert CanDefinition(builtIns, profiles, None).None?;
    hide Parses, CanDefinition;
  }

  predicate VersionsArePositive(agents: map<string, AgentRow>) {
    forall id :: id in agents ==> agents[id].version >= 1
  }

  lemma EditKeepsVersionsPositive(builtIns: ProfileTable, w: World, a: Action)
    requires VersionsArePositive(w.fleet.agents)
    ensures VersionsArePositive(Edited(builtIns, w, a).agents)
  {
    hide IsAvailable, MappingAt;
  }

  lemma StepKeepsVersionsPositive(builtIns: ProfileTable, w: World, a: Action)
    requires VersionsArePositive(w.fleet.agents)
    ensures VersionsArePositive(Stepped(builtIns, w, a).fleet.agents)
  {
    hide Edited, VersionsArePositive, ConfigOf, FileAfter, Definitions, Reconciled;
    EditKeepsVersionsPositive(builtIns, w, a);
  }

  lemma {:induction false} VersionsStartAtOne(builtIns: ProfileTable, run: seq<Action>)
    ensures VersionsArePositive(WorldAfter(builtIns, run).fleet.agents)
  {
    hide Stepped;
    if run != [] {
      VersionsStartAtOne(builtIns, run[..|run| - 1]);
      StepKeepsVersionsPositive(builtIns, WorldAfter(builtIns, run[..|run| - 1]), run[|run| - 1]);
    }
  }

  /** At any time, for any agent: a new device can take what the server would serve exactly when its reference resolves. */
  lemma CurrentConfigurationInstallsIff(builtIns: ProfileTable, run: seq<Action>, id: string)
    requires id in WorldAfter(builtIns, run).fleet.agents
    ensures var f := WorldAfter(builtIns, run).fleet;
      Installs(Missing, ConfigOf(builtIns, f.profiles, f.agents[id]), true)
      <==> CadenceIsValid(f.agents[id].settings) && ReferenceResolves(builtIns, f.profiles, f.agents[id].settings.vehicleProfile)
  {
    VersionsStartAtOne(builtIns, run);
    var f := WorldAfter(builtIns, run).fleet;
    hide WorldAfter, ConfigOf, CadenceIsValid, ReferenceResolves, Installs;
    ConfigurationInstallsIff(builtIns, f.profiles, f.agents[id]);
  }

  /** Every CAN definition that can be looked up is one a device can parse, under the id it is looked up by. */
  ghost predicate DefinitionsParse(builtIns: ProfileTable, profiles: ProfileTable) {
    forall id: string :: CanDefinition(builtIns, profiles, Some(id)).Some? ==> ReferenceResolves(builtIns, profiles, Some(id))
  }

  /**
   * Enrolment looks at nothing again, so its answer can be installed exactly when the token's reference
   * still resolves: a deleted profile and an empty reference do not.
   */
  lemma EnrolmentInstallsIff(builtIns: ProfileTable, f: Fleet, token: nat, id: string, request: Request)
    requires token < |f.tokens| && Accepts(f.tokens[token], request)
    ensures var settings := f.tokens[token].offer.settings;
      var after := Enrolled(f, token, id, request);
      id in after.agents
      && (Installs(Missing, ConfigOf(builtIns, after.profiles, after.agents[id]), true)
          <==> CadenceIsValid(settings) && ReferenceResolves(builtIns, f.profiles, settings.vehicleProfile))
  {
    var offer := f.tokens[token].offer;
    hide ConfigOf, CadenceIsValid, ReferenceResolves, Installs;
    ConfigurationInstallsIff(builtIns, f.profiles, AgentRow(offer.name, offer.settings, 1));
  }

  /**
   * Saving settings does look: of what it stores, where definitions parse and the cadences are within
   * bounds, only the empty reference cannot be installed.
   */
  lemma UpdateInstallsIff(builtIns: ProfileTable, f: Fleet, id: string, name: string, settings: Cadence)
    requires id in f.agents && f.agents[id].version >= 1 && IsAvailable(builtIns, f.profiles, settings.vehicleProfile)
    ensures var after := AgentUpdated(builtIns, f, id, name, settings);
      var installs := Installs(Missing, ConfigOf(builtIns, after.profiles, after.agents[id]), true);
      && (installs <==> CadenceIsValid(settings) && ReferenceResolves(builtIns, f.profiles, settings.vehicleProfile))
      && (DefinitionsParse(builtIns, f.profiles) && CadenceIsValid(settings) ==> (installs <==> settings.vehicleProfile != Some("")))
  {
    hide ConfigOf, CadenceIsValid, Parses, Installs, AgentDefinitionOf;
    ConfigurationInstallsIff(builtIns, f.profiles, AgentUpdated(builtIns, f, id, name, settings).agents[id]);
    if settings.vehicleProfile.Some? && DefinitionsParse(builtIns, f.profiles) {
      var reference := settings.vehicleProfile.value;
      assert Some(reference) == settings.vehicleProfile;
    }
  }

  /** A reference to no definition, the empty one among them, is refused by every device in every state. */
  lemma DanglingReferenceIsRefused(builtIns: ProfileTable, profiles: ProfileTable, row: AgentRow)
    requires row.settings.vehicleProfile.Some? && CanDefinition(builtIns, profiles, row.settings.vehicleProfile).None?
    ensures forall file, writable :: !Installs(file, ConfigOf(builtIns, profiles, row), writable)
  {
  }

  /** The empty reference passes every check of the server, when settings are saved and when a token is made. */
  lemma EmptyReferenceIsServed(builtIns: ProfileTable, f: Fleet, id: string, name: string, settings: Cadence, offer: Offer)
    requires id in f.agents && settings.vehicleProfile == Some("") && offer.settings.vehicleProfile == Some("")
    requires !IsConnectors(offer.implementation)
    ensures var after := AgentUpdated(builtIns, f, id, name, settings);
      && after.agents[id].settings == settings
      && forall file, writable :: !Installs(file, ConfigOf(builtIns, after.profiles, after.agents[id]), writable)
    ensures TokenCreated(builtIns, f, offer).tokens == f.tokens + [Token(offer, false)]
    ensures !ReferenceResolves(builtIns, f.profiles, offer.settings.vehicleProfile)
  {
    var after := AgentUpdated(builtIns, f, id, name, settings);
    DanglingReferenceIsRefused(builtIns, after.profiles, after.agents[id]);
    hide ConfigOf, Installs;
  }

  /** A token remembers its profile, so the first configuration of an agent can name a deleted one. */
  lemma EnrolmentCanDangle(offer: Offer, written: ProfileDefinition, request: Request)
    requires Accepts(Token(offer, false), request)
    ensures var named := offer.(settings := offer.settings.(vehicleProfile := Some("p")));
      var run := [CreateProfile("p", CanProfile, written), CreateToken(named), DeleteProfile("p"), Enroll(0, "a", request)];
      var w := WorldAfter(map[], run);
      && |w.served| == 1 && w.served[0].configuration.vehicleProfile == Some("p")
      && !Validates(w.served[0].configuration)
  {
    var named := offer.(settings := offer.settings.(vehicleProfile := Some("p")));
    var create, token, remove, enroll := CreateProfile("p", CanProfile, written), CreateToken(named), DeleteProfile("p"), Enroll(0, "a", request);
    hide AgentDefinitionOf;
    RunNext(map[], [], create);
    assert [] + [create] == [create];
    RunNext(map[], [create], token);
    assert [create] + [token] == [create, token];
    RunNext(map[], [create, token], remove);
    assert [create, token] + [remove] == [create, token, remove];
    RunNext(map[], [create, token, remove], enroll);
    assert [create, token, remove] + [enroll] == [create, token, remove, enroll];
    hide WorldAfter;
    var w1 := Stepped(map[], Start(), create);
    var w2 := Stepped(map[], w1, token);
    assert w2.fleet.tokens == [Token(named, false)];
    var w3 := Stepped(map[], w2, remove);
    assert w3.fleet.tokens == [Token(named, false)] && "p" !in w3.fleet.profiles && w3.served == [] && w3.usedAgents == {};
  }

  lemma RunNext(builtIns: ProfileTable, run: seq<Action>, a: Action)
    ensures WorldAfter(builtIns, run + [a]) == Stepped(builtIns, WorldAfter(builtIns, run), a)
    ensures WorldAfter(builtIns, []) == Start()
  {
    assert (run + [a])[..|run|] == run;
  }

  /** Damage lets an older response back in: the only way an installed version goes down. */
  lemma DamageAdmitsOlder(older: AgentConfiguration, newer: AgentConfiguration)
    requires Validates(older) && Validates(newer) && older.version < newer.version
    ensures FileAfter(Holds(newer), older, true) == Holds(newer)
    ensures FileAfter(Unreadable, older, true) == Holds(older)
  {
    hide Validates;
  }

  /** Saving an agent's settings raises the version exactly when its configuration changes. */
  lemma SettingsBumpIffConfigurationChanges(builtIns: ProfileTable, f: Fleet, id: string, name: string, settings: Cadence)
    requires id in f.agents
    ensures var after := AgentUpdated(builtIns, f, id, name, settings);
      && id in after.agents
      && (ConfigOf(builtIns, after.profiles, after.agents[id]).(version := 0) != ConfigOf(builtIns, f.profiles, f.agents[id]).(version := 0)
          <==> after.agents[id].version == f.agents[id].version + 1)
      && f.agents[id].version <= after.agents[id].version <= f.agents[id].version + 1
  {
    hide AgentDefinitionOf;
  }
}
