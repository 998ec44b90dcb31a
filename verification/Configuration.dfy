/**
 * The configuration an agent is served, and how it is kept on the device
 * (backend/app/agents/services.py, backend/app/vehicle_profiles/services.py, agent/internal/store/config.go);
 * and the connectors the server runs itself (backend/app/connectors).
 */
module Configuration {
  import opened Options

  datatype ProfileKind = CanProfile | MappingProfile

  /** `decoding` is everything a decoder reads beyond what validation looks at; `caption` is for people. */
  datatype SignalDefinition = SignalDefinition(name: string, sourceType: string, canId: int, dataType: string, decoding: string, caption: string)
  datatype ComputedMetric = ComputedMetric(name: string, operation: string, inputs: seq<string>, scaling: string, caption: string)

  datatype ProfileDefinition = ProfileDefinition(
    id: string, name: string, description: string, revision: int,
    signals: seq<SignalDefinition>, computed: seq<ComputedMetric>)

  datatype VehicleProfile = VehicleProfile(kind: ProfileKind, definition: ProfileDefinition)
  type ProfileTable = map<string, VehicleProfile>

  datatype AgentDefinition = AgentDefinition(id: string, signals: seq<SignalDefinition>, computed: seq<ComputedMetric>)

  function Uncaptioned(signals: seq<SignalDefinition>): seq<SignalDefinition> {
    seq(|signals|, i requires 0 <= i < |signals| => signals[i].(caption := ""))
  }

  function UncaptionedComputed(computed: seq<ComputedMetric>): seq<ComputedMetric> {
    seq(|computed|, i requires 0 <= i < |computed| => computed[i].(caption := ""))
  }

  /** What of a profile reaches a decoder. */
  function AgentDefinitionOf(definition: ProfileDefinition): AgentDefinition {
    AgentDefinition(definition.id, Uncaptioned(definition.signals), UncaptionedComputed(definition.computed))
  }

  /** A built-in profile hides a stored one of the same id, whatever its kind. */
  function FullDefinition(builtIns: ProfileTable, profiles: ProfileTable, id: Option<string>, kind: ProfileKind): Option<ProfileDefinition> {
    if id.None? || id.value == "" then None
    else if id.value in builtIns then
      if builtIns[id.value].kind == kind then Some(builtIns[id.value].definition) else None
    else if id.value in profiles && profiles[id.value].kind == kind then Some(profiles[id.value].definition)
    else None
  }

  function CanDefinition(builtIns: ProfileTable, profiles: ProfileTable, id: Option<string>): Option<AgentDefinition> {
    var definition := FullDefinition(builtIns, profiles, id, CanProfile);
    if definition.Some? then Some(AgentDefinitionOf(definition.value)) else None
  }

  datatype Interval = Interval(defaultSeconds: int, parkedSeconds: int)

  datatype AgentConfiguration = AgentConfiguration(
    version: int, sampling: Interval, upload: Interval,
    vehicleProfile: Option<string>, definition: Option<AgentDefinition>)

  /** The part of an agent's settings that its configuration is made of. */
  datatype Cadence = Cadence(vehicleProfile: Option<string>, sampling: int, upload: int, parkedSampling: int, parkedUpload: int)
  datatype AgentRow = AgentRow(name: string, settings: Cadence, version: int)
  /** What an enrolment token was made for. */
  datatype Offer = Offer(name: string, implementation: string, expiresAt: int, settings: Cadence)
  datatype Token = Token(offer: Offer, used: bool)

  /** `vehicleExists`: whether the vehicle the token was made for is still there. */
  datatype Request = Request(implementation: string, protocol: int, now: int, vehicleExists: bool)

  /** `options` is everything a connector is set up with besides its mapping profile. */
  datatype ConnectorRow = ConnectorRow(mapping: string, enabled: bool, options: string, version: int)

  datatype Fleet = Fleet(
    agents: map<string, AgentRow>, connectors: map<string, ConnectorRow>, profiles: ProfileTable, tokens: seq<Token>)

  const SUPPORTED_PROTOCOL_VERSION := 2
  const CONNECTOR_IMPLEMENTATION_PREFIX := "connector."
  const TESLAMATE_MAPPING_PROFILE := "teslamate-mqtt-v1"

  function ConfigOf(builtIns: ProfileTable, profiles: ProfileTable, row: AgentRow): AgentConfiguration {
    AgentConfiguration(row.version,
                       Interval(row.settings.sampling, row.settings.parkedSampling),
                       Interval(row.settings.upload, row.settings.parkedUpload),
                       row.settings.vehicleProfile,
                       CanDefinition(builtIns, profiles, row.settings.vehicleProfile))
  }

  function MappingAt(builtIns: ProfileTable, profiles: ProfileTable, mapping: string): Option<ProfileDefinition> {
    FullDefinition(builtIns, profiles, Some(mapping), MappingProfile)
  }

  predicate IsAvailable(builtIns: ProfileTable, profiles: ProfileTable, id: Option<string>) {
    id.None? || id.value == "" || CanDefinition(builtIns, profiles, id).Some?
  }

  // What each edit does to the tables.

  function Bumped(row: AgentRow): AgentRow {
    row.(version := row.version + 1)
  }

  predicate Assigned(row: AgentRow, profileId: string) {
    row.settings.vehicleProfile == Some(profileId)
  }

  function AgentUpdated(builtIns: ProfileTable, f: Fleet, id: string, name: string, settings: Cadence): Fleet {
    if id !in f.agents || !IsAvailable(builtIns, f.profiles, settings.vehicleProfile) then f
    else
      var row := f.agents[id];
      f.(agents := f.agents[id := AgentRow(name, settings, if settings != row.settings then row.version + 1 else row.version)])
  }

  function Steady(reference: Option<string>, seconds: int): Cadence {
    Cadence(reference, seconds, seconds, seconds, seconds)
  }

  /** A connector reports through a source row of its own id. */
  function ConnectorCreated(builtIns: ProfileTable, f: Fleet, id: string, name: string, mapping: string, options: string, seconds: int): Fleet {
    if MappingAt(builtIns, f.profiles, mapping).None? then f
    else f.(agents := f.agents[id := AgentRow(name, Steady(None, seconds), 1)],
            connectors := f.connectors[id := ConnectorRow(mapping, true, options, 1)])
  }

  /** Saving a connector always counts as a change, of the connector and of its source row. */
  function ConnectorUpdated(
    builtIns: ProfileTable, f: Fleet, id: string, name: string, mapping: string, enabled: bool, options: string, seconds: int): Fleet
  {
    if id !in f.connectors || id !in f.agents || MappingAt(builtIns, f.profiles, mapping).None? then f
    else
      var row := f.agents[id];
      f.(agents := f.agents[id := AgentRow(name, Steady(row.settings.vehicleProfile, seconds), row.version + 1)],
         connectors := f.connectors[id := ConnectorRow(mapping, enabled, options, f.connectors[id].version + 1)])
  }

  function ConnectorsBumped(connectors: map<string, ConnectorRow>, profileId: string): map<string, ConnectorRow> {
    map id | id in connectors ::
      if connectors[id].mapping == profileId then connectors[id].(version := connectors[id].version + 1) else connectors[id]
  }

  /** Connectors of a deleted mapping go back to the default of their kind; there is one kind. */
  function ConnectorsReassigned(connectors: map<string, ConnectorRow>, profileId: string): map<string, ConnectorRow> {
    map id | id in connectors ::
      if connectors[id].mapping == profileId
      then connectors[id].(mapping := TESLAMATE_MAPPING_PROFILE, version := connectors[id].version + 1)
      else connectors[id]
  }

  function AgentsBumped(agents: map<string, AgentRow>, profileId: string): map<string, AgentRow> {
    map id | id in agents :: if Assigned(agents[id], profileId) then Bumped(agents[id]) else agents[id]
  }

  function AgentsUnassigned(agents: map<string, AgentRow>, profileId: string): map<string, AgentRow> {
    map id | id in agents ::
      if Assigned(agents[id], profileId)
      then Bumped(agents[id].(settings := agents[id].settings.(vehicleProfile := None)))
      else agents[id]
  }

  function ProfileUpdated(f: Fleet, id: string, kind: ProfileKind, written: ProfileDefinition): Fleet {
    if id !in f.profiles || f.profiles[id].kind != kind then f
    else
      var definition := written.(id := id, revision := f.profiles[id].definition.revision + 1);
      f.(profiles := f.profiles[id := VehicleProfile(kind, definition)],
         agents := if kind.CanProfile? then AgentsBumped(f.agents, id) else f.agents,
         connectors := if kind.CanProfile? then f.connectors else ConnectorsBumped(f.connectors, id))
  }

  function ProfileDeleted(f: Fleet, id: string): Fleet {
    if id !in f.profiles then f
    else
      f.(profiles := f.profiles - {id},
         agents := if f.profiles[id].kind.CanProfile? then AgentsUnassigned(f.agents, id) else f.agents,
         connectors := if f.profiles[id].kind.CanProfile? then f.connectors else ConnectorsReassigned(f.connectors, id))
  }

  function ProfileCreated(f: Fleet, id: string, kind: ProfileKind, written: ProfileDefinition): Fleet {
    f.(profiles := f.profiles[id := VehicleProfile(kind, written.(id := id, revision := 1))])
  }

  predicate IsConnectors(implementation: string) {
    CONNECTOR_IMPLEMENTATION_PREFIX <= implementation
  }

  predicate MayOffer(builtIns: ProfileTable, profiles: ProfileTable, offer: Offer) {
    !IsConnectors(offer.implementation) && IsAvailable(builtIns, profiles, offer.settings.vehicleProfile)
  }

  function TokenCreated(builtIns: ProfileTable, f: Fleet, offer: Offer): Fleet {
    if !MayOffer(builtIns, f.profiles, offer) then f else f.(tokens := f.tokens + [Token(offer, false)])
  }

  predicate Accepts(t: Token, r: Request) {
    && !IsConnectors(r.implementation) && r.protocol == SUPPORTED_PROTOCOL_VERSION
    && !t.used && r.now <= t.offer.expiresAt
    && r.implementation == t.offer.implementation && r.vehicleExists
  }

  /** The profile is not looked at again: a token may outlive the profile it names. */
  function Enrolled(f: Fleet, token: nat, id: string, request: Request): Fleet {
    if token >= |f.tokens| || !Accepts(f.tokens[token], request) then f
    else
      var offer := f.tokens[token].offer;
      f.(agents := f.agents[id := AgentRow(offer.name, offer.settings, 1)], tokens := f.tokens[token := Token(offer, true)])
  }

  /** The server's side of every edit, with its tables updated in place. */
  class ConfigurationServer {
    const builtIns: ProfileTable
    var agents: map<string, AgentRow>
    var connectors: map<string, ConnectorRow>
    var profiles: ProfileTable
    var tokens: seq<Token>

    ghost function Contents(): Fleet
      reads this
    {
      Fleet(agents, connectors, profiles, tokens)
    }

    constructor (builtIns: ProfileTable)
      ensures this.builtIns == builtIns && Contents() == Fleet(map[], map[], map[], [])
    {
      this.builtIns := builtIns;
      agents, connectors, profiles, tokens := map[], map[], map[], [];
    }

    method CreateEnrollment(offer: Offer) returns (ok: bool)
      modifies this`tokens
      ensures Contents() == TokenCreated(builtIns, old(Contents()), offer)
      ensures ok <==> |tokens| > |old(tokens)|
    {
      if CONNECTOR_IMPLEMENTATION_PREFIX <= offer.implementation {
        return false;
      }
      if offer.settings.vehicleProfile.Some? && offer.settings.vehicleProfile.value != "" {
        if CanDefinition(builtIns, profiles, offer.settings.vehicleProfile).None? {
          return false;
        }
      }
      tokens := tokens + [Token(offer, false)];
      ok := true;
    }

    /** A token makes one agent, whose first configuration is its answer. */
    method Enroll(token: nat, id: string, request: Request) returns (configuration: Option<AgentConfiguration>)
      requires id !in agents
      modifies this`agents, this`tokens
      ensures Contents() == Enrolled(old(Contents()), token, id, request)
      ensures configuration.Some? <==> token < |old(tokens)| && Accepts(old(tokens)[token], request)
      ensures configuration.Some? ==> id in agents && configuration.value == ConfigOf(builtIns, profiles, agents[id])
      ensures configuration.Some? ==> tokens[token].used && agents[id].version == 1
    {
      if CONNECTOR_IMPLEMENTATION_PREFIX <= request.implementation {
        return None;
      }
      if request.protocol != SUPPORTED_PROTOCOL_VERSION {
        return None;
      }
      if token >= |tokens| || tokens[token].used || tokens[token].offer.expiresAt < request.now {
        return None;
      }
      var offer := tokens[token].offer;
      if request.implementation != offer.implementation || !request.vehicleExists {
        return None;
      }
      var row := AgentRow(offer.name, offer.settings, 1);
      tokens := tokens[token := Token(offer, true)];
      agents := agents[id := row];
      configuration := Some(ConfigOf(builtIns, profiles, row));
    }

    /** True when the agent has to be told. */
    method UpdateAgent(id: string, name: string, settings: Cadence) returns (changed: bool)
      requires id in agents
      modifies this`agents
      ensures Contents() == AgentUpdated(builtIns, old(Contents()), id, name, settings)
      ensures changed <==> ConfigOf(builtIns, profiles, agents[id]) != ConfigOf(builtIns, old(profiles), old(agents[id]))
      ensures changed <==> agents[id].version == old(agents[id].version) + 1
    {
      changed := false;
      if settings.vehicleProfile.Some? && settings.vehicleProfile.value != "" {
        if CanDefinition(builtIns, profiles, settings.vehicleProfile).None? {
          return;
        }
      }
      var row := agents[id];
      changed := row.settings.vehicleProfile != settings.vehicleProfile
                 || row.settings.sampling != settings.sampling || row.settings.upload != settings.upload
                 || row.settings.parkedSampling != settings.parkedSampling || row.settings.parkedUpload != settings.parkedUpload;
      row := row.(name := name, settings := settings);
      if changed {
        row := row.(version := row.version + 1);
      }
      agents := agents[id := row];
    }

    method BumpAssignedAgents(profileId: string)
      modifies this`agents
      ensures agents == AgentsBumped(old(agents), profileId)
    {
      agents := map id | id in agents ::
        if agents[id].settings.vehicleProfile == Some(profileId)
        then agents[id].(version := agents[id].version + 1) else agents[id];
    }

    method BumpAssignedConnectors(profileId: string)
      modifies this`connectors
      ensures connectors == ConnectorsBumped(old(connectors), profileId)
    {
      connectors := map id | id in connectors ::
        if connectors[id].mapping == profileId
        then connectors[id].(version := connectors[id].version + 1) else connectors[id];
    }

    /** False when there is no such mapping, and then nothing has changed. */
    method CreateConnector(id: string, name: string, mapping: string, options: string, seconds: int) returns (ok: bool)
      requires id !in agents && id !in connectors
      modifies this`agents, this`connectors
      ensures Contents() == ConnectorCreated(builtIns, old(Contents()), id, name, mapping, options, seconds)
      ensures ok <==> id in connectors
    {
      if MappingAt(builtIns, profiles, mapping).None? {
        return false;
      }
      connectors := connectors[id := ConnectorRow(mapping, true, options, 1)];
      agents := agents[id := AgentRow(name, Cadence(None, seconds, seconds, seconds, seconds), 1)];
      ok := true;
    }

    method UpdateConnector(id: string, name: string, mapping: string, enabled: bool, options: string, seconds: int) returns (ok: bool)
      requires id in connectors
      modifies this`agents, this`connectors
      ensures Contents() == ConnectorUpdated(builtIns, old(Contents()), id, name, mapping, enabled, options, seconds)
      ensures ok <==> connectors[id].version == old(connectors[id].version) + 1
    {
      if MappingAt(builtIns, profiles, mapping).None? || id !in agents {
        return false;
      }
      connectors := connectors[id := ConnectorRow(mapping, enabled, options, connectors[id].version + 1)];
      var row := agents[id];
      agents := agents[id := row.(name := name, version := row.version + 1,
                                  settings := Cadence(row.settings.vehicleProfile, seconds, seconds, seconds, seconds))];
      ok := true;
    }

    /** False when the edit would change the profile's kind. */
    method UpdateProfile(id: string, kind: ProfileKind, written: ProfileDefinition) returns (ok: bool)
      requires id in profiles
      modifies this`profiles, this`agents, this`connectors
      ensures ok <==> kind == old(profiles)[id].kind
      ensures Contents() == ProfileUpdated(old(Contents()), id, kind, written)
    {
      var profile := profiles[id];
      if kind != profile.kind {
        return false;
      }
      var definition := written.(id := id, revision := profile.definition.revision + 1);
      profiles := profiles[id := profile.(definition := definition)];
      if profile.kind.CanProfile? {
        BumpAssignedAgents(id);
      } else {
        BumpAssignedConnectors(id);
      }
      ok := true;
    }

    method DeleteProfile(id: string)
      requires id in profiles
      modifies this`profiles, this`agents, this`connectors
      ensures Contents() == ProfileDeleted(old(Contents()), id)
    {
      if profiles[id].kind.CanProfile? {
        agents := AgentsUnassigned(agents, id);
      } else {
        connectors := ConnectorsReassigned(connectors, id);
      }
      profiles := profiles - {id};
    }
  }

  // The connectors the server runs.

  /** What a session is started with. */
  datatype Session = Session(version: int, options: string, mapping: ProfileDefinition)
  type Sessions = map<string, Session>

  /** A connector runs when it is enabled and its mapping exists. */
  predicate Runs(builtIns: ProfileTable, f: Fleet, id: string) {
    id in f.connectors && f.connectors[id].enabled && MappingAt(builtIns, f.profiles, f.connectors[id].mapping).Some?
  }

  function Definitions(builtIns: ProfileTable, f: Fleet): Sessions {
    map id | id in f.connectors && Runs(builtIns, f, id) ::
      Session(f.connectors[id].version, f.connectors[id].options, MappingAt(builtIns, f.profiles, f.connectors[id].mapping).value)
  }

  /** A session of the version wanted goes on as it is; the others are ended, and what is missing is started. */
  function Reconciled(sessions: Sessions, definitions: Sessions): Sessions {
    map id | id in definitions ::
      if id in sessions && sessions[id].version == definitions[id].version then sessions[id] else definitions[id]
  }

  class ConnectorSupervisor {
    var sessions: Sessions

    constructor ()
      ensures sessions == map[]
    {
      sessions := map[];
    }

    method EndOutdated(definitions: Sessions)
      modifies this
      ensures forall id :: id in sessions <==>
                id in old(sessions) && id in definitions && old(sessions)[id].version == definitions[id].version
      ensures forall id :: id in sessions ==> sessions[id] == old(sessions)[id]
    {
      var remaining := sessions.Keys;
      while remaining != {}
        invariant remaining <= sessions.Keys <= old(sessions).Keys
        invariant forall id :: id in sessions ==> sessions[id] == old(sessions)[id]
        invariant forall id :: id in old(sessions) && id !in remaining ==>
                    (id in sessions <==> id in definitions && old(sessions)[id].version == definitions[id].version)
        decreases |remaining|
      {
        var id :| id in remaining;
        remaining := remaining - {id};
        if id !in definitions || definitions[id].version != sessions[id].version {
          sessions := sessions - {id};
        }
      }
    }

    method Reconcile(definitions: Sessions)
      modifies this
      ensures sessions == Reconciled(old(sessions), definitions)
    {
      EndOutdated(definitions);
      ghost var kept := sessions;
      var missing := definitions.Keys;
      while missing != {}
        invariant missing <= definitions.Keys && kept.Keys <= sessions.Keys <= definitions.Keys
        invariant forall id :: id in definitions && id !in missing ==> id in sessions
        invariant forall id :: id in sessions ==> sessions[id] == if id in kept then kept[id] else definitions[id]
        decreases |missing|
      {
        var id :| id in missing;
        missing := missing - {id};
        if id !in sessions {
          sessions := sessions[id := definitions[id]];
        }
      }
    }
  }

  // The device's side.

  const LONGEST_SECONDS := 86400
  const HIGHEST_CAN_ID := 0x1fff_ffff
  const DECODER_TYPES := {"uint8", "uint16", "uint32", "int8", "int16", "int32", "bytes", "boolean"}

  predicate SignalIsValid(s: SignalDefinition) {
    s.name != "" && s.sourceType == "can" && 0 <= s.canId <= HIGHEST_CAN_ID && s.dataType in DECODER_TYPES
  }

  predicate ComputedIsValid(m: ComputedMetric) {
    m.name != "" && m.operation == "multiply" && |m.inputs| == 2
  }

  predicate Parses(d: AgentDefinition) {
    && d.id != ""
    && (forall i :: 0 <= i < |d.signals| ==> SignalIsValid(d.signals[i]))
    && (forall i :: 0 <= i < |d.computed| ==> ComputedIsValid(d.computed[i]))
  }

  /** A parked cadence of zero means there is none. */
  predicate IntervalIsValid(i: Interval) {
    1 <= i.defaultSeconds <= LONGEST_SECONDS && 0 <= i.parkedSeconds <= LONGEST_SECONDS
  }

  predicate Validates(c: AgentConfiguration) {
    && c.version >= 1
    && IntervalIsValid(c.sampling) && IntervalIsValid(c.upload)
    && match c.definition
       case None => c.vehicleProfile.None?
       case Some(definition) => c.vehicleProfile == Some(definition.id) && Parses(definition)
  }

  /** The last-known-good file: absent, not decodable, or holding a configuration. */
  datatype File = Missing | Unreadable | Holds(configuration: AgentConfiguration)

  function Loaded(file: File): Option<AgentConfiguration> {
    if file.Holds? && Validates(file.configuration) then Some(file.configuration) else None
  }

  /** What an install leaves in the file. */
  function FileAfter(file: File, c: AgentConfiguration, writable: bool): File {
    var current := Loaded(file);
    if !Validates(c) || (current.Some? && c.version <= current.value.version) || !writable then file else Holds(c)
  }

  /** A valid configuration is refused only as a rollback, or because the file cannot be written. */
  predicate Installs(file: File, c: AgentConfiguration, writable: bool) {
    var current := Loaded(file);
    Validates(c) && if current.Some? && c.version <= current.value.version then c.version == current.value.version else writable
  }

  class ConfigurationStore {
    var file: File

    constructor ()
      ensures file == Missing
    {
      file := Missing;
    }

    /** The configuration in force afterwards, or nothing when it was refused or could not be written. */
    method InstallIfNewer(configuration: AgentConfiguration, writable: bool) returns (installed: Option<AgentConfiguration>)
      modifies this
      ensures file == FileAfter(old(file), configuration, writable)
      ensures installed.Some? ==> Loaded(file) == installed && installed.value.version == configuration.version
      ensures installed.None? ==> file == old(file)
      ensures installed.Some? <==> Installs(old(file), configuration, writable)
    {
      if !Validates(configuration) {
        return None;
      }
      var current := Loaded(file);
      if current.Some? {
        if configuration.version < current.value.version {
          return None;
        }
        if configuration.version == current.value.version {
          return current;
        }
      }
      if !writable {
        return None;
      }
      file := Holds(configuration);
      installed := Some(configuration);
    }
  }
}
