/**
 * What is served is what was written: the content of configurations, profile definitions and
 * connector sessions after each edit, and which requests and references the server takes.
 */
module ConfigurationContent {
  import opened Options
  import opened Configuration
  import opened ConfigurationProperties

  // Settings.

  /** A served configuration carries an agent's settings: its cadences and its reference. */
  predicate Carries(c: AgentConfiguration, settings: Cadence) {
    && c.sampling.defaultSeconds == settings.sampling && c.sampling.parkedSeconds == settings.parkedSampling
    && c.upload.defaultSeconds == settings.upload && c.upload.parkedSeconds == settings.parkedUpload
    && c.vehicleProfile == settings.vehicleProfile
  }

  /** Everything a fleet serves to agents other than one is as before. */
  ghost predicate ServesOthersAsBefore(builtIns: ProfileTable, before: Fleet, after: Fleet, id: string) {
    forall other :: other != id && other in before.agents ==>
      other in after.agents
      && ConfigOf(builtIns, after.profiles, after.agents[other]) == ConfigOf(builtIns, before.profiles, before.agents[other])
  }

  /** Saved settings are what the agent is served from then on; a reference to no CAN profile is refused and changes nothing. */
  lemma SavedSettingsAreServed(builtIns: ProfileTable, f: Fleet, id: string, name: string, settings: Cadence)
    requires id in f.agents
    ensures var after := AgentUpdated(builtIns, f, id, name, settings);
      && (if settings.vehicleProfile.None? || settings.vehicleProfile.value == "" || CanDefinition(builtIns, f.profiles, settings.vehicleProfile).Some?
          then after.agents.Keys == f.agents.Keys && after.agents[id].name == name && Carries(ConfigOf(builtIns, after.profiles, after.agents[id]), settings)
          else after == f)
      && ServesOthersAsBefore(builtIns, f, after, id)
  {
    hide FullDefinition, CanDefinition;
  }

  /** A token is made as offered, unless it is for a connector or refers to no CAN profile. */
  lemma OfferMakesAToken(builtIns: ProfileTable, f: Fleet, offer: Offer)
    ensures var reference := offer.settings.vehicleProfile;
      TokenCreated(builtIns, f, offer)
      == if !("connector." <= offer.implementation)
            && (reference.None? || reference.value == "" || CanDefinition(builtIns, f.profiles, reference).Some?)
         then f.(tokens := f.tokens + [Token(offer, false)])
         else f
  {
    hide CanDefinition;
  }

  /** An accepted enrolment serves the offer; it needs everything the token was made for, unused and in time. */
  lemma EnrolmentServesTheOffer(builtIns: ProfileTable, f: Fleet, token: nat, id: string, request: Request)
    requires token < |f.tokens| && id !in f.agents
    ensures var after, t := Enrolled(f, token, id, request), f.tokens[token];
      if !t.used && request.now <= t.offer.expiresAt && request.vehicleExists && request.protocol == 2
         && request.implementation == t.offer.implementation && !("connector." <= request.implementation)
      then
        && after.agents.Keys == f.agents.Keys + {id} && after.agents[id].name == t.offer.name && after.agents[id].version == 1
        && Carries(ConfigOf(builtIns, after.profiles, after.agents[id]), t.offer.settings)
        && |after.tokens| == |f.tokens| && after.tokens[token].used
        && (forall k :: 0 <= k < |f.tokens| && k != token ==> after.tokens[k] == f.tokens[k])
        && ServesOthersAsBefore(builtIns, f, after, id)
      else after == f
  {
    hide CanDefinition;
  }

  lemma {:induction false} UsedTokenStaysUsed(builtIns: ProfileTable, run: seq<Action>, more: seq<Action>, token: nat)
    requires var tokens := WorldAfter(builtIns, run).fleet.tokens; token < |tokens| && tokens[token].used
    ensures var tokens := WorldAfter(builtIns, run + more).fleet.tokens; token < |tokens| && tokens[token].used
  {
    if more == [] {
      assert run + more == run;
    } else {
      var front, a := more[..|more| - 1], more[|more| - 1];
      UsedTokenStaysUsed(builtIns, run, front, token);
      assert run + more == run + front + [a];
      RunNext(builtIns, run + front, a);
      hide WorldAfter;
      EditKeepsUsed(builtIns, WorldAfter(builtIns, run + front), a, token);
    }
  }

  lemma EditKeepsUsed(builtIns: ProfileTable, w: World, a: Action, token: nat)
    requires token < |w.fleet.tokens| && w.fleet.tokens[token].used
    ensures var tokens := Stepped(builtIns, w, a).fleet.tokens; token < |tokens| && tokens[token].used
  {
    UsedAfterEdit(builtIns, w, a, token);
    hide Edited, ConfigOf, FileAfter, Definitions, Reconciled;
  }

  lemma UsedAfterEdit(builtIns: ProfileTable, w: World, a: Action, token: nat)
    requires token < |w.fleet.tokens| && w.fleet.tokens[token].used
    ensures var tokens := Edited(builtIns, w, a).tokens; token < |tokens| && tokens[token].used
  {
    hide MayOffer, MappingAt, IsAvailable;
  }

  /** Once a token has enrolled an agent, no later request with it does anything, whatever happens between. */
  lemma TokenEnrolsOnce(builtIns: ProfileTable, run: seq<Action>, token: nat, id: string, request: Request, more: seq<Action>, other: string, again: Request)
    requires id !in WorldAfter(builtIns, run).usedAgents && id in WorldAfter(builtIns, run + [Enroll(token, id, request)]).fleet.agents
    ensures var before := WorldAfter(builtIns, run + [Enroll(token, id, request)] + more);
      Edited(builtIns, before, Enroll(token, other, again)) == before.fleet
  {
    RunNext(builtIns, run, Enroll(token, id, request));
    EveryRunIsWellReferenced(builtIns, run);
    KnownAgentsAreUsed(builtIns, WorldAfter(builtIns, run));
    var w := WorldAfter(builtIns, run);
    hide WorldAfter, WellReferenced;
    assert Stepped(builtIns, w, Enroll(token, id, request)).fleet == Edited(builtIns, w, Enroll(token, id, request));
    UsedTokenStaysUsed(builtIns, run + [Enroll(token, id, request)], more, token);
  }

  // Profiles.

  /** The part of a written definition that reaches a decoder: everything but the names shown to people. */
  predicate IsUncaptioned(served: AgentDefinition, id: string, written: ProfileDefinition) {
    && served.id == id
    && |served.signals| == |written.signals| && |served.computed| == |written.computed|
    && (forall i :: 0 <= i < |written.signals| ==>
          (var s, w := served.signals[i], written.signals[i];
           s.name == w.name && s.sourceType == w.sourceType && s.canId == w.canId && s.dataType == w.dataType && s.decoding == w.decoding && s.caption == ""))
    && (forall i :: 0 <= i < |written.computed| ==>
          (var s, w := served.computed[i], written.computed[i];
           s.name == w.name && s.operation == w.operation && s.inputs == w.inputs && s.scaling == w.scaling && s.caption == ""))
  }

  /** A stored definition is a written one, under its own id. */
  predicate IsWritten(d: ProfileDefinition, id: string, written: ProfileDefinition, revision: int) {
    && d.id == id && d.name == written.name && d.description == written.description && d.revision == revision
    && d.signals == written.signals && d.computed == written.computed
  }

  /** Every reference but one resolves as before. */
  ghost predicate ResolvesOthersAsBefore(builtIns: ProfileTable, before: Fleet, after: Fleet, id: string) {
    forall other, kind :: other != Some(id) ==>
      FullDefinition(builtIns, after.profiles, other, kind) == FullDefinition(builtIns, before.profiles, other, kind)
  }

  lemma ServedDefinitionIsUncaptioned(d: ProfileDefinition)
    ensures IsUncaptioned(AgentDefinitionOf(d), d.id, d)
  {
  }

  /**
   * A reference means a built-in profile before a stored one, and means nothing if that is of the other
   * kind; the empty one means nothing.
   */
  lemma ReferenceMeans(builtIns: ProfileTable, profiles: ProfileTable, id: string, kind: ProfileKind)
    ensures FullDefinition(builtIns, profiles, None, kind) == None
    ensures FullDefinition(builtIns, profiles, Some(""), kind) == None
    ensures id != "" && id in builtIns ==>
              FullDefinition(builtIns, profiles, Some(id), kind) == if builtIns[id].kind == kind then Some(builtIns[id].definition) else None
    ensures id != "" && id !in builtIns && id in profiles ==>
              FullDefinition(builtIns, profiles, Some(id), kind) == if profiles[id].kind == kind then Some(profiles[id].definition) else None
    ensures id !in builtIns && id !in profiles ==> FullDefinition(builtIns, profiles, Some(id), kind) == None
  {
  }

  /**
   * An accepted edit stores what was written with the next revision, and leaves every other profile as
   * it was; one that would change the kind does nothing. Whoever uses the profile is a version on, and
   * nobody else.
   */
  lemma EditStoresTheWritten(builtIns: ProfileTable, f: Fleet, id: string, kind: ProfileKind, written: ProfileDefinition)
    requires id in f.profiles
    ensures var after := ProfileUpdated(f, id, kind, written);
      && (kind != f.profiles[id].kind ==> after == f)
      && (kind == f.profiles[id].kind ==>
            && after.profiles.Keys == f.profiles.Keys && after.profiles[id].kind == kind
            && IsWritten(after.profiles[id].definition, id, written, f.profiles[id].definition.revision + 1)
            && ResolvesOthersAsBefore(builtIns, f, after, id))
      && after.agents.Keys == f.agents.Keys && after.connectors.Keys == f.connectors.Keys && after.tokens == f.tokens
    ensures var after := ProfileUpdated(f, id, kind, written);
      && (forall a :: a in f.agents ==>
            after.agents[a] == if kind == CanProfile == f.profiles[id].kind && f.agents[a].settings.vehicleProfile == Some(id)
                               then f.agents[a].(version := f.agents[a].version + 1) else f.agents[a])
      && (forall c :: c in f.connectors ==>
            after.connectors[c] == if kind == MappingProfile == f.profiles[id].kind && f.connectors[c].mapping == id
                                   then f.connectors[c].(version := f.connectors[c].version + 1) else f.connectors[c])
  {
  }

  /** After it, every agent assigned the profile is served the written signals and metrics, under the next version. */
  lemma EditIsServed(builtIns: ProfileTable, f: Fleet, id: string, written: ProfileDefinition, agentId: string)
    requires id in f.profiles && f.profiles[id].kind == CanProfile && id != "" && id !in builtIns
    requires agentId in f.agents && f.agents[agentId].settings.vehicleProfile == Some(id)
    ensures var after := ProfileUpdated(f, id, CanProfile, written);
      agentId in after.agents
      && (var c := ConfigOf(builtIns, after.profiles, after.agents[agentId]);
          && c.definition.Some? && IsUncaptioned(c.definition.value, id, written)
          && c.version == f.agents[agentId].version + 1 && Carries(c, f.agents[agentId].settings))
  {
    var after := ProfileUpdated(f, id, CanProfile, written);
    EditStoresTheWritten(builtIns, f, id, CanProfile, written);
    ReferenceMeans(builtIns, after.profiles, id, CanProfile);
    ServedDefinitionIsUncaptioned(after.profiles[id].definition);
    hide AgentDefinitionOf, FullDefinition;
  }

  /** Agents assigned another profile, or none, are served as before. */
  lemma EditLeavesOthers(builtIns: ProfileTable, f: Fleet, id: string, kind: ProfileKind, written: ProfileDefinition, agentId: string)
    requires id in f.profiles && agentId in f.agents && f.agents[agentId].settings.vehicleProfile != Some(id)
    ensures var after := ProfileUpdated(f, id, kind, written);
      agentId in after.agents && ConfigOf(builtIns, after.profiles, after.agents[agentId]) == ConfigOf(builtIns, f.profiles, f.agents[agentId])
  {
    EditStoresTheWritten(builtIns, f, id, kind, written);
    hide AgentDefinitionOf, FullDefinition;
  }

  /** A new profile can be referred to at once, as it was written. */
  lemma CreationStoresTheWritten(builtIns: ProfileTable, f: Fleet, id: string, kind: ProfileKind, written: ProfileDefinition)
    ensures var after := ProfileCreated(f, id, kind, written);
      && after.profiles.Keys == f.profiles.Keys + {id} && after.profiles[id].kind == kind
      && IsWritten(after.profiles[id].definition, id, written, 1)
      && ResolvesOthersAsBefore(builtIns, f, after, id)
      && after.agents == f.agents && after.connectors == f.connectors && after.tokens == f.tokens
  {
  }

  /** A deleted profile is gone: its agents refer to none under a higher version, its connectors to the default mapping. */
  lemma DeletionTakesTheProfile(builtIns: ProfileTable, f: Fleet, id: string)
    requires id in f.profiles
    ensures var after := ProfileDeleted(f, id);
      && after.profiles.Keys == f.profiles.Keys - {id} && ResolvesOthersAsBefore(builtIns, f, after, id)
      && after.agents.Keys == f.agents.Keys && after.connectors.Keys == f.connectors.Keys && after.tokens == f.tokens
      && (forall a :: a in f.agents ==>
            if f.profiles[id].kind.CanProfile? && f.agents[a].settings.vehicleProfile == Some(id)
            then after.agents[a].settings == f.agents[a].settings.(vehicleProfile := None) && after.agents[a].version == f.agents[a].version + 1
                 && after.agents[a].name == f.agents[a].name
            else after.agents[a] == f.agents[a])
      && (forall c :: c in f.connectors ==>
            if f.profiles[id].kind.MappingProfile? && f.connectors[c].mapping == id
            then after.connectors[c] == f.connectors[c].(mapping := "teslamate-mqtt-v1", version := f.connectors[c].version + 1)
            else after.connectors[c] == f.connectors[c])
  {
    hide AgentDefinitionOf;
  }

  // Connectors.

  /** A saved connector is set up as saved, one version on, and steadily cadenced; without its mapping nothing changes. */
  lemma SavedConnectorIsSetUp(
    builtIns: ProfileTable, f: Fleet, id: string, name: string, mapping: string, enabled: bool, options: string, seconds: int)
    requires id in f.connectors && id in f.agents
    ensures var after := ConnectorUpdated(builtIns, f, id, name, mapping, enabled, options, seconds);
      if FullDefinition(builtIns, f.profiles, Some(mapping), MappingProfile).None? then after == f
      else
        && after.connectors == f.connectors[id := ConnectorRow(mapping, enabled, options, f.connectors[id].version + 1)]
        && after.agents.Keys == f.agents.Keys && after.agents[id].name == name && after.agents[id].version == f.agents[id].version + 1
        && Carries(ConfigOf(builtIns, after.profiles, after.agents[id]), Cadence(f.agents[id].settings.vehicleProfile, seconds, seconds, seconds, seconds))
        && after.profiles == f.profiles && after.tokens == f.tokens && ServesOthersAsBefore(builtIns, f, after, id)
  {
    hide AgentDefinitionOf, FullDefinition, CanDefinition;
  }

  lemma CreatedConnectorIsSetUp(builtIns: ProfileTable, f: Fleet, id: string, name: string, mapping: string, options: string, seconds: int)
    requires id !in f.connectors && id !in f.agents
    ensures var after := ConnectorCreated(builtIns, f, id, name, mapping, options, seconds);
      if FullDefinition(builtIns, f.profiles, Some(mapping), MappingProfile).None? then after == f
      else
        && after.connectors == f.connectors[id := ConnectorRow(mapping, true, options, 1)]
        && after.agents.Keys == f.agents.Keys + {id} && after.agents[id].name == name && after.agents[id].version == 1
        && Carries(ConfigOf(builtIns, after.profiles, after.agents[id]), Cadence(None, seconds, seconds, seconds, seconds))
        && after.profiles == f.profiles && after.tokens == f.tokens && ServesOthersAsBefore(builtIns, f, after, id)
  {
    hide AgentDefinitionOf, FullDefinition, CanDefinition;
  }

  /** Exactly the enabled connectors whose mapping resolves are wanted, each with the definition it resolves to. */
  lemma WantedSessions(builtIns: ProfileTable, f: Fleet, id: string)
    ensures var wanted := Definitions(builtIns, f);
      && (id in wanted <==> id in f.connectors && f.connectors[id].enabled
                            && FullDefinition(builtIns, f.profiles, Some(f.connectors[id].mapping), MappingProfile).Some?)
      && (id in wanted ==>
            wanted[id] == Session(f.connectors[id].version, f.connectors[id].options,
                                  FullDefinition(builtIns, f.profiles, Some(f.connectors[id].mapping), MappingProfile).value))
  {
    hide FullDefinition;
  }

  /** From a written mapping to the sessions: after the supervisor's next look, every enabled connector of it runs it as written. */
  lemma WrittenMappingRuns(builtIns: ProfileTable, run: seq<Action>, id: string, written: ProfileDefinition, connector: string)
    requires var f := WorldAfter(builtIns, run).fleet;
      && id in f.profiles && f.profiles[id].kind == MappingProfile && id != "" && id !in builtIns
      && connector in f.connectors && f.connectors[connector].mapping == id && f.connectors[connector].enabled
    ensures var f, sessions := WorldAfter(builtIns, run).fleet, WorldAfter(builtIns, run + [UpdateProfile(id, MappingProfile, written)] + [Reconcile]).sessions;
      connector in sessions
      && sessions[connector].version == f.connectors[connector].version + 1 && sessions[connector].options == f.connectors[connector].options
      && IsWritten(sessions[connector].mapping, id, written, f.profiles[id].definition.revision + 1)
  {
    var f := WorldAfter(builtIns, run).fleet;
    var edited := run + [UpdateProfile(id, MappingProfile, written)];
    var after := ProfileUpdated(f, id, MappingProfile, written);
    RunNext(builtIns, run, UpdateProfile(id, MappingProfile, written));
    hide WorldAfter, AgentDefinitionOf, FullDefinition, Definitions;
    SupervisorIsExact(builtIns, edited);
    EditStoresTheWritten(builtIns, f, id, MappingProfile, written);
    ReferenceMeans(builtIns, after.profiles, id, MappingProfile);
    WantedSessions(builtIns, after, connector);
  }

  /** A purge takes an agent, its connector and, with the supervisor's next look, the connector's session; all else stays. */
  lemma PurgedIsGone(builtIns: ProfileTable, run: seq<Action>, id: string)
    ensures var before, after := WorldAfter(builtIns, run).fleet, WorldAfter(builtIns, run + [Purge(id)]).fleet;
      && after.agents.Keys == before.agents.Keys - {id} && after.connectors.Keys == before.connectors.Keys - {id}
      && after.profiles == before.profiles && after.tokens == before.tokens && ServesOthersAsBefore(builtIns, before, after, id)
      && (forall other :: other in after.connectors ==> after.connectors[other] == before.connectors[other])
    ensures id !in WorldAfter(builtIns, run + [Purge(id)] + [Reconcile]).sessions
  {
    RunNext(builtIns, run, Purge(id));
    hide WorldAfter, AgentDefinitionOf, FullDefinition, CanDefinition, Definitions;
    SupervisorIsExact(builtIns, run + [Purge(id)]);
    WantedSessions(builtIns, WorldAfter(builtIns, run + [Purge(id)]).fleet, id);
  }

  // The device.

  /** What a device takes, in numbers: a version from 1, cadences of a second to a day, a parked one perhaps absent. */
  lemma DeviceTakes(c: AgentConfiguration)
    ensures Validates(c) <==>
            && c.version >= 1
            && 1 <= c.sampling.defaultSeconds <= 86400 && 0 <= c.sampling.parkedSeconds <= 86400
            && 1 <= c.upload.defaultSeconds <= 86400 && 0 <= c.upload.parkedSeconds <= 86400
            && (c.definition.None? ==> c.vehicleProfile.None?)
            && (c.definition.Some? ==>
                  && c.vehicleProfile == Some(c.definition.value.id) && c.definition.value.id != ""
                  && (forall s :: s in c.definition.value.signals ==>
                        s.name != "" && s.sourceType == "can" && 0 <= s.canId < 0x2000_0000
                        && s.dataType in {"uint8", "uint16", "uint32", "int8", "int16", "int32", "bytes", "boolean"})
                  && (forall m :: m in c.definition.value.computed ==> m.name != "" && m.operation == "multiply" && |m.inputs| == 2))
  {
    if c.definition.Some? {
      var d := c.definition.value;
      assert forall i :: 0 <= i < |d.signals| ==> d.signals[i] in d.signals;
      assert forall i :: 0 <= i < |d.computed| ==> d.computed[i] in d.computed;
    }
  }

  /**
   * A valid configuration is installed over nothing, over an unreadable file and over an older one if
   * the file can be written; over its own version it is no news; over a newer one it is refused.
   */
  lemma InstallingOver(file: File, c: AgentConfiguration, writable: bool)
    requires Validates(c)
    ensures Loaded(file) == None ==>
              (Installs(file, c, writable) <==> writable) && FileAfter(file, c, writable) == if writable then Holds(c) else file
    ensures Loaded(file).Some? ==>
              var held := Loaded(file).value;
              && (c.version > held.version ==>
                    (Installs(file, c, writable) <==> writable) && FileAfter(file, c, writable) == if writable then Holds(c) else file)
              && (c.version == held.version ==> Installs(file, c, writable) && FileAfter(file, c, writable) == file)
              && (c.version < held.version ==> !Installs(file, c, writable) && FileAfter(file, c, writable) == file)
  {
    hide Validates;
  }

  /** In the world: a device that takes a delivery in force holds it, and no other device's file changes. */
  lemma InstalledIsHeld(builtIns: ProfileTable, run: seq<Action>, k: nat, writable: bool)
    requires k < |WorldAfter(builtIns, run).served|
    ensures var before, after := WorldAfter(builtIns, run), WorldAfter(builtIns, run + [Install(k, writable)]);
      var d := before.served[k];
      && (writable && Validates(d.configuration)
          && (Loaded(FileOf(before, d.agentId)).Some? ==> d.configuration.version > Loaded(FileOf(before, d.agentId)).value.version)
          ==> FileOf(after, d.agentId) == Holds(d.configuration))
      && (forall other :: other != d.agentId ==> FileOf(after, other) == FileOf(before, other))
      && after.fleet == before.fleet && after.served == before.served && after.sessions == before.sessions
  {
    var before := WorldAfter(builtIns, run);
    RunNext(builtIns, run, Install(k, writable));
    hide WorldAfter, Loaded, Validates, Installs, FileAfter;
    var d := before.served[k];
    if Validates(d.configuration) {
      InstallingOver(FileOf(before, d.agentId), d.configuration, writable);
    }
  }

  /** A device that asks is served its configuration of the moment, and an enrolled one the configuration it was enrolled with. */
  lemma AskedIsServed(builtIns: ProfileTable, run: seq<Action>, id: string, token: nat, request: Request)
    ensures var before, after := WorldAfter(builtIns, run), WorldAfter(builtIns, run + [Fetch(id)]);
      after.served == before.served + if id in before.fleet.agents then [Delivery(id, ConfigOf(builtIns, before.fleet.profiles, before.fleet.agents[id]))] else []
    ensures var before, after := WorldAfter(builtIns, run), WorldAfter(builtIns, run + [Enroll(token, id, request)]);
      if id !in before.usedAgents && id in Enrolled(before.fleet, token, id, request).agents then
        && after.fleet == Enrolled(before.fleet, token, id, request)
        && after.served == before.served + [Delivery(id, ConfigOf(builtIns, after.fleet.profiles, after.fleet.agents[id]))]
      else after.served == before.served
  {
    RunNext(builtIns, run, Fetch(id));
    RunNext(builtIns, run, Enroll(token, id, request));
    hide WorldAfter, ConfigOf, Enrolled;
  }

  /** An invalid one is never installed, and never loaded from a file. */
  lemma InvalidIsIgnored(file: File, c: AgentConfiguration, writable: bool)
    requires !Validates(c)
    ensures !Installs(file, c, writable) && FileAfter(file, c, writable) == file && Loaded(Holds(c)) == None
    ensures Loaded(Missing) == None && Loaded(Unreadable) == None
  {
    hide Validates;
  }

  /** A file that holds a valid configuration is loaded as it was written. */
  lemma HeldIsLoaded(c: AgentConfiguration)
    requires Validates(c)
    ensures Loaded(Holds(c)) == Some(c)
  {
    hide Validates;
  }
}
