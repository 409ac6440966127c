/** What holds in every run of the supervisor assignment service: who can connect, which
    superseded configurations stay refused, and what a restart preserves. */
module SupervisorSafety {
  import opened Basics
  import opened SupervisorRecords
  import opened Supervisor
  import Text
  import Timestamps

  datatype Event =
    | Select(request: Request, ids: Fresh, revokedAt: string, first: Write, issuedAt: string, second: Write)
    | Regenerate(ids: Fresh, at: string, write: Write)
    | Revoke(reason: string, at: string, write: Write)
    | Confirm(claim: Claim, now: string, at: string, write: Write)
    | Heartbeat(clientId: string, at: string, write: Write)
    | Watchdog(time: int, threshold: int, write: Write)
    | Restart(tokenHex: string, write: Write)

  function Next(s: Server, e: Event, ttl: nat): Server {
    match e
    case Select(request, ids, revokedAt, first, issuedAt, second) =>
      AfterSelect(s, request, ids, revokedAt, first, issuedAt, ttl, second)
    case Regenerate(ids, at, w) => AfterRegenerate(s, ids, at, ttl, w)
    case Revoke(reason, at, w) => AfterRevoke(s, reason, at, w)
    case Confirm(claim, now, at, w) => AfterConfirm(s, claim, now, at, w)
    case Heartbeat(clientId, at, w) => AfterHeartbeat(s, clientId, at, w)
    case Watchdog(time, threshold, w) => AfterWatchdog(s, time, threshold, w)
    case Restart(tokenHex, w) => AfterRestart(s, tokenHex, w)
  }

  // ---- One step ----

  // The claim fits the live assignment, in time and within the mode's capabilities.
  predicate Fits(a: Assignment, c: Claim, now: string) {
    && Active(a) && c.provider == a.provider && c.configId == a.configId
    && c.token != "" && c.token == a.token
    && (c.fingerprint == "" || c.fingerprint == a.fingerprint)
    && Text.LexLess(now, a.expiresAt)
    && forall cap :: cap in c.capabilities ==> cap in CapabilitiesFor(a.mode) && cap !in FORBIDDEN
  }

  lemma AcceptedIffFits(a: Assignment, c: Claim, now: string)
    ensures Judge(a, c, now) == Accepted <==> Fits(a, c, now)
  {
  }

  // A refused claim is told its first fault, in this order: no assignment, provider, configuration, token,
  // fingerprint, age, capabilities.
  lemma {:induction false} FirstFaultIsTold(a: Assignment, c: Claim, now: string)
    ensures var v := Judge(a, c, now);
      var config := Active(a) && c.provider == a.provider && c.configId == a.configId;
      var token := config && c.token == a.token != "" && (c.fingerprint == "" || c.fingerprint == a.fingerprint);
      && (v == NoAssignment <==> !Active(a))
      && (v == WrongProvider <==> Active(a) && c.provider != a.provider)
      && (v == WrongConfig <==> Active(a) && c.provider == a.provider && c.configId != a.configId)
      && (v == WrongToken <==> config && !(c.token == a.token != ""))
      && (v == WrongFingerprint <==> config && c.token == a.token != "" && !token)
      && (v == Expired <==> token && !Text.LexLess(now, a.expiresAt))
  {
    hide Refusal, Text.LexLess;
  }

  // The capability named is the first that is forbidden or not in the mode's list, and named as what it is.
  lemma {:induction false} FirstCapabilityIsTold(capabilities: seq<string>, mode: Mode, i: nat)
    requires i < |capabilities| && (capabilities[i] in FORBIDDEN || capabilities[i] !in CapabilitiesFor(mode))
    requires forall j :: 0 <= j < i ==> capabilities[j] in CapabilitiesFor(mode) && capabilities[j] !in FORBIDDEN
    ensures Refusal(capabilities, mode)
         == if capabilities[i] in FORBIDDEN then ForbiddenCapability(capabilities[i])
            else UnlistedCapability(capabilities[i])
  {
    hide FORBIDDEN, CapabilitiesFor;
    if 0 < i { FirstCapabilityIsTold(capabilities[1..], mode, i - 1); }
  }

  // Outside a restart, Connected is entered only by a confirm whose claim fits.
  lemma OnlyFittingClaimsConnect(s: Server, e: Event, ttl: nat)
    requires !e.Restart? && s.memory.state != Connected && Next(s, e, ttl).memory.state == Connected
    ensures e.Confirm? && Fits(s.memory, e.claim, e.now)
  {
    if e.Confirm? { AcceptedIffFits(s.memory, e.claim, e.now); }
  }

  // Outside a restart, Off and Revoked are left only by a select of a known provider.
  lemma OnlySelectLeavesRest(s: Server, e: Event, ttl: nat)
    requires !e.Restart? && !Active(s.memory) && Next(s, e, ttl) != s
    ensures e.Select? && e.request.provider != UnknownProvider
  {
  }

  // A claim that fits in every other way is accepted exactly in the lifetime of its configuration.
  lemma {:induction false} AcceptedDuringLifetime(a: Assignment, c: Claim, issued: nat, ttl: nat, now: nat)
    requires issued + ttl <= Timestamps.MAX_TIME && now <= Timestamps.MAX_TIME
    requires a.expiresAt == Timestamps.AddSeconds(Timestamps.Iso(issued), ttl)
    requires exists earlier :: Fits(a, c, earlier)
    ensures Judge(a, c, Timestamps.Iso(now)) == Accepted <==> now < issued + ttl
  {
    Timestamps.ExpiryIsChronological(issued, ttl, now);
    AcceptedIffFits(a, c, Timestamps.Iso(now));
  }

  // ---- What select, regenerate and revoke achieve ----

  // A successful select leaves nothing of what was there before, in memory or in the file.
  lemma SelectReplacesEverything(s: Server, t: Server, e: Event, ttl: nat)
    requires e.Select? && e.request.provider != UnknownProvider
    ensures Next(s, e, ttl).memory == Next(t, e, ttl).memory
    ensures e.second != Kept ==> Next(s, e, ttl) == Next(t, e, ttl)
  {
  }

  // Whoever still has the configuration from before a select or a regeneration is refused, whatever the
  // outcome of the writes.
  lemma SupersededClaimsAreRefused(s: Server, e: Event, ttl: nat, c: Claim, now: string)
    requires (e.Select? && e.request.provider != UnknownProvider) || e.Regenerate?
    requires TOKEN_PREFIX + e.ids.tokenHex != s.memory.token && c.token == s.memory.token
    ensures Judge(Next(s, e, ttl).memory, c, now) != Accepted
  {
    hide Encode, Refusal, Timestamps.AddSeconds, Timestamps.Expired, CapabilitiesFor;
  }

  function Steps(s: Server, events: seq<Event>, ttl: nat): Server {
    if events == [] then s else Next(Steps(s, events[..|events| - 1], ttl), events[|events| - 1], ttl)
  }

  // After a revocation nothing changes until a known provider is selected, and every claim finds no
  // assignment; if the revocation was written, that is so however often the service restarts.
  lemma {:induction false} RevocationLasts(
      s: Server, reason: string, at: string, w: Write, events: seq<Event>, ttl: nat, c: Claim, now: string)
    requires Active(s.memory)
    requires w == Written || forall i :: 0 <= i < |events| ==> !events[i].Restart?
    requires forall i :: 0 <= i < |events| && events[i].Select? ==> events[i].request.provider == UnknownProvider
    ensures var revoked := AfterRevoke(s, reason, at, w);
      && Steps(revoked, events, ttl) == revoked && revoked.memory.state == Revoked
      && Judge(revoked.memory, c, now) == NoAssignment
  {
    if events != [] {
      RevocationLasts(s, reason, at, w, events[..|events| - 1], ttl, c, now);
      RevokedIsStable(s, reason, at, w, events[|events| - 1], ttl);
    }
  }

  lemma RevokedIsStable(s: Server, reason: string, at: string, w: Write, e: Event, ttl: nat)
    requires Active(s.memory) && (e.Select? ==> e.request.provider == UnknownProvider)
    requires w == Written || !e.Restart?
    ensures Next(AfterRevoke(s, reason, at, w), e, ttl) == AfterRevoke(s, reason, at, w)
  {
    var revoked := AfterRevoke(s, reason, at, w);
    if e.Restart? {
      PersistStores(s.(memory := RevokedBy(s.memory, reason, at)), w);
      hide Stored, Encode;
    } else if Next(revoked, e, ttl) != revoked {
      OnlySelectLeavesRest(revoked, e, ttl);
    }
  }

  // ---- Rotation of a legacy token ----

  // A restart from an active record whose token follows from its configuration id gives it a new token and
  // forgets the connection; claims with the former token are refused, the rest of the record stays.
  lemma {:induction false} RotationEndsTheToken(s: Server, tokenHex: string, w: Write, c: Claim, now: string)
    requires var a := Stored(s.file); Active(a) && LegacyToken(a) && tokenHex != a.configId && c.token == a.token
    ensures var a, b := Stored(s.file), AfterRestart(s, tokenHex, w).memory;
      && b == a.(token := TOKEN_PREFIX + tokenHex, state := ConfigGenerated, clientId := "", connectedAt := "",
                 lastHeartbeat := "", lastError := b.lastError)
      && b.lastError != "" && Judge(b, c, now) != Accepted
  {
    RestartLoads(s, tokenHex, w);
    var a := Stored(s.file);
    var b := Loaded(a, tokenHex);
    FreshIsNotLegacy(tokenHex, b);
    assert 0 < |ROTATION_MESSAGE|;
    AcceptedIffFits(b, c, now);
    hide Stored, AfterRestart, Judge, FORBIDDEN, CapabilitiesFor;
  }

  // ---- What stays of a selection ----

  // A step that neither selects a known provider nor loads keeps whom the record is about and what they may.
  lemma {:induction false} StepKeepsSelection(s: Server, e: Event, ttl: nat)
    requires !e.Restart? && (e.Select? ==> e.request.provider == UnknownProvider)
    ensures var a, b := s.memory, Next(s, e, ttl).memory;
      && b.provider == a.provider && b.mode == a.mode && b.exclusive == a.exclusive && b.allowed == a.allowed
      && b.assignmentId == a.assignmentId && b.fingerprint == a.fingerprint && b.correlationId == a.correlationId
  {
    hide Persist, Encode, Judge, Stale;
    PersistKeepsMemory();
  }

  // Until the next select of a known provider or restart, the record is that of the last one: its provider,
  // mode, exclusiveness and capabilities, and the identifiers drawn for it.
  lemma {:induction false} SelectionLasts(s: Server, e: Event, events: seq<Event>, ttl: nat)
    requires e.Select? && e.request.provider != UnknownProvider
    requires forall i :: 0 <= i < |events| ==>
      !events[i].Restart? && (events[i].Select? ==> events[i].request.provider == UnknownProvider)
    ensures var a := Steps(Next(s, e, ttl), events, ttl).memory;
      && a.provider == e.request.provider && a.mode == Chosen(e.request.mode) && a.exclusive == e.request.exclusive
      && a.allowed == CapabilitiesFor(Chosen(e.request.mode)) && a.assignmentId == e.ids.assignmentId
      && a.fingerprint == e.ids.fingerprint && a.correlationId == e.ids.correlationId
  {
    if events == [] {
      SelectStores(s, e, ttl);
      IssuedIsRequested(e.request, e.ids, e.issuedAt, ttl);
      hide Next, Issued, Chosen, CapabilitiesFor;
    } else {
      var before, last := events[..|events| - 1], events[|events| - 1];
      hide Next, Chosen, CapabilitiesFor;
      SelectionLasts(s, e, before, ttl);
      StepKeepsSelection(Steps(Next(s, e, ttl), before, ttl), last, ttl);
    }
  }

  // The times of a connection are those of the last accepted claim and of the last recorded heartbeat.
  lemma {:induction false} TimesAreStamped(s: Server, e: Event, ttl: nat)
    requires !e.Restart?
    ensures var a, b := s.memory, Next(s, e, ttl).memory;
      && (IsAccepted(s, e) ==> b.connectedAt == e.at && b.lastHeartbeat == e.at && b.clientId == e.claim.clientId)
      && (e.Heartbeat? && Attempts(s, e) ==> b.connectedAt == a.connectedAt && b.lastHeartbeat == e.at)
      && (!IsAccepted(s, e) && !(e.Heartbeat? && Attempts(s, e)) ==>
            (b.connectedAt == a.connectedAt && b.lastHeartbeat == a.lastHeartbeat)
            || (b.connectedAt == "" && b.lastHeartbeat == "" && (e.Select? || e.Regenerate? || e.Revoke?)))
  {
    PersistKeepsMemory();
    hide Persist, Encode, Judge, Stale, Message;
  }

  // A revocation, and a select over a live assignment, stamp the record they end with their time and reason.
  lemma {:induction false} EndingsAreStamped(s: Server, e: Event, ttl: nat)
    requires Active(s.memory)
    ensures e.Revoke? ==>
      var b := Next(s, e, ttl).memory;
      b.state == Revoked && b.revokedAt == e.at
      && b.revocationReason == if e.reason == "" then DEFAULT_REASON else e.reason
    ensures e.Select? && e.request.provider != UnknownProvider && e.first == Written && e.second == Kept ==>
      var b := Stored(Next(s, e, ttl).file);
      b == s.memory.(state := Revoked, revokedAt := e.revokedAt,
                     revocationReason := SUPERSEDED_BY + ProviderName(e.request.provider) + ".")
  {
    PersistKeepsMemory();
    if e.Select? && e.request.provider != UnknownProvider { SelectStores(s, e, ttl); }
    hide Persist, Encode, Stored, ProviderName, Issued;
  }

  // Every mode but the disabled and the break-glass one allows the autonomous capabilities, less those of
  // deciding and of remedying.
  lemma {:induction false} ModesAllow(mode: Mode, cap: string)
    ensures cap in CapabilitiesFor(mode) <==>
      && cap in AUTONOMOUS && mode != Disabled && mode != BreakGlass
      && (mode == Decision || mode == ReadOnly ==> cap != "supervisor.issue_remediation")
      && (mode == ReadOnly ==> cap != "supervisor.submit_decision")
  {
    CapabilitiesAreDistinct();
    hide AUTONOMOUS;
  }

  lemma CapabilitiesAreDistinct()
    ensures |AUTONOMOUS| == 8
    ensures AUTONOMOUS[3] == "supervisor.submit_decision" && AUTONOMOUS[4] == "supervisor.issue_remediation"
    ensures forall i :: 0 <= i < 8 && i != 3 ==> AUTONOMOUS[i] != AUTONOMOUS[3]
    ensures forall i :: 0 <= i < 8 && i != 4 ==> AUTONOMOUS[i] != AUTONOMOUS[4]
  {
  }

  // ---- A configuration connects ----

  lemma ModesAllowNothingForbidden(mode: Mode, cap: string)
    requires cap in CapabilitiesFor(mode)
    ensures cap !in FORBIDDEN
  {
    var k :| 0 <= k < |AUTONOMOUS| && AUTONOMOUS[k] == cap;
    assert cap[0] == 's';
    forall j | 0 <= j < |FORBIDDEN| ensures FORBIDDEN[j] != cap {
      assert FORBIDDEN[j][0] != 's';
    }
  }

  // The claim a client builds from the configuration it was handed.
  function ClaimFrom(provider: Provider, clientId: string, ids: Fresh, capabilities: seq<string>): Claim {
    Claim(provider, clientId, ids.configId, TOKEN_PREFIX + ids.tokenHex, ids.fingerprint, capabilities)
  }

  // The mode that is issued for the one selected.
  function Chosen(mode: Mode): Mode {
    if mode == Disabled then Autonomous else mode
  }

  predicate AllAllowed(capabilities: seq<string>, mode: Mode) {
    forall cap :: cap in capabilities ==> cap in CapabilitiesFor(mode)
  }

  lemma {:induction false} AllowedIsNotForbidden(capabilities: seq<string>, mode: Mode)
    ensures AllAllowed(capabilities, mode)
            <==> forall cap :: cap in capabilities ==> cap in CapabilitiesFor(mode) && cap !in FORBIDDEN
  {
    forall cap | cap in CapabilitiesFor(mode) ensures cap !in FORBIDDEN { ModesAllowNothingForbidden(mode, cap); }
    hide CapabilitiesFor;
  }

  lemma {:induction false} LiveConfigurationConnects(a: Assignment, c: Claim, issued: nat, ttl: nat, now: nat)
    requires issued + ttl <= Timestamps.MAX_TIME && now <= Timestamps.MAX_TIME
    requires Active(a) && a.expiresAt == Timestamps.AddSeconds(Timestamps.Iso(issued), ttl)
    requires c.provider == a.provider && c.configId == a.configId && c.token == a.token != ""
    requires c.fingerprint == a.fingerprint
    ensures Judge(a, c, Timestamps.Iso(now)) == Accepted <==> now < issued + ttl && AllAllowed(c.capabilities, a.mode)
  {
    Timestamps.ExpiryIsChronological(issued, ttl, now);
    AllowedIsNotForbidden(c.capabilities, a.mode);
    hide FORBIDDEN, CapabilitiesFor, AllAllowed, Timestamps.AddSeconds, Timestamps.Iso;
    AcceptedIffFits(a, c, Timestamps.Iso(now));
  }

  lemma {:induction false} IssuedIsRequested(request: Request, ids: Fresh, at: string, ttl: nat)
    ensures var a := Issued(request, ids, at, ttl);
      && a.provider == request.provider && a.mode == Chosen(request.mode) && a.exclusive == request.exclusive
      && a.allowed == CapabilitiesFor(Chosen(request.mode)) && Active(a) && a.state == ConfigGenerated
      && a.assignmentId == ids.assignmentId && a.configId == ids.configId && a.token == TOKEN_PREFIX + ids.tokenHex
      && a.fingerprint == ids.fingerprint && a.correlationId == ids.correlationId
      && a.issuedAt == at && a.expiresAt == Timestamps.AddSeconds(at, ttl)
      && a.clientId == "" && a.connectedAt == "" && a.lastError == ""
  {
    hide CapabilitiesFor, Timestamps.AddSeconds;
  }

  // Whatever was there before, a claim from the configuration just issued is accepted exactly during its
  // lifetime and for capabilities that the chosen mode allows.
  lemma {:induction false} IssuedConfigurationConnects(
      s: Server, request: Request, ids: Fresh, revokedAt: string, first: Write, issued: nat, ttl: nat, second: Write,
      clientId: string, capabilities: seq<string>, now: nat)
    requires issued + ttl <= Timestamps.MAX_TIME && now <= Timestamps.MAX_TIME && request.provider != UnknownProvider
    ensures var s' := AfterSelect(s, request, ids, revokedAt, first, Timestamps.Iso(issued), ttl, second);
      var c := ClaimFrom(request.provider, clientId, ids, capabilities);
      Judge(s'.memory, c, Timestamps.Iso(now)) == Accepted
      <==> now < issued + ttl && AllAllowed(capabilities, Chosen(request.mode))
  {
    var a := Issued(request, ids, Timestamps.Iso(issued), ttl);
    assert AfterSelect(s, request, ids, revokedAt, first, Timestamps.Iso(issued), ttl, second).memory == a by {
      hide Issued, Superseded;
      PersistKeepsMemory();
    }
    assert (TOKEN_PREFIX + ids.tokenHex)[0] == 'm';
    IssuedIsRequested(request, ids, Timestamps.Iso(issued), ttl);
    hide Issued, Judge, AllAllowed, AfterSelect, Chosen, CapabilitiesFor, Timestamps.Iso, Timestamps.AddSeconds;
    LiveConfigurationConnects(a, ClaimFrom(request.provider, clientId, ids, capabilities), issued, ttl, now);
  }

  lemma {:induction false} RegeneratedIsTheSame(a: Assignment, ids: Fresh, at: string, ttl: nat)
    ensures var b := Regenerated(a, ids, at, ttl);
      && b.provider == a.provider && b.mode == a.mode && b.exclusive == a.exclusive && b.allowed == a.allowed
      && b.assignmentId == a.assignmentId && b.fingerprint == a.fingerprint && b.correlationId == a.correlationId
      && b.configId == ids.configId && b.token == TOKEN_PREFIX + ids.tokenHex && b.state == ConfigGenerated
      && b.issuedAt == at && b.expiresAt == Timestamps.AddSeconds(at, ttl) && b.connectedAt == "" && b.lastError == ""
  {
    hide Timestamps.AddSeconds;
  }

  // A regenerated configuration is good for the same mode, for a lifetime of its own.
  lemma {:induction false} RegeneratedConfigurationConnects(
      s: Server, ids: Fresh, issued: nat, ttl: nat, w: Write, clientId: string, capabilities: seq<string>, now: nat)
    requires issued + ttl <= Timestamps.MAX_TIME && now <= Timestamps.MAX_TIME && Active(s.memory)
    ensures var s' := AfterRegenerate(s, ids, Timestamps.Iso(issued), ttl, w);
      var c := ClaimFrom(s.memory.provider, clientId, ids.(fingerprint := ""), capabilities);
      Judge(s'.memory, c, Timestamps.Iso(now)) == Accepted
      <==> now < issued + ttl && AllAllowed(capabilities, s.memory.mode)
  {
    var a := Regenerated(s.memory, ids, Timestamps.Iso(issued), ttl);
    assert AfterRegenerate(s, ids, Timestamps.Iso(issued), ttl, w).memory == a by {
      hide Regenerated;
      PersistKeepsMemory();
    }
    var c := ClaimFrom(s.memory.provider, clientId, ids, capabilities).(fingerprint := a.fingerprint);
    assert (TOKEN_PREFIX + ids.tokenHex)[0] == 'm';
    RegeneratedIsTheSame(s.memory, ids, Timestamps.Iso(issued), ttl);
    hide Regenerated, Judge, AllAllowed, AfterRegenerate, CapabilitiesFor, Timestamps.Iso, Timestamps.AddSeconds;
    LiveConfigurationConnects(a, c, issued, ttl, now);
    FingerprintMayBeLeftOut(a, c, Timestamps.Iso(now));
  }

  lemma FingerprintMayBeLeftOut(a: Assignment, c: Claim, now: string)
    requires c.fingerprint == a.fingerprint
    ensures Judge(a, c.(fingerprint := ""), now) == Judge(a, c, now)
  {
  }

  // ---- Runs ----

  // retired: tokens that were live and no longer are.  issued: every token drawn or read so
  // far.  accepted: the claim that connected since the last restart.
  datatype World = World(server: Server, retired: set<string>, issued: set<string>, accepted: Option<Claim>,
                         loaded: bool)

  function NewTokens(e: Event): set<string> {
    match e
    case Select(_, ids, _, _, _, _) => {TOKEN_PREFIX + ids.tokenHex}
    case Regenerate(ids, _, _) => {TOKEN_PREFIX + ids.tokenHex}
    case Revoke(_, _, _) => {}
    case Confirm(_, _, _, _) => {}
    case Heartbeat(_, _, _) => {}
    case Watchdog(_, _, _) => {}
    case Restart(tokenHex, _) => {TOKEN_PREFIX + tokenHex}
  }

  // Random tokens do not repeat, and are not a configuration id either.
  predicate IsFresh(w: World, e: Event) {
    && NewTokens(e) !! w.issued
    && (e.Select? ==> e.ids.tokenHex != e.ids.configId)
    && (e.Regenerate? ==> e.ids.tokenHex != e.ids.configId)
    && (e.Restart? ==> e.tokenHex != Stored(w.server.file).configId)
  }

  function Retired(before: Assignment, after: Assignment): set<string> {
    if Active(before) && !(Active(after) && after.token == before.token) then {before.token} else {}
  }

  function Accepting(s: Server, e: Event, before: Option<Claim>): Option<Claim> {
    if e.Restart? then None
    else if e.Confirm? && Judge(s.memory, e.claim, e.now) == Accepted then Some(e.claim)
    else before
  }

  function After(w: World, e: Event, ttl: nat): World {
    var s := Next(w.server, e, ttl);
    World(s, w.retired + Retired(w.server.memory, s.memory), w.issued + NewTokens(e),
          Accepting(w.server, e, w.accepted), s.memory.state == Connected && (e.Restart? || w.loaded))
  }

  // The first load, from a file of any content.
  function Start(file: Option<Doc>, tokenHex: string, w: Write): World {
    var s := AfterRestart(Server(NO_ASSIGNMENT, file), tokenHex, w);
    World(s, {}, {"", Stored(file).token, TOKEN_PREFIX + tokenHex}, None, s.memory.state == Connected)
  }

  function Run(start: World, events: seq<Event>, ttl: nat): World {
    if events == [] then start else After(Run(start, events[..|events| - 1], ttl), events[|events| - 1], ttl)
  }

  predicate FreshRun(start: World, events: seq<Event>, ttl: nat) {
    events == [] || (FreshRun(start, events[..|events| - 1], ttl)
                     && IsFresh(Run(start, events[..|events| - 1], ttl), events[|events| - 1]))
  }

  // ---- A connection was confirmed ----

  predicate Confirmed(w: World) {
    var a := w.server.memory;
    a.state == Connected && !w.loaded ==>
      && w.accepted.Some?
      && var c := w.accepted.value;
         && c.provider == a.provider && c.configId == a.configId && c.token == a.token && c.token != ""
         && c.clientId == a.clientId
         && forall cap :: cap in c.capabilities ==> cap in CapabilitiesFor(a.mode) && cap !in FORBIDDEN
  }

  lemma OtherStepsKeepIdentity(s: Server, e: Event, ttl: nat)
    requires !e.Confirm? && !e.Restart? && Next(s, e, ttl).memory.state == Connected
    ensures var a, b := s.memory, Next(s, e, ttl).memory;
      && a.state == Connected && b.provider == a.provider && b.configId == a.configId && b.token == a.token
      && b.clientId == a.clientId && b.mode == a.mode
  {
    hide Persist, Encode, Stale;
    PersistKeepsMemory();
  }

  lemma JudgedKeepsIdentity(a: Assignment, c: Claim, v: Verdict, at: string)
    requires v != Accepted && Judged(a, c, v, at).state == Connected
    ensures var b := Judged(a, c, v, at);
      && a.state == Connected && b.provider == a.provider && b.configId == a.configId && b.token == a.token
      && b.clientId == a.clientId && b.mode == a.mode
  {
  }

  lemma ConfirmStepKeepsConfirmed(w: World, e: Event, ttl: nat)
    requires Confirmed(w) && e.Confirm?
    ensures Confirmed(After(w, e, ttl))
  {
    var a := w.server.memory;
    var v := Judge(a, e.claim, e.now);
    var b := Judged(a, e.claim, v, e.at);
    assert After(w, e, ttl).server.memory == b;
    if v == Accepted {
      AcceptedIffFits(a, e.claim, e.now);
    } else if b.state == Connected {
      JudgedKeepsIdentity(a, e.claim, v, e.at);
    }
  }

  lemma {:induction false} StepKeepsConfirmed(w: World, e: Event, ttl: nat)
    requires Confirmed(w)
    ensures Confirmed(After(w, e, ttl))
  {
    if e.Confirm? {
      ConfirmStepKeepsConfirmed(w, e, ttl);
    } else if !e.Restart? && Next(w.server, e, ttl).memory.state == Connected {
      OtherStepsKeepIdentity(w.server, e, ttl);
    }
  }

  // In every run, a connection not read from disk was opened by a claim for the configuration that is
  // live now, from the client recorded now, within the mode's capabilities.
  lemma {:induction false} EveryConnectionWasConfirmed(
      file: Option<Doc>, tokenHex: string, w: Write, events: seq<Event>, ttl: nat)
    ensures Confirmed(Run(Start(file, tokenHex, w), events, ttl))
  {
    if events != [] {
      var before := events[..|events| - 1];
      EveryConnectionWasConfirmed(file, tokenHex, w, before, ttl);
      StepKeepsConfirmed(Run(Start(file, tokenHex, w), before, ttl), events[|events| - 1], ttl);
    }
  }

  // ---- Writes ----

  predicate Attempts(s: Server, e: Event)
    requires !e.Select?
  {
    match e
    case Regenerate(_, _, _) => Active(s.memory)
    case Revoke(_, _, _) => Active(s.memory)
    case Confirm(claim, now, _, _) => Judge(s.memory, claim, now) != NoAssignment
    case Heartbeat(clientId, _, _) =>
      s.memory.state == Connected && (s.memory.clientId == "" || clientId == s.memory.clientId)
    case Watchdog(time, threshold, _) => Stale(s.memory, time, threshold)
    case Restart(_, _) => NeedsMigration(Stored(s.file))
  }

  // Some attempt of the step to write the file did not leave it as it was.
  predicate TookEffect(s: Server, e: Event) {
    if e.Select? then
      e.request.provider != UnknownProvider && ((Active(s.memory) && e.first != Kept) || e.second != Kept)
    else Attempts(s, e) && e.write != Kept
  }

  lemma PersistKeepsMemory()
    ensures forall s, w :: Persist(s, w).memory == s.memory
  {
  }

  lemma PersistStores(s: Server, w: Write)
    ensures var a := Stored(Persist(s, w).file);
      a == (match w case Written => s.memory case Kept => Stored(s.file) case Torn => NO_ASSIGNMENT)
  {
    DecodeUndoesEncode(s.memory);
  }

  lemma {:induction false} UpdatePersists(s: Server, e: Event, ttl: nat)
    requires !e.Select?
    ensures var s' := Next(s, e, ttl);
      s' == if Attempts(s, e) then Persist(s.(memory := s'.memory), e.write) else s.(memory := s'.memory)
  {
    hide Stored, Encode, Judge, Judged, Migrated, Stale, NeedsMigration;
  }

  // The file is left as it was, or holds the record now in memory or one at rest.
  lemma {:induction false} WritesReplaceTheFile(s: Server, e: Event, ttl: nat)
    ensures var s' := Next(s, e, ttl);
      if TookEffect(s, e) then Stored(s'.file) == s'.memory || !Active(Stored(s'.file)) else s'.file == s.file
  {
    if e.Select? {
      SelectReplacesTheFile(s, e, ttl);
    } else {
      UpdatePersists(s, e, ttl);
      PersistStores(s.(memory := Next(s, e, ttl).memory), e.write);
      hide Next, Stored, Encode, Attempts;
    }
  }

  lemma {:induction false} SelectReplacesTheFile(s: Server, e: Event, ttl: nat)
    requires e.Select?
    ensures var s' := Next(s, e, ttl);
      if TookEffect(s, e) then Stored(s'.file) == s'.memory || !Active(Stored(s'.file)) else s'.file == s.file
  {
    var s0 := s.(memory := Superseded(s.memory, e.request.provider, e.revokedAt));
    PersistStores(s0, e.first);
    var s1 := if Active(s.memory) then Persist(s0, e.first) else s;
    PersistStores(s1.(memory := Issued(e.request, e.ids, e.issuedAt, ttl)), e.second);
    hide Stored, Encode, Issued, ProviderName;
  }

  // ---- Fields fit the state ----

  predicate Opened(state: State) {
    state == Connected || state == Disconnected
  }

  // What the record's comments promise of its times and of the revocation.  Only a failed or a revoked
  // record may have either both times of a connection or neither.
  predicate FieldsFit(a: Assignment) {
    && (a.connectedAt == "" <==> a.lastHeartbeat == "")
    && (Opened(a.state) ==> a.connectedAt != "")
    && (!Opened(a.state) && a.state != Failed && a.state != Revoked ==> a.connectedAt == "")
    && (a.revokedAt != "" <==> a.state == Revoked)
    && (a.revocationReason != "" <==> a.state == Revoked)
  }

  predicate StampsTime(e: Event) {
    match e
    case Select(_, _, revokedAt, _, issuedAt, _) => revokedAt != "" && issuedAt != ""
    case Regenerate(_, at, _) => at != ""
    case Revoke(_, at, _) => at != ""
    case Confirm(_, _, at, _) => at != ""
    case Heartbeat(_, at, _) => at != ""
    case Watchdog(_, _, _) => true
    case Restart(_, _) => true
  }

  lemma JudgedFieldsFit(a: Assignment, c: Claim, v: Verdict, at: string)
    requires FieldsFit(a) && at != "" && (v == NoAssignment || Active(a))
    ensures FieldsFit(Judged(a, c, v, at))
  {
    hide Message;
  }

  lemma RevokedFieldsFit(a: Assignment, reason: string, at: string)
    requires FieldsFit(a) && at != ""
    ensures FieldsFit(RevokedBy(a, reason, at))
  {
    assert 0 < |DEFAULT_REASON|;
  }

  lemma LoadedFieldsFit(a: Assignment, tokenHex: string)
    requires FieldsFit(a)
    ensures FieldsFit(Migrated(a, tokenHex))
  {
  }

  lemma IssuedFieldsFit(a: Assignment, successor: Provider, request: Request, ids: Fresh, at: string, ttl: nat)
    requires FieldsFit(a)
    ensures FieldsFit(Issued(request, ids, at, ttl))
    ensures at != "" ==> FieldsFit(Superseded(a, successor, at))
  {
    hide ProviderName;
    assert 0 < |Superseded(a, successor, at).revocationReason|;
  }

  lemma NothingFits()
    ensures FieldsFit(NO_ASSIGNMENT)
  {
  }

  // In memory, and so in what is written.
  lemma {:induction false} StepKeepsFieldsFit(s: Server, e: Event, ttl: nat)
    requires FieldsFit(s.memory) && FieldsFit(Stored(s.file)) && StampsTime(e)
    ensures FieldsFit(Next(s, e, ttl).memory) && FieldsFit(Stored(Next(s, e, ttl).file))
  {
    if e.Select? {
      SelectKeepsFieldsFit(s, e, ttl);
    } else {
      UpdateKeepsFieldsFit(s, e, ttl);
      UpdatePersists(s, e, ttl);
      hide FieldsFit, Stored, Encode, Next, Attempts;
      PersistStores(s.(memory := Next(s, e, ttl).memory), e.write);
      NothingFits();
    }
  }

  lemma {:induction false} SelectKeepsFieldsFit(s: Server, e: Event, ttl: nat)
    requires FieldsFit(s.memory) && FieldsFit(Stored(s.file)) && e.Select? && StampsTime(e)
    ensures FieldsFit(Next(s, e, ttl).memory) && FieldsFit(Stored(Next(s, e, ttl).file))
  {
    hide FieldsFit, Stored, Encode, Superseded, Issued;
    NothingFits();
    IssuedFieldsFit(s.memory, e.request.provider, e.request, e.ids, e.revokedAt, ttl);
    IssuedFieldsFit(s.memory, e.request.provider, e.request, e.ids, e.issuedAt, ttl);
    var s0 := s.(memory := Superseded(s.memory, e.request.provider, e.revokedAt));
    PersistStores(s0, e.first);
    var s1 := if Active(s.memory) then Persist(s0, e.first) else s;
    PersistStores(s1.(memory := Issued(e.request, e.ids, e.issuedAt, ttl)), e.second);
  }

  lemma {:induction false} UpdateKeepsFieldsFit(s: Server, e: Event, ttl: nat)
    requires FieldsFit(s.memory) && FieldsFit(Stored(s.file)) && StampsTime(e) && !e.Select?
    ensures FieldsFit(Next(s, e, ttl).memory)
  {
    hide Stored, Encode, Judge, Judged, Migrated, Stale, RevokedBy;
    PersistKeepsMemory();
    hide Persist;
    if e.Watchdog? && Stale(s.memory, e.time, e.threshold) {
      StaleIsConnected(s.memory, e.time, e.threshold);
    } else if e.Revoke? {
      hide FieldsFit;
      RevokedFieldsFit(s.memory, e.reason, e.at);
    } else if e.Confirm? {
      hide FieldsFit;
      var v := Judge(s.memory, e.claim, e.now);
      assert v == NoAssignment || Active(s.memory) by { JudgeNeedsAnAssignment(s.memory, e.claim, e.now); }
      JudgedFieldsFit(s.memory, e.claim, v, e.at);
    } else if e.Restart? {
      hide FieldsFit;
      LoadedFieldsFit(Stored(s.file), e.tokenHex);
    }
  }

  lemma StaleIsConnected(a: Assignment, now: int, threshold: int)
    requires Stale(a, now, threshold)
    ensures a.state == Connected
  {
  }

  lemma JudgeNeedsAnAssignment(a: Assignment, c: Claim, now: string)
    ensures Judge(a, c, now) == NoAssignment <==> !Active(a)
  {
  }

  predicate AllStampTime(events: seq<Event>) {
    events == [] || (AllStampTime(events[..|events| - 1]) && StampsTime(events[|events| - 1]))
  }

  lemma {:induction false} EveryRunFits(file: Option<Doc>, tokenHex: string, w: Write, events: seq<Event>, ttl: nat)
    requires FieldsFit(Stored(file)) && AllStampTime(events)
    ensures var s := Run(Start(file, tokenHex, w), events, ttl).server; FieldsFit(s.memory) && FieldsFit(Stored(s.file))
  {
    if events == [] {
      NothingFits();
      StepKeepsFieldsFit(Server(NO_ASSIGNMENT, file), Restart(tokenHex, w), ttl);
    } else {
      var before := events[..|events| - 1];
      EveryRunFits(file, tokenHex, w, before, ttl);
      StepKeepsFieldsFit(Run(Start(file, tokenHex, w), before, ttl).server, events[|events| - 1], ttl);
    }
  }

  // The message left by a refusal tells which it was.
  lemma {:induction false} MessagesTellRefusalsApart(v: Verdict, w: Verdict, mode: Mode)
    requires v.WrongProvider? || v.WrongConfig? || v.WrongToken? || v.WrongFingerprint? || v.Expired?
    requires w.WrongProvider? || w.WrongConfig? || w.WrongToken? || w.WrongFingerprint? || w.Expired?
    requires Message(v, mode) == Message(w, mode)
    ensures v == w
  {
    MessageLengths();
    hide PROVIDER_MESSAGE, CONFIG_MESSAGE, TOKEN_MESSAGE, FINGERPRINT_MESSAGE, EXPIRED_MESSAGE;
  }

  lemma MessageLengths()
    ensures |PROVIDER_MESSAGE| == 41 && |CONFIG_MESSAGE| == 47 && |TOKEN_MESSAGE| == 79
    ensures |FINGERPRINT_MESSAGE| == 56 && |EXPIRED_MESSAGE| == 57
  {
  }

  // ---- The first heartbeat ----

  predicate IsAccepted(s: Server, e: Event) {
    e.Confirm? && Judge(s.memory, e.claim, e.now) == Accepted
  }

  // Some heartbeat of the run was recorded.
  predicate Beaten(start: World, events: seq<Event>, ttl: nat) {
    events != [] && (
      var before, last := events[..|events| - 1], events[|events| - 1];
      Beaten(start, before, ttl) || (last.Heartbeat? && Attempts(Run(start, before, ttl).server, last)))
  }

  // What the record's comments promise of lastHeartbeat, throughout a run.
  predicate EmptyUntilBeaten(start: World, events: seq<Event>, ttl: nat) {
    && (Run(start, events, ttl).server.memory.lastHeartbeat == "" || Beaten(start, events, ttl))
    && (events == [] || EmptyUntilBeaten(start, events[..|events| - 1], ttl))
  }

  predicate NeverAccepted(start: World, events: seq<Event>, ttl: nat) {
    events == [] || (
      var before, last := events[..|events| - 1], events[|events| - 1];
      NeverAccepted(start, before, ttl) && !IsAccepted(Run(start, before, ttl).server, last))
  }

  // Loading the file gives no heartbeat: a legacy token is rotated and its connection forgotten.
  predicate LoadsUnbeaten(file: Option<Doc>) {
    var a := Stored(file);
    a.lastHeartbeat == "" || (Active(a) && LegacyToken(a))
  }

  predicate Unbeaten(s: Server) {
    s.memory.lastHeartbeat == "" && LoadsUnbeaten(s.file)
  }

  // Without a connection only an accepted claim sets the time, and that one does.
  lemma {:induction false} MemoryStaysUnbeaten(s: Server, e: Event, ttl: nat)
    requires Unbeaten(s) && s.memory.state != Connected && StampsTime(e)
    ensures Next(s, e, ttl).memory.lastHeartbeat == "" <==> !IsAccepted(s, e)
  {
    PersistKeepsMemory();
    if e.Restart? {
      hide Stored, Encode, Persist, LegacyToken;
    } else if e.Confirm? {
      JudgedHeartbeat(s.memory, e.claim, Judge(s.memory, e.claim, e.now), e.at);
      hide Judge, Judged, Persist, Encode;
    } else {
      hide Persist, Encode, Stale;
      if e.Watchdog? && Stale(s.memory, e.time, e.threshold) { StaleIsConnected(s.memory, e.time, e.threshold); }
    }
  }

  lemma JudgedHeartbeat(a: Assignment, c: Claim, v: Verdict, at: string)
    ensures Judged(a, c, v, at).lastHeartbeat == if v == Accepted then at else a.lastHeartbeat
  {
    hide Message;
  }

  lemma {:induction false} StepStaysUnbeaten(s: Server, e: Event, ttl: nat)
    requires Unbeaten(s) && s.memory.state != Connected && StampsTime(e) && !IsAccepted(s, e)
    ensures Unbeaten(Next(s, e, ttl))
  {
    MemoryStaysUnbeaten(s, e, ttl);
    assert NO_ASSIGNMENT.lastHeartbeat == "";
    if e.Select? {
      SelectStaysUnbeaten(s, e, ttl);
    } else {
      UpdatePersists(s, e, ttl);
      PersistStores(s.(memory := Next(s, e, ttl).memory), e.write);
      hide Next, Stored, Encode, Attempts, LegacyToken, IsAccepted;
    }
  }

  lemma {:induction false} SelectStaysUnbeaten(s: Server, e: Event, ttl: nat)
    requires Unbeaten(s) && e.Select?
    ensures LoadsUnbeaten(Next(s, e, ttl).file)
  {
    var s0 := s.(memory := Superseded(s.memory, e.request.provider, e.revokedAt));
    PersistStores(s0, e.first);
    var s1 := if Active(s.memory) then Persist(s0, e.first) else s;
    var renewed := Issued(e.request, e.ids, e.issuedAt, ttl);
    PersistStores(s1.(memory := renewed), e.second);
    assert renewed.lastHeartbeat == "" && s0.memory.lastHeartbeat == "";
    hide Stored, Encode, Issued, ProviderName, LegacyToken;
  }

  lemma {:induction false} UnacceptedIsUnbeaten(
      file: Option<Doc>, tokenHex: string, w: Write, events: seq<Event>, ttl: nat)
    requires FieldsFit(Stored(file)) && AllStampTime(events)
    requires var start := Start(file, tokenHex, w);
      start.server.memory.lastHeartbeat == "" && NeverAccepted(start, events, ttl)
    ensures var start := Start(file, tokenHex, w);
      !Beaten(start, events, ttl) && Unbeaten(Run(start, events, ttl).server)
      && Run(start, events, ttl).server.memory.state != Connected
  {
    EveryRunFits(file, tokenHex, w, events, ttl);
    var start := Start(file, tokenHex, w);
    if events == [] {
      LoadingStaysUnbeaten(file, tokenHex, w);
    } else {
      var before, last := events[..|events| - 1], events[|events| - 1];
      UnacceptedIsUnbeaten(file, tokenHex, w, before, ttl);
      StepStaysUnbeaten(Run(start, before, ttl).server, last, ttl);
      hide Next, Stored, LoadsUnbeaten, IsAccepted;
    }
  }

  lemma LoadingStaysUnbeaten(file: Option<Doc>, tokenHex: string, w: Write)
    requires Start(file, tokenHex, w).server.memory.lastHeartbeat == ""
    ensures LoadsUnbeaten(Start(file, tokenHex, w).server.file)
  {
    var s := Server(NO_ASSIGNMENT, file);
    PersistStores(s.(memory := Migrated(Stored(file), tokenHex)), w);
    assert NO_ASSIGNMENT.lastHeartbeat == "";
    hide Stored, Encode, LegacyToken;
  }

  // No heartbeat is recorded before a claim is accepted, and that sets the time already: from a load without
  // one, the time is empty until the first heartbeat throughout a run exactly when no claim is ever accepted.
  lemma {:induction false} EmptyUntilBeatenUnlessAccepted(
      file: Option<Doc>, tokenHex: string, w: Write, events: seq<Event>, ttl: nat)
    requires FieldsFit(Stored(file)) && AllStampTime(events)
    ensures var start := Start(file, tokenHex, w);
      EmptyUntilBeaten(start, events, ttl) <==>
      start.server.memory.lastHeartbeat == "" && NeverAccepted(start, events, ttl)
  {
    var start := Start(file, tokenHex, w);
    if events != [] {
      var before, last := events[..|events| - 1], events[|events| - 1];
      EmptyUntilBeatenUnlessAccepted(file, tokenHex, w, before, ttl);
      if start.server.memory.lastHeartbeat == "" && NeverAccepted(start, before, ttl) {
        UnacceptedIsUnbeaten(file, tokenHex, w, before, ttl);
        MemoryStaysUnbeaten(Run(start, before, ttl).server, last, ttl);
      }
      hide Next, Stored, LoadsUnbeaten, Judge, Start;
    }
  }

  // It does happen: one accepted claim, no heartbeat.
  lemma {:induction false} AcceptedClaimSetsTheHeartbeat(s: Server, w: Write)
    requires s.memory == NO_ASSIGNMENT.(provider := Claude, state := ConfigGenerated, token := "t", expiresAt := "2")
    ensures s.memory.lastHeartbeat == ""
    ensures AfterConfirm(s, Claim(Claude, "", "", "t", "", []), "1", "1", w).memory.lastHeartbeat == "1"
  {
  }

  // A recorded heartbeat puts the watchdog off until more than its threshold has passed since.
  lemma {:induction false} HeartbeatPutsOffTheWatchdog(
      s: Server, clientId: string, beat: nat, w: Write, now: int, threshold: int)
    requires s.memory.state == Connected && (s.memory.clientId == "" || clientId == s.memory.clientId)
    requires beat <= Timestamps.MAX_TIME
    ensures var s' := AfterHeartbeat(s, clientId, Timestamps.Iso(beat), w);
      Stale(s'.memory, now, threshold) <==> threshold < now - beat
  {
    PersistKeepsMemory();
    Timestamps.IsoReadsBack(beat);
    assert Timestamps.Iso(beat) != "";
    hide Timestamps.Iso, Timestamps.ReadsAsIso, Timestamps.InstantOf, Timestamps.FieldsIn, Encode, Persist;
  }

  // ---- The error message ----

  // What the record's comments promise of the error message.
  predicate Promised(a: Assignment) {
    a.lastError != "" ==> a.state == Failed
  }

  // A claim refused for another reason than its age leaves a message in a state that is not Failed; so do
  // the watchdog that fires, and a restart from an active record with a legacy token or with such a message.
  predicate BreaksPromise(s: Server, e: Event) {
    match e
    case Confirm(claim, now, _, _) =>
      s.memory.state != Failed && Judge(s.memory, claim, now) !in {NoAssignment, Expired, Accepted}
    case Watchdog(time, threshold, _) => Stale(s.memory, time, threshold)
    case Restart(_, _) => var a := Stored(s.file); Active(a) && (LegacyToken(a) || !Promised(a))
    case _ => false
  }

  // Whatever was there before, the record fits the promise again.
  predicate RenewsPromise(s: Server, e: Event) {
    match e
    case Select(request, _, _, _, _, _) => request.provider != UnknownProvider
    case Regenerate(_, _, _) => Active(s.memory)
    case Revoke(_, _, _) => Active(s.memory)
    case Confirm(claim, now, _, _) => Judge(s.memory, claim, now) == Expired || Judge(s.memory, claim, now) == Accepted
    case Heartbeat(_, _, _) => false
    case Watchdog(_, _, _) => false
    case Restart(_, _) => !BreaksPromise(s, e)
  }

  lemma RefusalsHaveMessages(v: Verdict, mode: Mode)
    requires v != Accepted
    ensures Message(v, mode) != ""
  {
    hide ModeName;
    assert 0 < |Message(v, mode)|;
  }

  lemma RefusedLeavesMessage(a: Assignment, c: Claim, now: string, at: string)
    ensures var v := Judge(a, c, now); var b := Judged(a, c, v, at);
      if v == NoAssignment then b == a
      else if v == Accepted then b.lastError == ""
      else b.lastError != "" && b.state == if v == Expired then Failed else a.state
  {
    hide Judge, Message, ModeName;
    var v := Judge(a, c, now);
    if v != Accepted { RefusalsHaveMessages(v, a.mode); }
  }

  lemma ConfirmKeepsPromise(s: Server, e: Event, ttl: nat)
    requires e.Confirm?
    ensures Promised(Next(s, e, ttl).memory) <==>
      !BreaksPromise(s, e) && (Promised(s.memory) || RenewsPromise(s, e))
  {
    RefusedLeavesMessage(s.memory, e.claim, e.now, e.at);
    hide Judge, Judged, Message, Persist, Encode;
    PersistKeepsMemory();
  }

  lemma RestartKeepsPromise(s: Server, e: Event, ttl: nat)
    requires e.Restart?
    ensures Promised(Next(s, e, ttl).memory) <==> !BreaksPromise(s, e)
  {
    hide Stored, Encode, Persist;
    PersistKeepsMemory();
  }

  // For every state and step, when the record fits the promise afterwards.
  lemma {:induction false} PromiseIsKeptUnlessBroken(s: Server, e: Event, ttl: nat)
    ensures Promised(Next(s, e, ttl).memory) <==>
      !BreaksPromise(s, e) && (Promised(s.memory) || RenewsPromise(s, e))
  {
    if e.Confirm? {
      hide Next, BreaksPromise, RenewsPromise;
      ConfirmKeepsPromise(s, e, ttl);
    } else if e.Restart? {
      hide Next, BreaksPromise;
      RestartKeepsPromise(s, e, ttl);
    } else {
      hide Stored, Encode, Persist, Judge, Stale;
      PersistKeepsMemory();
    }
  }

  predicate AlwaysPromised(start: World, events: seq<Event>, ttl: nat) {
    && Promised(Run(start, events, ttl).server.memory)
    && (events == [] || AlwaysPromised(start, events[..|events| - 1], ttl))
  }

  predicate NeverBroken(start: World, events: seq<Event>, ttl: nat) {
    events == [] || (
      var before, last := events[..|events| - 1], events[|events| - 1];
      NeverBroken(start, before, ttl) && !BreaksPromise(Run(start, before, ttl).server, last))
  }

  // The promise holds throughout a run exactly when no step breaks it.
  lemma {:induction false} PromiseHoldsUnlessBroken(start: World, events: seq<Event>, ttl: nat)
    requires Promised(start.server.memory)
    ensures AlwaysPromised(start, events, ttl) <==> NeverBroken(start, events, ttl)
  {
    if events != [] {
      var before := events[..|events| - 1];
      PromiseHoldsUnlessBroken(start, before, ttl);
      PromiseIsKeptUnlessBroken(Run(start, before, ttl).server, events[|events| - 1], ttl);
    }
  }

  // It does happen: a claim of another provider against a new configuration.
  lemma RefusalLeavesItsMessage(s: Server, at: string, w: Write)
    requires s.memory == NO_ASSIGNMENT.(provider := Claude, state := ConfigGenerated)
    ensures Promised(s.memory)
    ensures var a := AfterConfirm(s, Claim(Grok, "", "", "", "", []), at, at, w).memory;
      a.state == ConfigGenerated && a.lastError == PROVIDER_MESSAGE && !Promised(a)
  {
  }

  // ---- Where tokens come from ----

  lemma MigratedToken(a: Assignment, tokenHex: string)
    ensures var m := Migrated(a, tokenHex);
      m.token == (if Active(a) then TOKEN_PREFIX + tokenHex else a.token) && (Active(m) <==> Active(a))
  {
  }

  lemma RestartTokens(s: Server, tokenHex: string, w: Write)
    ensures var a, s' := Stored(s.file), AfterRestart(s, tokenHex, w);
      && (s'.memory.token == a.token || s'.memory.token == TOKEN_PREFIX + tokenHex)
      && Stored(s'.file).token in {s'.memory.token, a.token, ""}
      && (Active(s'.memory) && s'.memory.token != TOKEN_PREFIX + tokenHex ==>
            Active(a) && !LegacyToken(a) && s'.memory.token == a.token)
  {
    var a := Stored(s.file);
    if NeedsMigration(a) {
      PersistStores(s.(memory := Migrated(a, tokenHex)), w);
      MigratedToken(a, tokenHex);
    }
  }

  lemma SelectTokens(s: Server, e: Event, ttl: nat)
    requires e.Select?
    ensures var s' := Next(s, e, ttl);
      && (s'.memory.token in NewTokens(e) || s' == s)
      && Stored(s'.file).token in {s.memory.token, s'.memory.token, Stored(s.file).token, ""}
  {
    var s0 := s.(memory := Superseded(s.memory, e.request.provider, e.revokedAt));
    PersistStores(s0, e.first);
    var s1 := if Active(s.memory) then Persist(s0, e.first) else s;
    PersistStores(s1.(memory := Issued(e.request, e.ids, e.issuedAt, ttl)), e.second);
    hide Stored, Encode, Timestamps.AddSeconds, CapabilitiesFor, ProviderName;
  }

  lemma OtherTokens(s: Server, e: Event, ttl: nat)
    requires !e.Restart? && !e.Select?
    ensures var s' := Next(s, e, ttl);
      && (s'.memory.token in NewTokens(e) || s'.memory.token == s.memory.token)
      && (Active(s'.memory) ==> Active(s.memory))
      && Stored(s'.file).token in {s'.memory.token, Stored(s.file).token, ""}
  {
    UpdatePersists(s, e, ttl);
    PersistStores(s.(memory := Next(s, e, ttl).memory), e.write);
    hide Next, Stored, Encode, Persist, Attempts, NewTokens;
    UpdateTokens(s, e, ttl);
  }

  lemma UpdateTokens(s: Server, e: Event, ttl: nat)
    requires !e.Restart? && !e.Select?
    ensures var a := Next(s, e, ttl).memory;
      && (a.token in NewTokens(e) || a.token == s.memory.token)
      && (Active(a) ==> Active(s.memory))
  {
    hide Persist, Encode, Judge;
    PersistKeepsMemory();
    if e.Confirm? { JudgeNeedsAnAssignment(s.memory, e.claim, e.now); }
  }

  // ---- Superseded configurations ----

  predicate Known(w: World) {
    && w.server.memory.token in w.issued && Stored(w.server.file).token in w.issued
    && w.retired <= w.issued && "" in w.issued
  }

  // The live token is not one that was superseded.
  predicate Live(w: World) {
    Active(w.server.memory) ==> w.server.memory.token !in w.retired
  }

  // The file would bring back a superseded token.
  predicate HoldsRetired(w: World) {
    var a := Stored(w.server.file);
    Active(a) && !LegacyToken(a) && a.token in w.retired
  }

  lemma {:induction false} StepKeepsKnown(w: World, e: Event, ttl: nat)
    requires Known(w)
    ensures Known(After(w, e, ttl))
  {
    if e.Restart? {
      RestartTokens(w.server, e.tokenHex, e.write);
    } else if e.Select? {
      SelectTokens(w.server, e, ttl);
    } else {
      OtherTokens(w.server, e, ttl);
    }
  }

  lemma {:induction false} StepKeepsLive(w: World, e: Event, ttl: nat)
    requires Known(w) && Live(w) && IsFresh(w, e)
    ensures Live(After(w, e, ttl)) <==> !(e.Restart? && HoldsRetired(w))
  {
    if e.Restart? {
      RestartTokens(w.server, e.tokenHex, e.write);
    } else if e.Select? {
      SelectTokens(w.server, e, ttl);
    } else {
      OtherTokens(w.server, e, ttl);
    }
  }

  lemma {:induction false} EveryRunIsKnown(file: Option<Doc>, tokenHex: string, w: Write, events: seq<Event>, ttl: nat)
    ensures Known(Run(Start(file, tokenHex, w), events, ttl))
  {
    if events == [] {
      RestartTokens(Server(NO_ASSIGNMENT, file), tokenHex, w);
    } else {
      var before := events[..|events| - 1];
      EveryRunIsKnown(file, tokenHex, w, before, ttl);
      StepKeepsKnown(Run(Start(file, tokenHex, w), before, ttl), events[|events| - 1], ttl);
    }
  }

  predicate AlwaysLive(start: World, events: seq<Event>, ttl: nat) {
    Live(Run(start, events, ttl)) && (events == [] || AlwaysLive(start, events[..|events| - 1], ttl))
  }

  predicate NeverRestartsFromRetired(start: World, events: seq<Event>, ttl: nat) {
    events == [] || (
      var before, last := events[..|events| - 1], events[|events| - 1];
      NeverRestartsFromRetired(start, before, ttl) && !(last.Restart? && HoldsRetired(Run(start, before, ttl))))
  }

  // A superseded configuration comes back to life in a run exactly when the service restarts from a
  // file that still holds it, which a lost write of the superseding record leaves behind.
  lemma {:induction false} RetirementLasts(file: Option<Doc>, tokenHex: string, w: Write, events: seq<Event>, ttl: nat)
    requires FreshRun(Start(file, tokenHex, w), events, ttl)
    ensures var start := Start(file, tokenHex, w);
      AlwaysLive(start, events, ttl) <==> NeverRestartsFromRetired(start, events, ttl)
  {
    if events != [] {
      var start, before := Start(file, tokenHex, w), events[..|events| - 1];
      RetirementLasts(file, tokenHex, w, before, ttl);
      if AlwaysLive(start, before, ttl) {
        EveryRunIsKnown(file, tokenHex, w, before, ttl);
        StepKeepsLive(Run(start, before, ttl), events[|events| - 1], ttl);
      }
    }
  }

  lemma RetiredClaimsAreRefused(w: World, c: Claim, now: string)
    requires Live(w) && c.token in w.retired
    ensures Judge(w.server.memory, c, now) != Accepted
  {
  }

  // ---- Which writes were lost ----

  // The step at j took a configuration out of life that the file held.
  predicate Overtaken(start: World, events: seq<Event>, j: nat, ttl: nat)
    requires j < |events|
  {
    var w := Run(start, events[..j], ttl);
    var a, b := w.server.memory, Next(w.server, events[j], ttl).memory;
    && Active(a) && !(Active(b) && b.token == a.token)
    && Active(Stored(w.server.file)) && !LegacyToken(Stored(w.server.file)) && Stored(w.server.file).token == a.token
  }

  // No write took effect from the step at j on.
  predicate QuietSince(start: World, events: seq<Event>, j: nat, ttl: nat) {
    |events| <= j || (
      var before, last := events[..|events| - 1], events[|events| - 1];
      QuietSince(start, before, j, ttl) && !TookEffect(Run(start, before, ttl).server, last))
  }

  lemma {:induction false} LostWritesHoldRetired(start: World, events: seq<Event>, j: nat, ttl: nat)
    requires j < |events| && Overtaken(start, events, j, ttl) && QuietSince(start, events, j, ttl)
    ensures HoldsRetired(Run(start, events, ttl))
    ensures Run(start, events, ttl).server.file == Run(start, events[..j], ttl).server.file
  {
    hide TookEffect, Next, Stored, LegacyToken;
    var before, last := events[..|events| - 1], events[|events| - 1];
    WritesReplaceTheFile(Run(start, before, ttl).server, last, ttl);
    if j < |before| {
      assert before[..j] == events[..j];
      LostWritesHoldRetired(start, before, j, ttl);
    } else {
      assert before == events[..j];
    }
  }

  lemma {:induction false} HeldRetiredWasOvertaken(start: World, events: seq<Event>, ttl: nat) returns (j: nat)
    requires start.retired == {} && AlwaysLive(start, events, ttl) && HoldsRetired(Run(start, events, ttl))
    ensures j < |events| && Overtaken(start, events, j, ttl) && QuietSince(start, events, j, ttl)
  {
    hide TookEffect, Next, Stored, LegacyToken;
    var before, last := events[..|events| - 1], events[|events| - 1];
    var w := Run(start, before, ttl);
    WritesReplaceTheFile(w.server, last, ttl);
    if HoldsRetired(w) {
      j := HeldRetiredWasOvertaken(start, before, ttl);
      assert before[..j] == events[..j];
    } else {
      j := |before|;
      assert before == events[..j];
      assert QuietSince(start, before, j, ttl);
    }
  }

  // A restart brings a superseded configuration back exactly when the file held it at the step that
  // superseded it and no write took effect from that step on.
  lemma {:induction false} RevivalIsLostWrites(
      file: Option<Doc>, tokenHex: string, w: Write, events: seq<Event>, ttl: nat, again: Event)
    requires var start := Start(file, tokenHex, w);
      && AlwaysLive(start, events, ttl)
      && again.Restart? && IsFresh(Run(start, events, ttl), again)
    ensures var start := Start(file, tokenHex, w);
      !Live(After(Run(start, events, ttl), again, ttl)) <==>
      exists j :: 0 <= j < |events| && Overtaken(start, events, j, ttl) && QuietSince(start, events, j, ttl)
  {
    hide Overtaken, QuietSince, HoldsRetired, After, IsFresh;
    var start := Start(file, tokenHex, w);
    EveryRunIsKnown(file, tokenHex, w, events, ttl);
    StepKeepsLive(Run(start, events, ttl), again, ttl);
    forall j | 0 <= j < |events| && Overtaken(start, events, j, ttl) && QuietSince(start, events, j, ttl)
      ensures HoldsRetired(Run(start, events, ttl))
    {
      LostWritesHoldRetired(start, events, j, ttl);
    }
    if HoldsRetired(Run(start, events, ttl)) {
      var j := HeldRetiredWasOvertaken(start, events, ttl);
    }
  }

  // ---- A restart after a regeneration or a select ----

  // A regeneration has one write: if it is lost the restart finds the former server, if it is torn nothing.
  lemma {:induction false} LostWriteRevives(s: Server, ids: Fresh, at: string, ttl: nat, tokenHex: string, w: Write)
    requires Active(s.memory) && !LegacyToken(s.memory) && Stored(s.file) == s.memory
    ensures AfterRestart(AfterRegenerate(s, ids, at, ttl, Kept), tokenHex, w) == s
    ensures AfterRestart(AfterRegenerate(s, ids, at, ttl, Written), tokenHex, w).memory.configId == ids.configId
    ensures !Active(AfterRestart(AfterRegenerate(s, ids, at, ttl, Torn), tokenHex, w).memory)
  {
    PersistStores(s.(memory := Regenerated(s.memory, ids, at, ttl)), Written);
    PersistStores(s.(memory := Regenerated(s.memory, ids, at, ttl)), Torn);
    RestartLoads(AfterRegenerate(s, ids, at, ttl, Written), tokenHex, w);
    hide Stored, Encode, Timestamps.AddSeconds;
  }

  function Loaded(a: Assignment, tokenHex: string): Assignment {
    if NeedsMigration(a) then Migrated(a, tokenHex) else a
  }

  lemma RestartLoads(s: Server, tokenHex: string, w: Write)
    ensures AfterRestart(s, tokenHex, w).memory == Loaded(Stored(s.file), tokenHex)
  {
    hide Stored, Encode, Migrated, NeedsMigration;
  }

  lemma SelectStores(s: Server, e: Event, ttl: nat)
    requires e.Select? && e.request.provider != UnknownProvider
    ensures var s', renewed := Next(s, e, ttl), Issued(e.request, e.ids, e.issuedAt, ttl);
      && s'.memory == renewed
      && Stored(s'.file)
         == match e.second
            case Written => renewed
            case Torn => NO_ASSIGNMENT
            case Kept =>
              if !Active(s.memory) || e.first == Kept then Stored(s.file)
              else if e.first == Torn then NO_ASSIGNMENT
              else Superseded(s.memory, e.request.provider, e.revokedAt)
  {
    var s0 := s.(memory := Superseded(s.memory, e.request.provider, e.revokedAt));
    PersistStores(s0, e.first);
    var s1 := if Active(s.memory) then Persist(s0, e.first) else s;
    PersistStores(s1.(memory := Issued(e.request, e.ids, e.issuedAt, ttl)), e.second);
    hide Stored, Encode, Issued, Superseded;
  }

  // A select has two writes, of the superseded record and of the new one.  Whatever was there before, the
  // last that took effect decides what a restart finds.
  lemma {:induction false} SelectThenRestart(s: Server, e: Event, ttl: nat, tokenHex: string, w: Write)
    requires e.Select? && e.request.provider != UnknownProvider && e.ids.tokenHex != e.ids.configId
    ensures AfterRestart(Next(s, e, ttl), tokenHex, w).memory
         == match e.second
            case Written => Next(s, e, ttl).memory
            case Torn => NO_ASSIGNMENT
            case Kept =>
              if !Active(s.memory) || e.first == Kept then AfterRestart(s, tokenHex, w).memory
              else if e.first == Torn then NO_ASSIGNMENT
              else Superseded(s.memory, e.request.provider, e.revokedAt).(lastError := "")
  {
    SelectStores(s, e, ttl);
    RestartLoads(Next(s, e, ttl), tokenHex, w);
    RestartLoads(s, tokenHex, w);
    FreshIsNotLegacy(e.ids.tokenHex, Issued(e.request, e.ids, e.issuedAt, ttl));
    hide Next, AfterRestart, Stored, LegacyToken, ProviderName, CapabilitiesFor, Timestamps.AddSeconds;
  }

  // Selecting over a live assignment that the file holds, with a new token: the restart finds the new
  // configuration exactly when the second write made it, the old one exactly when both were lost, and no
  // assignment in every other case.
  lemma {:induction false} SelectIsAtomicUnlessHalfWritten(s: Server, e: Event, ttl: nat, tokenHex: string, w: Write)
    requires e.Select? && e.request.provider != UnknownProvider && e.ids.tokenHex != e.ids.configId
    requires Active(s.memory) && !LegacyToken(s.memory) && Stored(s.file) == s.memory
    requires TOKEN_PREFIX + e.ids.tokenHex != s.memory.token
    ensures var found, selected := AfterRestart(Next(s, e, ttl), tokenHex, w).memory, Next(s, e, ttl).memory;
      && (found == selected <==> e.second == Written)
      && (found == s.memory <==> e.first == Kept && e.second == Kept)
      && (Active(found) && found.token == s.memory.token <==> e.first == Kept && e.second == Kept)
      && (!Active(found) <==> e.second == Torn || (e.second == Kept && e.first != Kept))
  {
    SelectThenRestart(s, e, ttl, tokenHex, w);
    var renewed := Issued(e.request, e.ids, e.issuedAt, ttl);
    assert renewed.token == TOKEN_PREFIX + e.ids.tokenHex && Active(renewed);
    assert Next(s, e, ttl).memory == renewed by { PersistKeepsMemory(); }
    assert AfterRestart(s, tokenHex, w).memory == s.memory;
    hide Stored, Encode, Issued, LegacyToken, Next, AfterRestart, ProviderName;
  }

  // It does happen: the first write made it, the second was lost, and neither configuration is left.
  lemma {:induction false} SelectMayLeaveNothing(s: Server, e: Event, ttl: nat, tokenHex: string, w: Write)
    requires s.memory == NO_ASSIGNMENT.(provider := Claude, state := ConfigGenerated, token := "t")
    requires s.file == Some(Encode(s.memory))
    requires e == Select(Request(Grok, Autonomous, true), Fresh("a", "c", "1", "f", "x"), "now", Written, "now", Kept)
    ensures var found := AfterRestart(Next(s, e, ttl), tokenHex, w).memory;
      found.state == Revoked && found.provider == Claude && found.token == "t"
  {
    SelectThenRestart(s, e, ttl, tokenHex, w);
    hide Next, AfterRestart;
  }

  // ---- Durable writes ----

  predicate AllWritten(events: seq<Event>) {
    forall i :: 0 <= i < |events| ==>
      if events[i].Select? then events[i].first == Written && events[i].second == Written
      else events[i].write == Written
  }

  // The file holds the assignment in memory, in a form that no load would change.
  predicate Settled(s: Server) {
    Stored(s.file) == s.memory && !NeedsMigration(s.memory)
  }

  lemma {:induction false} RestartKeepsSettled(s: Server, tokenHex: string, w: Write)
    requires Settled(s)
    ensures AfterRestart(s, tokenHex, w) == s
  {
  }

  // Loading twice migrates once, unless the rotated token takes the legacy form again, which it
  // does exactly when the random digits equal the configuration id.
  lemma {:induction false} LoadIsIdempotent(s: Server, tokenHex: string)
    ensures var a, s' := Stored(s.file), AfterRestart(s, tokenHex, Written);
      Settled(s') <==> !(Active(a) && LegacyToken(a) && tokenHex == a.configId)
  {
    hide Stored, Encode, Decode;
    var a := Stored(s.file);
    PersistStores(s.(memory := Migrated(a, tokenHex)), Written);
    var t := TOKEN_PREFIX + tokenHex;
    assert t == TOKEN_PREFIX + a.configId ==> tokenHex == a.configId by {
      assert t[|TOKEN_PREFIX|..] == tokenHex && (TOKEN_PREFIX + a.configId)[|TOKEN_PREFIX|..] == a.configId;
    }
  }

  lemma FreshIsNotLegacy(tokenHex: string, a: Assignment)
    requires a.token == TOKEN_PREFIX + tokenHex && tokenHex != a.configId
    ensures !LegacyToken(a)
  {
    assert a.token[|TOKEN_PREFIX|..] == tokenHex;
    assert (TOKEN_PREFIX + a.configId)[|TOKEN_PREFIX|..] == a.configId;
  }

  lemma WritingSettles(s: Server)
    requires !NeedsMigration(s.memory)
    ensures Settled(Persist(s, Written))
  {
    PersistStores(s, Written);
  }

  lemma {:induction false} IssuingSettles(s: Server, e: Event, ttl: nat)
    requires Settled(s) && AllWritten([e])
    requires (e.Select? || e.Regenerate?) && e.ids.tokenHex != e.ids.configId
    ensures Settled(Next(s, e, ttl))
  {
    hide Settled;
    assert [e][0] == e;
    if e.Select? {
      var a := Issued(e.request, e.ids, e.issuedAt, ttl);
      FreshIsNotLegacy(e.ids.tokenHex, a);
      var s1 := if Active(s.memory) then
                  Persist(s.(memory := Superseded(s.memory, e.request.provider, e.revokedAt)), Written) else s;
      WritingSettles(s1.(memory := a));
    } else {
      var a := Regenerated(s.memory, e.ids, e.at, ttl);
      FreshIsNotLegacy(e.ids.tokenHex, a);
      WritingSettles(s.(memory := a));
    }
  }

  lemma {:induction false} UpdatingSettles(s: Server, e: Event, ttl: nat)
    requires Settled(s) && AllWritten([e]) && !e.Select? && !e.Regenerate? && !e.Restart?
    ensures Settled(Next(s, e, ttl))
  {
    assert [e][0] == e;
    var s' := Next(s, e, ttl);
    UpdatingKeepsTokens(s, e, ttl);
    hide Settled, Next;
    if s' != s { WritingSettles(s.(memory := s'.memory)); }
  }

  lemma {:induction false} UpdatingKeepsTokens(s: Server, e: Event, ttl: nat)
    requires Settled(s) && AllWritten([e]) && !e.Select? && !e.Regenerate? && !e.Restart?
    ensures var s' := Next(s, e, ttl);
      !NeedsMigration(s'.memory) && (s' == s || s' == Persist(s.(memory := s'.memory), Written))
  {
    hide Stored, Encode, Message;
    assert [e][0] == e;
  }

  lemma {:induction false} StepKeepsSettled(w: World, e: Event, ttl: nat)
    requires Settled(w.server) && IsFresh(w, e) && AllWritten([e])
    ensures Settled(After(w, e, ttl).server)
  {
    hide Settled;
    if e.Restart? {
      RestartKeepsSettled(w.server, e.tokenHex, e.write);
    } else if e.Select? || e.Regenerate? {
      IssuingSettles(w.server, e, ttl);
    } else {
      UpdatingSettles(w.server, e, ttl);
    }
  }

  // While writes succeed, the file always decodes to the assignment in memory, a restart changes
  // nothing, and so no superseded configuration is ever accepted again.
  lemma {:induction false} DurableRunsSurviveRestarts(file: Option<Doc>, tokenHex: string, events: seq<Event>, ttl: nat)
    requires AllWritten(events) && tokenHex != Stored(file).configId
    requires FreshRun(Start(file, tokenHex, Written), events, ttl)
    ensures Settled(Run(Start(file, tokenHex, Written), events, ttl).server)
    ensures AlwaysLive(Start(file, tokenHex, Written), events, ttl)
  {
    var start := Start(file, tokenHex, Written);
    if events == [] {
      LoadIsIdempotent(Server(NO_ASSIGNMENT, file), tokenHex);
    } else {
      var before, last := events[..|events| - 1], events[|events| - 1];
      var w := Run(start, before, ttl);
      DurableRunsSurviveRestarts(file, tokenHex, before, ttl);
      assert AllWritten([last]) by { assert last == events[|events| - 1]; }
      StepKeepsSettled(w, last, ttl);
      EveryRunIsKnown(file, tokenHex, Written, before, ttl);
      StepKeepsLive(w, last, ttl);
    }
  }
}
