/** The supervisor assignment lifecycle: issue, confirm, heartbeat, watchdog, revoke, and
    what a restart brings back from the file. */
module Supervisor {
  import opened Basics
  import opened SupervisorRecords
  import Timestamps

  const TOKEN_PREFIX := "mcos-supervisor-token:"

  // What one attempt to write the file leaves: the record, the file as it was, or a
  // file that no longer parses.
  datatype Write = Written | Kept | Torn

  // File is None when there is none, or it is empty or does not parse.
  datatype Server = Server(memory: Assignment, file: Option<Doc>)

  datatype Claim = Claim(provider: Provider, clientId: string, configId: string, token: string, fingerprint: string,
                         capabilities: seq<string>)

  // Newly drawn identifiers; the token is the prefix and random hex digits.
  datatype Fresh = Fresh(assignmentId: string, configId: string, tokenHex: string, fingerprint: string,
                         correlationId: string)

  datatype Request = Request(provider: Provider, mode: Mode, exclusive: bool)

  const AUTONOMOUS := ["supervisor.get_context", "supervisor.list_pending_decisions", "supervisor.get_decision_packet",
                       "supervisor.submit_decision", "supervisor.issue_remediation", "supervisor.get_worker_report",
                       "supervisor.get_task_evidence", "supervisor.list_active_tasks"]

  const FORBIDDEN := ["admin.disable_governance", "admin.change_global_policy", "admin.erase_audit_logs",
                      "admin.deploy", "admin.release", "admin.rotate_secrets", "admin.modify_certificates",
                      "admin.modify_backups", "worker.run_shell", "worker.edit_file", "worker.delete_file",
                      "worker.push_protected_branch"]

  function CapabilitiesFor(mode: Mode): seq<string> {
    match mode
    case Autonomous => AUTONOMOUS
    case Decision => AUTONOMOUS[..4] + AUTONOMOUS[5..]
    case ReadOnly => AUTONOMOUS[..3] + AUTONOMOUS[5..]
    case Disabled => []
    case BreakGlass => []
  }

  function Persist(s: Server, w: Write): Server {
    match w
    case Written => s.(file := Some(Encode(s.memory)))
    case Kept => s
    case Torn => s.(file := None)
  }

  // ---- Issue ----

  const SUPERSEDED_BY := "Superseded by selection of "

  const DEFAULT_REASON := "Operator-initiated revoke."

  function Superseded(a: Assignment, successor: Provider, at: string): Assignment {
    a.(revokedAt := at, revocationReason := SUPERSEDED_BY + ProviderName(successor) + ".", state := Revoked)
  }

  function Issued(request: Request, ids: Fresh, at: string, ttl: nat): Assignment {
    var mode := if request.mode == Disabled then Autonomous else request.mode;
    NO_ASSIGNMENT.(assignmentId := ids.assignmentId, provider := request.provider, mode := mode,
      exclusive := request.exclusive, state := ConfigGenerated, configId := ids.configId, issuedAt := at,
      expiresAt := Timestamps.AddSeconds(at, ttl), allowed := CapabilitiesFor(mode),
      token := TOKEN_PREFIX + ids.tokenHex, fingerprint := ids.fingerprint, correlationId := ids.correlationId)
  }

  function AfterSelect(s: Server, request: Request, ids: Fresh, revokedAt: string, first: Write, issuedAt: string,
                       ttl: nat, second: Write): Server {
    if request.provider == UnknownProvider then s
    else
      var s1 := if Active(s.memory) then Persist(s.(memory := Superseded(s.memory, request.provider, revokedAt)), first)
                else s;
      Persist(s1.(memory := Issued(request, ids, issuedAt, ttl)), second)
  }

  function Regenerated(a: Assignment, ids: Fresh, at: string, ttl: nat): Assignment {
    a.(configId := ids.configId, issuedAt := at, expiresAt := Timestamps.AddSeconds(at, ttl),
       token := TOKEN_PREFIX + ids.tokenHex, state := ConfigGenerated, connectedAt := "", lastHeartbeat := "",
       lastError := "")
  }

  function AfterRegenerate(s: Server, ids: Fresh, at: string, ttl: nat, w: Write): Server {
    if Active(s.memory) then Persist(s.(memory := Regenerated(s.memory, ids, at, ttl)), w) else s
  }

  function RevokedBy(a: Assignment, reason: string, at: string): Assignment {
    a.(state := Revoked, revokedAt := at, revocationReason := if reason == "" then DEFAULT_REASON else reason,
       connectedAt := "", lastHeartbeat := "", lastError := "")
  }

  function AfterRevoke(s: Server, reason: string, at: string, w: Write): Server {
    if Active(s.memory) then Persist(s.(memory := RevokedBy(s.memory, reason, at)), w) else s
  }

  // ---- Confirm ----

  datatype Verdict =
    | NoAssignment | WrongProvider | WrongConfig | WrongToken | WrongFingerprint | Expired
    | ForbiddenCapability(name: string) | UnlistedCapability(name: string) | Accepted

  // The first capability that stops the claim.
  function Refusal(capabilities: seq<string>, mode: Mode): (v: Verdict)
    ensures v.Accepted? || v.ForbiddenCapability? || v.UnlistedCapability?
    ensures v.Accepted? <==> forall c :: c in capabilities ==> c in CapabilitiesFor(mode) && c !in FORBIDDEN
  {
    if capabilities == [] then Accepted
    else if capabilities[0] in FORBIDDEN then ForbiddenCapability(capabilities[0])
    else if capabilities[0] !in CapabilitiesFor(mode) then UnlistedCapability(capabilities[0])
    else Refusal(capabilities[1..], mode)
  }

  function Judge(a: Assignment, c: Claim, now: string): Verdict {
    if !Active(a) then NoAssignment
    else if c.provider != a.provider then WrongProvider
    else if c.configId != a.configId then WrongConfig
    else if c.token == "" || c.token != a.token then WrongToken
    else if c.fingerprint != "" && c.fingerprint != a.fingerprint then WrongFingerprint
    else if Timestamps.Expired(a.expiresAt, now) then Expired
    else Refusal(c.capabilities, a.mode)
  }

  const NO_ASSIGNMENT_MESSAGE := "No active supervisor assignment."
  const PROVIDER_MESSAGE := "Provider mismatch with active assignment."
  const CONFIG_MESSAGE := "Config id does not match the active assignment."
  const TOKEN_MESSAGE := "Supervisor assignment token is missing or does not match the active assignment."
  const FINGERPRINT_MESSAGE := "Server fingerprint does not match the active assignment."
  const EXPIRED_MESSAGE := "Supervisor configuration has expired; generate a new one."
  const FORBIDDEN_MESSAGE := "Forbidden capability requested: "
  const UNLISTED_MESSAGE := "Capability not allowed in current mode ("

  function Message(v: Verdict, mode: Mode): string {
    match v
    case NoAssignment => NO_ASSIGNMENT_MESSAGE
    case WrongProvider => PROVIDER_MESSAGE
    case WrongConfig => CONFIG_MESSAGE
    case WrongToken => TOKEN_MESSAGE
    case WrongFingerprint => FINGERPRINT_MESSAGE
    case Expired => EXPIRED_MESSAGE
    case ForbiddenCapability(name) => FORBIDDEN_MESSAGE + name
    case UnlistedCapability(name) => UNLISTED_MESSAGE + ModeName(mode) + "): " + name
    case Accepted => ""
  }

  function Judged(a: Assignment, c: Claim, v: Verdict, at: string): Assignment {
    match v
    case NoAssignment => a
    case Accepted =>
      a.(state := Connected, clientId := c.clientId, connectedAt := at, lastHeartbeat := at, lastError := "")
    case Expired => a.(state := Failed, lastError := Message(v, a.mode))
    case WrongProvider => a.(lastError := Message(v, a.mode))
    case WrongConfig => a.(lastError := Message(v, a.mode))
    case WrongToken => a.(lastError := Message(v, a.mode))
    case WrongFingerprint => a.(lastError := Message(v, a.mode))
    case ForbiddenCapability(_) => a.(lastError := Message(v, a.mode))
    case UnlistedCapability(_) => a.(lastError := Message(v, a.mode))
  }

  function AfterConfirm(s: Server, c: Claim, now: string, at: string, w: Write): Server {
    var v := Judge(s.memory, c, now);
    if v == NoAssignment then s else Persist(s.(memory := Judged(s.memory, c, v, at)), w)
  }

  // ---- Liveness ----

  function AfterHeartbeat(s: Server, clientId: string, at: string, w: Write): Server {
    var a := s.memory;
    if a.state == Connected && (a.clientId == "" || clientId == a.clientId) then
      Persist(s.(memory := a.(lastHeartbeat := at)), w)
    else s
  }

  const WATCHDOG_MESSAGE :=
    "Supervisor heartbeat watchdog: no heartbeat received within threshold; marked disconnected."

  predicate Stale(a: Assignment, now: int, threshold: int) {
    && a.state == Connected && a.lastHeartbeat != "" && Timestamps.ReadsAsIso(a.lastHeartbeat)
    && threshold < now - Timestamps.InstantOf(Timestamps.FieldsIn(a.lastHeartbeat))
  }

  function AfterWatchdog(s: Server, now: int, threshold: int, w: Write): Server {
    if Stale(s.memory, now, threshold) then
      Persist(s.(memory := s.memory.(state := Disconnected, lastError := WATCHDOG_MESSAGE)), w)
    else s
  }

  // ---- Load ----

  predicate LegacyToken(a: Assignment) {
    a.configId != "" && a.token == TOKEN_PREFIX + a.configId
  }

  predicate NeedsMigration(a: Assignment) {
    if Active(a) then LegacyToken(a) else a.lastError != ""
  }

  const ROTATION_MESSAGE := "Supervisor assignment token was rotated; regenerate config."

  function Migrated(a: Assignment, tokenHex: string): Assignment {
    if Active(a) then
      a.(token := TOKEN_PREFIX + tokenHex, state := ConfigGenerated, clientId := "", connectedAt := "",
         lastHeartbeat := "", lastError := ROTATION_MESSAGE)
    else a.(lastError := "")
  }

  function Stored(file: Option<Doc>): Assignment {
    if file.Some? && Decode(file.value).Some? then Decode(file.value).value else NO_ASSIGNMENT
  }

  function AfterRestart(s: Server, tokenHex: string, w: Write): Server {
    var a := Stored(s.file);
    if NeedsMigration(a) then Persist(s.(memory := Migrated(a, tokenHex)), w) else s.(memory := a)
  }

  // ---- The class ----

  class Service {
    var memory: Assignment
    var file: Option<Doc>
    const ttl: nat

    function Model(): Server
      reads this
    {
      Server(memory, file)
    }

    constructor (ttl: nat, file: Option<Doc>, tokenHex: string, w: Write)
      ensures this.ttl == ttl
      ensures Model() == AfterRestart(Server(NO_ASSIGNMENT, file), tokenHex, w)
    {
      this.ttl, this.memory, this.file := ttl, NO_ASSIGNMENT, file;
      new;
      Load(tokenHex, w);
    }

    method Save(w: Write)
      modifies this`file
      ensures Model() == Persist(old(Model()), w)
    {
      match w
      case Written => file := Some(Encode(memory));
      case Kept =>
      case Torn => file := None;
    }

    method Load(tokenHex: string, w: Write)
      requires memory == NO_ASSIGNMENT
      modifies this`memory, this`file
      ensures Model() == AfterRestart(old(Model()), tokenHex, w)
    {
      if file == None { return; }
      var read := Decode(file.value);
      if read == None { return; }
      var loaded := read.value;
      var migrate := false;
      if !Active(loaded) && loaded.lastError != "" {
        loaded := loaded.(lastError := "");
        migrate := true;
      }
      if Active(loaded) && LegacyToken(loaded) {
        loaded := loaded.(token := TOKEN_PREFIX + tokenHex, state := ConfigGenerated, clientId := "", connectedAt := "",
                          lastHeartbeat := "",
                          lastError := ROTATION_MESSAGE);
        migrate := true;
      }
      memory := loaded;
      if migrate { Save(w); }
    }

    method SelectAndIssue(request: Request, ids: Fresh, revokedAt: string, first: Write, issuedAt: string,
                          second: Write)
      returns (ok: bool)
      modifies this
      ensures ok <==> request.provider != UnknownProvider
      ensures Model() == AfterSelect(old(Model()), request, ids, revokedAt, first, issuedAt, ttl, second)
    {
      if request.provider == UnknownProvider { return false; }
      if Active(memory) {
        memory := Superseded(memory, request.provider, revokedAt);
        Save(first);
      }
      memory := Issued(request, ids, issuedAt, ttl);
      Save(second);
      ok := true;
    }

    method RegenerateConfig(ids: Fresh, at: string, w: Write) returns (ok: bool)
      modifies this
      ensures ok <==> Active(old(memory))
      ensures Model() == AfterRegenerate(old(Model()), ids, at, ttl, w)
    {
      ok := Active(memory);
      if ok {
        memory := Regenerated(memory, ids, at, ttl);
        Save(w);
      }
    }

    method Revoke(reason: string, at: string, w: Write)
      modifies this
      ensures Model() == AfterRevoke(old(Model()), reason, at, w)
    {
      if !Active(memory) { return; }
      memory := RevokedBy(memory, reason, at);
      Save(w);
    }

    method CheckCapabilities(capabilities: seq<string>, mode: Mode) returns (v: Verdict)
      ensures v == Refusal(capabilities, mode)
    {
      var forbidden, allowed := FORBIDDEN, CapabilitiesFor(mode);
      for i := 0 to |capabilities|
        invariant Refusal(capabilities, mode) == Refusal(capabilities[i..], mode)
      {
        assert capabilities[i..][1..] == capabilities[i + 1..];
        if capabilities[i] in forbidden { return ForbiddenCapability(capabilities[i]); }
        if capabilities[i] !in allowed { return UnlistedCapability(capabilities[i]); }
      }
      v := Accepted;
    }

    method ConfirmConnection(c: Claim, now: string, at: string, w: Write) returns (v: Verdict)
      modifies this
      ensures v == Judge(old(memory), c, now)
      ensures Model() == AfterConfirm(old(Model()), c, now, at, w)
    {
      if memory.state == Off || memory.state == Revoked { return NoAssignment; }
      if c.provider != memory.provider { v := WrongProvider; }
      else if c.configId != memory.configId { v := WrongConfig; }
      else if c.token == "" || c.token != memory.token { v := WrongToken; }
      else if c.fingerprint != "" && c.fingerprint != memory.fingerprint { v := WrongFingerprint; }
      else if Timestamps.Expired(memory.expiresAt, now) { v := Expired; }
      else { v := CheckCapabilities(c.capabilities, memory.mode); }
      memory := Judged(memory, c, v, at);
      Save(w);
    }

    method RecordHeartbeat(clientId: string, at: string, w: Write)
      modifies this
      ensures Model() == AfterHeartbeat(old(Model()), clientId, at, w)
    {
      if memory.state != Connected { return; }
      if memory.clientId != "" && clientId != memory.clientId { return; }
      memory := memory.(lastHeartbeat := at);
      Save(w);
    }

    method ExpireConnectionIfStale(now: int, threshold: int, w: Write) returns (expired: bool)
      modifies this
      ensures expired <==> Stale(old(memory), now, threshold)
      ensures Model() == AfterWatchdog(old(Model()), now, threshold, w)
    {
      if memory.state != Connected || memory.lastHeartbeat == "" || !Timestamps.ReadsAsIso(memory.lastHeartbeat) {
        return false;
      }
      var last := Timestamps.InstantOf(Timestamps.FieldsIn(memory.lastHeartbeat));
      if now - last <= threshold { return false; }
      memory := memory.(state := Disconnected, lastError := WATCHDOG_MESSAGE);
      Save(w);
      expired := true;
    }
  }
}
