/** The supervisor assignment record, its names on disk, and how a stored record is read,
    migrated and written back. */
module SupervisorRecords {
  import opened Basics
  import opened Text

  datatype Provider = ChatGpt | Claude | Grok | UnknownProvider

  datatype Mode = Disabled | ReadOnly | Decision | Autonomous | BreakGlass

  datatype State = Off | ConfigGenerated | PendingConnection | Connected | Disconnected | Revoked | Failed

  datatype Assignment = Assignment(
    assignmentId: string, provider: Provider, clientId: string, mode: Mode, exclusive: bool, state: State,
    configId: string, issuedAt: string, expiresAt: string, connectedAt: string, lastHeartbeat: string,
    revokedAt: string, revocationReason: string, allowed: seq<string>, correlationId: string,
    lastError: string, token: string, fingerprint: string)

  const NO_ASSIGNMENT :=
    Assignment("", UnknownProvider, "", Autonomous, true, Off, "", "", "", "", "", "", "", [], "", "", "", "")

  predicate Active(a: Assignment) {
    a.state != Off && a.state != Revoked
  }

  // ---- Names ----

  function ProviderName(p: Provider): string {
    match p
    case ChatGpt => "chatgpt"
    case Claude => "claude"
    case Grok => "grok"
    case UnknownProvider => ""
  }

  function ProviderOf(name: string): Provider {
    var n := Lower(name);
    if n == "chatgpt" then ChatGpt else if n == "claude" then Claude else if n == "grok" then Grok else UnknownProvider
  }

  function ModeName(m: Mode): string {
    match m
    case Disabled => "disabled"
    case ReadOnly => "read_only_supervisor"
    case Decision => "decision_supervisor"
    case Autonomous => "autonomous_supervisor"
    case BreakGlass => "break_glass_admin"
  }

  function ModeOf(name: string): Mode {
    var n := Lower(name);
    if n == "disabled" then Disabled
    else if n == "read_only_supervisor" then ReadOnly
    else if n == "decision_supervisor" then Decision
    else if n == "break_glass_admin" then BreakGlass
    else Autonomous
  }

  function StateName(s: State): string {
    match s
    case Off => "off"
    case ConfigGenerated => "config_generated"
    case PendingConnection => "pending_connection"
    case Connected => "connected"
    case Disconnected => "disconnected"
    case Revoked => "revoked"
    case Failed => "error"
  }

  function StateOf(name: string): State {
    var n := Lower(name);
    if n == "config_generated" then ConfigGenerated
    else if n == "pending_connection" then PendingConnection
    else if n == "connected" then Connected
    else if n == "disconnected" then Disconnected
    else if n == "revoked" then Revoked
    else if n == "error" then Failed
    else Off
  }

  lemma LowerKeeps(s: string)
    requires forall i :: 0 <= i < |s| ==> !('A' <= s[i] <= 'Z')
    ensures Lower(s) == s
  {
  }

  lemma ProviderNamesRoundTrip(p: Provider)
    ensures ProviderOf(ProviderName(p)) == p
  {
    LowerKeeps(ProviderName(p));
  }

  lemma ModeNamesAreLower(m: Mode)
    ensures Lower(ModeName(m)) == ModeName(m)
  {
    hide Lower;
    LowerKeeps(ModeName(m));
  }

  lemma ModeNamesRoundTrip(m: Mode)
    ensures ModeOf(ModeName(m)) == m
  {
    ModeNamesAreLower(m);
    hide Lower;
  }

  lemma StateNamesRoundTrip(s: State)
    ensures StateOf(StateName(s)) == s
  {
    LowerKeeps(StateName(s));
    hide Lower;
  }

  // ---- Documents ----

  datatype Value = Text(s: string) | Flag(b: bool) | List(items: seq<Value>) | Other

  type Doc = map<string, Value>

  function Texts(items: seq<string>): (r: seq<Value>)
    ensures |r| == |items| && forall i :: 0 <= i < |items| ==> r[i] == Text(items[i])
  {
    if items == [] then [] else [Text(items[0])] + Texts(items[1..])
  }

  // The texts among the items; everything else is skipped.
  function TextsIn(items: seq<Value>): seq<string> {
    if items == [] then []
    else (if items[0].Text? then [items[0].s] else []) + TextsIn(items[1..])
  }

  lemma {:induction false} TextsInUndoesTexts(items: seq<string>)
    ensures TextsIn(Texts(items)) == items
  {
    if items != [] {
      TextsInUndoesTexts(items[1..]);
      assert Texts(items)[1..] == Texts(items[1..]);
    }
  }

  function Encode(a: Assignment): Doc {
    map["assignmentId" := Text(a.assignmentId), "providerId" := Text(ProviderName(a.provider)),
        "clientId" := Text(a.clientId), "mode" := Text(ModeName(a.mode)), "exclusive" := Flag(a.exclusive),
        "state" := Text(StateName(a.state)), "configId" := Text(a.configId), "issuedAtUtc" := Text(a.issuedAt),
        "expiresAtUtc" := Text(a.expiresAt), "connectedAtUtc" := Text(a.connectedAt),
        "lastHeartbeatUtc" := Text(a.lastHeartbeat), "revokedAtUtc" := Text(a.revokedAt),
        "revocationReason" := Text(a.revocationReason), "allowedCapabilities" := List(Texts(a.allowed)),
        "auditCorrelationId" := Text(a.correlationId), "lastErrorMessage" := Text(a.lastError),
        "tokenRef" := Text(a.token), "serverFingerprint" := Text(a.fingerprint)]
  }

  const TEXT_KEYS := ["assignmentId", "providerId", "clientId", "mode", "state", "configId", "issuedAtUtc",
                      "expiresAtUtc", "connectedAtUtc", "lastHeartbeatUtc", "revokedAtUtc", "revocationReason",
                      "auditCorrelationId", "lastErrorMessage", "tokenRef", "serverFingerprint"]

  // value(key, fallback) throws when the member is there with another type.
  predicate WellTyped(doc: Doc) {
    && (forall i :: 0 <= i < |TEXT_KEYS| && TEXT_KEYS[i] in doc ==> doc[TEXT_KEYS[i]].Text?)
    && ("exclusive" in doc ==> doc["exclusive"].Flag?)
  }

  function TextAt(doc: Doc, key: string, fallback: string): string {
    if key in doc && doc[key].Text? then doc[key].s else fallback
  }

  function FromDoc(doc: Doc): Assignment {
    Assignment(
      TextAt(doc, "assignmentId", ""), ProviderOf(TextAt(doc, "providerId", "")), TextAt(doc, "clientId", ""),
      ModeOf(TextAt(doc, "mode", "autonomous_supervisor")),
      if "exclusive" in doc && doc["exclusive"].Flag? then doc["exclusive"].b else true,
      StateOf(TextAt(doc, "state", "off")), TextAt(doc, "configId", ""), TextAt(doc, "issuedAtUtc", ""),
      TextAt(doc, "expiresAtUtc", ""), TextAt(doc, "connectedAtUtc", ""), TextAt(doc, "lastHeartbeatUtc", ""),
      TextAt(doc, "revokedAtUtc", ""), TextAt(doc, "revocationReason", ""),
      if "allowedCapabilities" in doc && doc["allowedCapabilities"].List? then TextsIn(doc["allowedCapabilities"].items)
      else [],
      TextAt(doc, "auditCorrelationId", ""), TextAt(doc, "lastErrorMessage", ""), TextAt(doc, "tokenRef", ""),
      TextAt(doc, "serverFingerprint", ""))
  }

  function Decode(doc: Doc): Option<Assignment> {
    if WellTyped(doc) then Some(FromDoc(doc)) else None
  }

  // A file without any of the members reads as no assignment.
  lemma EmptyDocumentIsNoAssignment()
    ensures Decode(map[]) == Some(NO_ASSIGNMENT)
  {
    LowerKeeps("");
    ModeNamesAreLower(Autonomous);
    LowerKeeps("off");
    assert WellTyped(map[]);
    hide Lower;
  }

  // A document is unreadable exactly if one of its members has another type than the record's.
  lemma UnreadableIffIllTyped(doc: Doc)
    ensures Decode(doc) == None <==>
      || (exists i :: 0 <= i < |TEXT_KEYS| && TEXT_KEYS[i] in doc && !doc[TEXT_KEYS[i]].Text?)
      || ("exclusive" in doc && !doc["exclusive"].Flag?)
  {
    hide TEXT_KEYS, FromDoc;
  }

  // Names are read without regard to case, and unknown ones as no provider, the autonomous mode and Off.
  lemma UnknownNames(name: string)
    ensures ProviderOf(name) == UnknownProvider <==> Lower(name) !in {"chatgpt", "claude", "grok"}
    ensures ModeOf(name) == Autonomous <==>
      Lower(name) !in {"disabled", "read_only_supervisor", "decision_supervisor", "break_glass_admin"}
    ensures StateOf(name) == Off <==>
      Lower(name) !in {"config_generated", "pending_connection", "connected", "disconnected", "revoked", "error"}
  {
    hide Lower;
  }

  lemma EncodedTexts(a: Assignment)
    ensures WellTyped(Encode(a))
  {
    var doc := Encode(a);
    forall i | 0 <= i < |TEXT_KEYS| && TEXT_KEYS[i] in doc ensures doc[TEXT_KEYS[i]].Text? {
    }
  }

  lemma EncodedIdentity(a: Assignment)
    ensures var doc := Encode(a);
      && TextAt(doc, "assignmentId", "") == a.assignmentId && TextAt(doc, "providerId", "") == ProviderName(a.provider)
      && TextAt(doc, "clientId", "") == a.clientId && TextAt(doc, "configId", "") == a.configId
  {
  }

  lemma EncodedMode(a: Assignment)
    ensures var doc := Encode(a);
      && TextAt(doc, "mode", "autonomous_supervisor") == ModeName(a.mode)
      && TextAt(doc, "state", "off") == StateName(a.state)
      && "exclusive" in doc && doc["exclusive"] == Flag(a.exclusive)
  {
    hide ModeName, StateName;
  }

  lemma EncodedTimes(a: Assignment)
    ensures var doc := Encode(a);
      && TextAt(doc, "issuedAtUtc", "") == a.issuedAt && TextAt(doc, "expiresAtUtc", "") == a.expiresAt
      && TextAt(doc, "connectedAtUtc", "") == a.connectedAt && TextAt(doc, "lastHeartbeatUtc", "") == a.lastHeartbeat
      && TextAt(doc, "revokedAtUtc", "") == a.revokedAt
  {
  }

  lemma EncodedRest(a: Assignment)
    ensures var doc := Encode(a);
      && TextAt(doc, "revocationReason", "") == a.revocationReason
      && TextAt(doc, "auditCorrelationId", "") == a.correlationId
      && TextAt(doc, "lastErrorMessage", "") == a.lastError && TextAt(doc, "tokenRef", "") == a.token
      && TextAt(doc, "serverFingerprint", "") == a.fingerprint
      && "allowedCapabilities" in doc && doc["allowedCapabilities"] == List(Texts(a.allowed))
  {
  }

  lemma {:induction false} FromDocUndoesEncode(a: Assignment, doc: Doc)
    requires doc == Encode(a)
    ensures FromDoc(doc) == a
  {
    EncodedIdentity(a);
    EncodedMode(a);
    EncodedTimes(a);
    EncodedRest(a);
    ProviderNamesRoundTrip(a.provider);
    ModeNamesRoundTrip(a.mode);
    StateNamesRoundTrip(a.state);
    TextsInUndoesTexts(a.allowed);
  }

  // All eighteen fields survive the file.
  lemma {:induction false} DecodeUndoesEncode(a: Assignment)
    ensures Decode(Encode(a)) == Some(a)
  {
    EncodedTexts(a);
    FromDocUndoesEncode(a, Encode(a));
  }
}
