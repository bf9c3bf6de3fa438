/** Evidence, candidates and decisions as the services exchange them.
    Instants are whole milliseconds, identifiers are numbers (only their order and their
    distinctness matter), and a confidence is a whole number of ten-thousandths. */
module Domain {
  import opened Ordering

  type Id = int
  type Instant = int
  type ZoneId = int

  datatype Option<+T> = None | Some(value: T)

  datatype Source = Sensor | Reporter

  datatype Reading = GridUp | GridDown | Unknown

  /** The string fields of the raw payload that can name a witness; None when absent or not a string. */
  datatype Payload = Payload(deviceId: Option<string>, reporterWallet: Option<string>, providerWallet: Option<string>)

  datatype Evidence = Evidence(
    id: Id,
    providerId: Id,
    zoneId: ZoneId,
    idempotencyKey: string,
    source: Source,
    status: Reading,
    voltage: Option<real>,
    confidenceHint: Option<real>,
    payload: Payload,
    observedAt: Instant)

  datatype CandidateStatus = Outage | Restored

  datatype Candidate = Candidate(
    id: Id,
    zoneId: ZoneId,
    status: CandidateStatus,
    confidence: int,
    windowStart: Instant,
    windowEnd: Instant,
    evidenceIds: seq<Id>)

  datatype Verdict = Approve | Escalate | Reject

  function EvidenceStamp(e: Evidence): Stamp {
    Stamp(e.observedAt, e.id)
  }

  /** Every reading carries its own identifier. */
  ghost predicate DistinctIds(evidence: seq<Evidence>) {
    forall i, j :: 0 <= i < j < |evidence| ==> evidence[i].id != evidence[j].id
  }

  // ---- The witness behind a reading (identity.ts) ----

  datatype Identity = Device(name: string) | Wallet(address: string) | Provider(id: Id)

  predicate IsSpace(c: char) {
    c == ' ' || 9 <= c as int <= 13
  }

  function TrimLeft(s: string): string {
    if s != "" && IsSpace(s[0]) then TrimLeft(s[1..]) else s
  }

  function TrimRight(s: string): string {
    if s != "" && IsSpace(s[|s| - 1]) then TrimRight(s[..|s| - 1]) else s
  }

  function LowerChar(c: char): char {
    if 'A' <= c <= 'Z' then ((c as int) + 32) as char else c
  }

  function Lower(s: string): string {
    seq(|s|, i requires 0 <= i < |s| => LowerChar(s[i]))
  }

  function TrimmedString(field: Option<string>): string {
    match field
    case None => ""
    case Some(s) => TrimRight(TrimLeft(s))
  }

  /** Rows from one device or wallet share an identity; the provider id is the last resort. */
  function EvidenceSourceIdentity(e: Evidence): Identity {
    var deviceId := TrimmedString(e.payload.deviceId);
    if deviceId != "" then Device(Lower(deviceId)) else
    var reporterWallet := TrimmedString(e.payload.reporterWallet);
    if reporterWallet != "" then Wallet(Lower(reporterWallet)) else
    var providerWallet := TrimmedString(e.payload.providerWallet);
    if providerWallet != "" then Wallet(Lower(providerWallet)) else
    Provider(e.providerId)
  }

  // ---- Rounding (rules.ts, heartbeat.ts) ----

  function MinReal(a: real, b: real): real {
    if a <= b then a else b
  }

  function MaxReal(a: real, b: real): real {
    if a >= b then a else b
  }

  function MaxInt(a: int, b: int): int {
    if a >= b then a else b
  }

  function MinInt(a: int, b: int): int {
    if a <= b then a else b
  }

  /** Half-up rounding to the nearest whole number. */
  function RoundHalfUp(x: real): int {
    (x + 0.5).Floor
  }

  /** A confidence in [0, 1] rounded to ten-thousandths. */
  function RoundConfidence(value: real): int {
    RoundHalfUp(value * 10000.0)
  }

  lemma RoundConfidenceMonotone(a: real, b: real)
    requires a <= b
    ensures RoundConfidence(a) <= RoundConfidence(b)
  {
  }

  // ---- The deterministic policy gate (pipeline/service.ts) ----

  const AUTO_APPROVE := 8500
  const ESCALATE := 5000

  function DecisionForConfidence(confidence: int): Verdict {
    if confidence >= AUTO_APPROVE then Approve
    else if confidence >= ESCALATE then Escalate
    else Reject
  }
}
