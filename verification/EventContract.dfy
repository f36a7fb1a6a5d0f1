/** The rules a format 2 event must meet before it is written. A nil id is 0 and a zero time is 0. */
module EventContract {
  import opened Common

  const FORMAT_COMPLETE := 2
  const SYSTEM_ORG := 0x5ee

  const COMPLETED := "completed"
  const REFUSED := "refused"
  const FAILED := "failed"
  const PARTIALLY_COMPLETED := "partially_completed"
  const INCOMPLETE := "incomplete"
  const PENDING := "pending"
  const OTHER_OUTCOMES := {"ok", "error", "unrecorded"}

  datatype Target = Target(kind: string, nodeType: string, reference: string, uri: string, name: string,
      relationType: string,
                           id: nat, sourceId: nat, targetId: nat, ownerId: nat)

  datatype EventError = EventError(code: string, message: string)

  /** References are the protected values that the records name; nil for one that does not parse. */
  datatype Delta = Delta(hasValue: bool, references: seq<nat>)

  datatype ProtectedValue = ProtectedValue(ref: nat, subject: nat, validJson: bool)

  datatype ReadEvidence = ReadEvidence(count: nat, payloadSha: string, payloadFormat: string, manifestSha: string,
      manifestParts: nat)

  datatype Context = Context(format: nat, org: nat, operation: nat, startedAt: int, completedAt: int,
      target: Option<Target>,
                             opClass: string, phase: string, read: Option<ReadEvidence>, committedSteps: seq<string>)

  datatype Event = Event(id: nat, verb: string, occurredAt: int, outcome: string, actorType: string, actorId: nat,
                         entityType: string, entityId: nat, error: Option<EventError>, delta: Option<Delta>,
                         protected: seq<ProtectedValue>, context: Context)

  predicate Terminal(outcome: string) {
    outcome in {COMPLETED, REFUSED, FAILED, PARTIALLY_COMPLETED, INCOMPLETE}
  }

  predicate ActorOk(e: Event) {
    if e.actorType == "unauthenticated" then e.actorId == 0 && e.context.org == SYSTEM_ORG
    else e.actorType in {"user", "service", "system", "api_token", "operator"} && e.actorId != 0
  }

  predicate TargetOk(t: Target) {
    && match t.kind {
       case "node" => t.id != 0 && t.nodeType != ""
       case "relationship" => t.sourceId != 0 && t.targetId != 0 && t.relationType != ""
       case "resource" => t.uri != ""
       case "external" => t.reference != ""
       case _ => false
       }
    && (t.ownerId != 0 ==> t.kind == "resource")
  }

  predicate PhaseOk(opClass: string, phase: string, outcome: string) {
    && (match opClass {
        case "read" => phase == "read"
        case "database_change" => phase == "change" || phase == "result"
        case "external" => phase == "intent" || phase == "result"
        case _ => false
        })
    && (if phase == "intent" then outcome == PENDING
        else Terminal(outcome) && (phase == "change" ==> outcome == COMPLETED))
  }

  predicate StepsOk(outcome: string, steps: seq<string>) {
    if outcome == PARTIALLY_COMPLETED then steps != []
    else if outcome == COMPLETED || outcome == REFUSED || outcome == FAILED then steps == []
    else outcome == INCOMPLETE || outcome == PENDING || outcome in OTHER_OUTCOMES
  }

  predicate OutcomeFieldsOk(e: Event) {
    var terminal := Terminal(e.outcome);
    var unsuccessful := terminal && e.outcome != COMPLETED;
    && terminal == (e.context.completedAt != 0)
    && (terminal ==> e.context.completedAt >= e.context.startedAt)
    && unsuccessful == e.error.Some?
    && (unsuccessful ==> e.error.value.code != "")
    && StepsOk(e.outcome, e.context.committedSteps)
  }

  predicate Sha256Hex(s: string) {
    |s| == 64 && forall i :: 0 <= i < |s| ==> '0' <= s[i] <= '9' || 'a' <= s[i] <= 'f'
  }

  predicate ReadEvidenceOk(r: ReadEvidence) {
    && Sha256Hex(r.payloadSha) && r.payloadFormat != ""
    && (r.count > 0 || r.manifestParts > 0 || r.manifestSha != "" ==> Sha256Hex(r.manifestSha))
  }

  predicate ClassEvidenceOk(e: Event) {
    if e.context.opClass != "read" then
      e.context.read.None? && (e.context.phase == "change" ==> e.delta.Some? && e.delta.value.hasValue)
    else
      && e.delta.None?
      && (if e.context.read.None? then e.outcome != COMPLETED && e.outcome != PARTIALLY_COMPLETED
          else ReadEvidenceOk(e.context.read.value))
  }

  predicate CompleteOk(e: Event) {
    && e.id != 0 && e.verb != "" && e.occurredAt != 0
    && e.context.org != 0 && e.context.operation != 0 && e.context.startedAt != 0
    && e.context.target.Some? && e.outcome != ""
    && ActorOk(e) && TargetOk(e.context.target.value)
    && e.entityType == e.context.target.value.kind && e.entityId == e.context.target.value.id
    && PhaseOk(e.context.opClass, e.context.phase, e.outcome)
    && OutcomeFieldsOk(e) && ClassEvidenceOk(e)
  }

  function Subject(t: Target): nat {
    if t.ownerId != 0 then t.ownerId else t.id
  }

  /** One valid value of the right subject for each reference, and no reference nil or repeated. */
  predicate ProtectedOk(delta: Option<Delta>, values: seq<ProtectedValue>, target: Option<Target>) {
    var references := if delta.Some? then delta.value.references else [];
    && (forall i :: 0 <= i < |references| ==> references[i] != 0)
    && (forall i, j :: 0 <= i < j < |references| ==> references[i] != references[j])
    && ((references == [] && values == []) ||
        (&& target.Some? && |references| == |values|
         && (forall i :: 0 <= i < |values| ==>
               values[i].subject == Subject(target.value) && values[i].ref in references && values[i].validJson)
         && (forall i, j :: 0 <= i < j < |values| ==> values[i].ref != values[j].ref)))
  }

  /** ValidateEvent, for format 2. */
  predicate ValidComplete(e: Event) {
    e.context.format == FORMAT_COMPLETE && CompleteOk(e) && ProtectedOk(e.delta, e.protected, e.context.target)
  }
}
