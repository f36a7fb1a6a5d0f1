/** The result of one external operation: its outcome, the steps it recorded, and the event that says so. */
module External {
  import opened Common
  import opened EventContract

  datatype OutcomeDetails = OutcomeDetails(outcome: string, failureCode: string, failureMessage: string,
      committedSteps: seq<string>)

  /** Step labels that committed, and that began without a saved result, in the order the steps began. */
  datatype StepSummary = StepSummary(committed: seq<string>, unfinished: seq<string>)

  predicate Commits(outcome: string) {
    outcome == COMPLETED || outcome == PARTIALLY_COMPLETED
  }

  // ---- Steps ----

  datatype Step = Step(key: string, name: string)

  /** What happened to the recorder, in order. Only what reached the outbox is here. */
  datatype History = Began(step: Step) | Finished(key: string, outcome: string)

  predicate Begun(h: seq<History>, key: string) {
    exists i :: 0 <= i < |h| && h[i].Began? && h[i].step.key == key
  }

  /** The last saved result of a step. */
  function LastResult(h: seq<History>, key: string): Option<string> {
    if h == [] then None
    else
      var last := h[|h| - 1];
      if last.Finished? && last.key == key then Some(last.outcome) else LastResult(h[..|h| - 1], key)
  }

  /** The steps in the order they first began. */
  function Order(h: seq<History>): seq<Step> {
    if h == [] then []
    else
      var front, last := Order(h[..|h| - 1]), h[|h| - 1];
      if last.Began? && !Begun(h[..|h| - 1], last.step.key) then front + [last.step] else front
  }

  function Committed(h: seq<History>, steps: seq<Step>): seq<string> {
    if steps == [] then []
    else
      var last := steps[|steps| - 1];
      var result := LastResult(h, last.key);
      Committed(h, steps[..|steps| - 1]) + if result.Some? && Commits(result.value) then [last.name] else []
  }

  function Unfinished(h: seq<History>, steps: seq<Step>): seq<string> {
    if steps == [] then []
    else
      var last := steps[|steps| - 1];
      Unfinished(h, steps[..|steps| - 1]) + if LastResult(h, last.key).None? then [last.name] else []
  }

  function Summary(h: seq<History>): StepSummary {
    StepSummary(Committed(h, Order(h)), Unfinished(h, Order(h)))
  }

  lemma HistorySnoc(h: seq<History>, e: History)
    ensures (h + [e])[..|h|] == h
    ensures forall key :: Begun(h + [e], key) <==> Begun(h, key) || (e.Began? && e.step.key == key)
    ensures forall key :: LastResult(h + [e], key) == if e.Finished? && e.key == key then Some(e.outcome)
            else LastResult(h, key)
  {
    assert (h + [e])[..|h|] == h;
    forall key ensures Begun(h + [e], key) <==> Begun(h, key) || (e.Began? && e.step.key == key) {
      if Begun(h, key) {
        var i :| 0 <= i < |h| && h[i].Began? && h[i].step.key == key;
        assert (h + [e])[i] == h[i];
      }
      if e.Began? && e.step.key == key {
        assert (h + [e])[|h|] == e;
      }
    }
  }

  predicate Listed(steps: seq<Step>, key: string) {
    exists s :: s in steps && s.key == key
  }

  lemma {:induction false} OrderKeys(h: seq<History>, key: string)
    ensures Begun(h, key) <==> Listed(Order(h), key)
  {
    if h != [] {
      var front, last := h[..|h| - 1], h[|h| - 1];
      assert h == front + [last];
      OrderKeys(front, key);
      HistorySnoc(front, last);
      if last.Began? && !Begun(front, last.step.key) {
        assert Order(h) == Order(front) + [last.step];
        assert last.step in Order(h);
        assert Listed(Order(front), key) ==> Listed(Order(h), key);
      }
    }
  }

  predicate CommittedStep(h: seq<History>, key: string) {
    LastResult(h, key).Some? && Commits(LastResult(h, key).value)
  }

  lemma {:induction false} UnfinishedHolds(h: seq<History>, steps: seq<Step>)
    ensures Unfinished(h, steps) == [] <==> forall s :: s in steps ==> LastResult(h, s.key).Some?
  {
    if steps != [] {
      var front, last := steps[..|steps| - 1], steps[|steps| - 1];
      UnfinishedHolds(h, front);
      assert steps == front + [last];
    }
  }

  lemma {:induction false} CommittedHolds(h: seq<History>, steps: seq<Step>)
    ensures Committed(h, steps) == [] <==> forall s :: s in steps ==> !CommittedStep(h, s.key)
  {
    if steps != [] {
      var front, last := steps[..|steps| - 1], steps[|steps| - 1];
      CommittedHolds(h, front);
      assert steps == front + [last];
    }
  }

  /** Nothing is unfinished exactly when every begun step has a saved result. */
  lemma NothingUnfinished(h: seq<History>)
    ensures Summary(h).unfinished == [] <==> forall key :: Begun(h, key) ==> LastResult(h, key).Some?
  {
    UnfinishedHolds(h, Order(h));
    forall key ensures Begun(h, key) <==> Listed(Order(h), key) {
      OrderKeys(h, key);
    }
    assert forall s :: s in Order(h) ==> Listed(Order(h), s.key);
  }

  /** Nothing is committed exactly when no begun step's last saved result is a committing one. */
  lemma NothingCommitted(h: seq<History>)
    ensures Summary(h).committed == [] <==> forall key :: Begun(h, key) ==> !CommittedStep(h, key)
  {
    CommittedHolds(h, Order(h));
    forall key ensures Begun(h, key) <==> Listed(Order(h), key) {
      OrderKeys(h, key);
    }
    assert forall s :: s in Order(h) ==> Listed(Order(h), s.key);
  }

  lemma {:induction false} CommittedLists(h: seq<History>, steps: seq<Step>, name: string)
    ensures name in Committed(h, steps) <==> exists s :: s in steps && s.name == name && CommittedStep(h, s.key)
  {
    if steps != [] {
      var front, last := steps[..|steps| - 1], steps[|steps| - 1];
      CommittedLists(h, front, name);
      assert steps == front + [last];
      if name in Committed(h, front) {
        var s :| s in front && s.name == name && CommittedStep(h, s.key);
        assert s in steps;
      } else if CommittedStep(h, last.key) && last.name == name {
        assert last in steps;
      }
    }
  }

  lemma {:induction false} UnfinishedLists(h: seq<History>, steps: seq<Step>, name: string)
    ensures name in Unfinished(h, steps) <==> exists s :: s in steps && s.name == name && LastResult(h, s.key).None?
  {
    if steps != [] {
      var front, last := steps[..|steps| - 1], steps[|steps| - 1];
      UnfinishedLists(h, front, name);
      assert steps == front + [last];
      if name in Unfinished(h, front) {
        var s :| s in front && s.name == name && LastResult(h, s.key).None?;
        assert s in steps;
      } else if LastResult(h, last.key).None? && last.name == name {
        assert last in steps;
      }
    }
  }

  /** A label is listed as committed, or as unfinished, exactly when a begun step of that name is. */
  lemma SummaryLists(h: seq<History>, name: string)
    ensures name in Summary(h).committed <==> exists s :: s in Order(h) && s.name == name && CommittedStep(h, s.key)
    ensures name in Summary(h).unfinished <==>
              exists s :: s in Order(h) && s.name == name && LastResult(h, s.key).None?
  {
    CommittedLists(h, Order(h), name);
    UnfinishedLists(h, Order(h), name);
  }

  /** The step recorder of one attempt, with the outbox answers as arguments. */
  class StepRecorder {
    var order: seq<string>
    var labels: map<string, string>
    var finished: map<string, string>
    ghost var history: seq<History>

    constructor ()
      ensures Valid() && history == []
    {
      order, labels, finished, history := [], map[], map[], [];
    }

    ghost predicate Valid()
      reads this
    {
      && |order| == |Order(history)|
      && (forall i :: 0 <= i < |order| ==>
            order[i] == Order(history)[i].key && order[i] in labels && labels[order[i]] == Order(history)[i].name)
      && (forall key :: key in labels <==> Begun(history, key))
      && (forall key ::
            && (key in finished <==> LastResult(history, key).Some?)
            && (key in finished ==> LastResult(history, key) == Some(finished[key])))
    }

    /** A step counts as begun once its intent is in the outbox; beginning it again changes nothing. */
    method BeginStep(step: Step, valid: bool, written: bool) returns (ok: bool)
      requires Valid()
      modifies this
      ensures Valid() && ok == (valid && written)
      ensures history == if ok then old(history) + [Began(step)] else old(history)
    {
      if !valid || !written {
        return false;
      }
      HistorySnoc(history, Began(step));
      if step.key !in labels {
        order := order + [step.key];
        labels := labels[step.key := step.name];
      }
      history := history + [Began(step)];
      ok := true;
    }

    /** Only a step that began in this attempt finishes, and the last saved result is the one that stands. */
    method FinishStep(key: string, outcome: string, valid: bool, written: bool) returns (ok: bool)
      requires Valid()
      modifies this
      ensures Valid() && ok == (Begun(old(history), key) && valid && written)
      ensures history == if ok then old(history) + [Finished(key, outcome)] else old(history)
    {
      if key !in labels || !valid || !written {
        return false;
      }
      HistorySnoc(history, Finished(key, outcome));
      finished := finished[key := outcome];
      history := history + [Finished(key, outcome)];
      ok := true;
    }

    method Summarise() returns (summary: StepSummary)
      requires Valid()
      ensures summary == Summary(history)
    {
      var committed: seq<string>, unfinished: seq<string> := [], [];
      ghost var steps := Order(history);
      for i := 0 to |order|
        invariant committed == Committed(history, steps[..i]) && unfinished == Unfinished(history, steps[..i])
      {
        var key := order[i];
        assert steps[..i + 1][..i] == steps[..i];
        if key !in finished {
          unfinished := unfinished + [labels[key]];
        } else if finished[key] == COMPLETED || finished[key] == PARTIALLY_COMPLETED {
          committed := committed + [labels[key]];
        }
      }
      assert steps[..|order|] == steps;
      summary := StepSummary(committed, unfinished);
    }
  }

  // ---- The outcome ----

  function Merge(committed: seq<string>, steps: seq<string>): seq<string> {
    if steps == [] then committed
    else
      var front := Merge(committed, steps[..|steps| - 1]);
      if steps[|steps| - 1] in front then front else front + [steps[|steps| - 1]]
  }

  predicate NoRepeatFrom(list: seq<string>, from: nat) {
    forall i, j :: 0 <= i < j < |list| && from <= j ==> list[i] != list[j]
  }

  /** The merged list starts with what run returned, has exactly the labels of both, and repeats none that it adds. */
  lemma {:induction false} MergeHolds(committed: seq<string>, steps: seq<string>)
    ensures committed <= Merge(committed, steps) && NoRepeatFrom(Merge(committed, steps), |committed|)
    ensures forall name :: name in Merge(committed, steps) <==> name in committed || name in steps
  {
    if steps != [] {
      var front, last := steps[..|steps| - 1], steps[|steps| - 1];
      assert steps == front + [last];
      MergeHolds(committed, front);
      assert last !in Merge(committed, front) ==> Merge(committed, steps) == Merge(committed, front) + [last];
    }
  }

  /** An outcome that says something went wrong, as run returned it or as its error makes it. */
  predicate WentWrong(details: OutcomeDetails, runErr: Option<string>) {
    || details.outcome == FAILED || details.outcome == REFUSED || details.outcome == PARTIALLY_COMPLETED
    || (runErr.Some? && (details.outcome == "" || details.outcome == COMPLETED))
  }

  /** What the attempt's outcome must be, from what run returned and what the steps show. */
  ghost predicate Resolves(r: OutcomeDetails, details: OutcomeDetails, runErr: Option<string>, steps: StepSummary) {
    var committed := details.committedSteps != [] || steps.committed != [];
    && Terminal(r.outcome)
    && (r.outcome == COMPLETED <==>
          runErr.None? && (details.outcome == "" || details.outcome == COMPLETED) && steps.unfinished == [])
    && (r.outcome == INCOMPLETE <==>
          steps.unfinished != [] || details.outcome == INCOMPLETE
              || (details.outcome != "" && !Terminal(details.outcome)))
    && (r.outcome == PARTIALLY_COMPLETED <==> steps.unfinished == [] && WentWrong(details, runErr) && committed)
    && (r.outcome == REFUSED <==> steps.unfinished == [] && details.outcome == REFUSED && !committed)
    && (r.outcome == FAILED <==>
          steps.unfinished == [] && WentWrong(details, runErr) && details.outcome != REFUSED && !committed)
    && (r.committedSteps != [] <==> committed && (r.outcome == PARTIALLY_COMPLETED || r.outcome == INCOMPLETE))
    && (r.outcome == COMPLETED <==> r.failureCode == "") && (r.outcome == COMPLETED <==> r.failureMessage == "")
  }

  /** The outcome before committed steps are weighed. */
  ghost predicate Judged(r: OutcomeDetails, details: OutcomeDetails, runErr: Option<string>, unfinished: seq<string>) {
    && Terminal(r.outcome)
    && (r.outcome == COMPLETED <==>
          runErr.None? && (details.outcome == "" || details.outcome == COMPLETED) && unfinished == [])
    && (r.outcome == INCOMPLETE <==>
          unfinished != [] || details.outcome == INCOMPLETE || (details.outcome != "" && !Terminal(details.outcome)))
    && (r.outcome == REFUSED <==> unfinished == [] && details.outcome == REFUSED)
    && (r.outcome == FAILED || r.outcome == REFUSED || r.outcome == PARTIALLY_COMPLETED <==>
          unfinished == [] && WentWrong(details, runErr))
  }

  /** run returned an outcome that is not empty and not one of the five terminal ones. */
  predicate Unknown(details: OutcomeDetails) {
    details.outcome !in {"", "completed", "refused", "failed", "partially_completed", "incomplete"}
  }

  /** An open step is what made the outcome incomplete. */
  predicate Interrupted(details: OutcomeDetails, unfinished: seq<string>) {
    unfinished != [] && details.outcome != "incomplete" && !Unknown(details)
  }

  ghost predicate CommaSeparated(names: seq<string>, text: string) {
    if names == [] then text == ""
    else if |names| == 1 then text == names[0]
    else exists rest :: CommaSeparated(names[1..], rest) && text == names[0] + ", " + rest
  }

  /** The fixed code of a replaced outcome, else the returned code, else one made from the outcome. */
  ghost predicate CodeIs(code: string, outcome: string, details: OutcomeDetails, unfinished: seq<string>) {
    if Unknown(details) then code == "outcome_unknown"
    else if Interrupted(details, unfinished) then code == "step_unfinished"
    else code == if details.failureCode != "" then details.failureCode else "external_" + outcome
  }

  /** The message of a replaced outcome, else the returned one, else run's error, else one made from the outcome. */
  ghost predicate MessageIs(message: string, outcome: string, details: OutcomeDetails, runErr: Option<string>,
      unfinished: seq<string>)
  {
    if Unknown(details) then
      message == "the operation returned outcome " + details.outcome + ", which is not a terminal outcome"
    else if Interrupted(details, unfinished) then
      exists list ::
        CommaSeparated(unfinished, list) && message == "these steps began without a saved result: " + list
    else
      message == if details.failureMessage != "" then details.failureMessage
                 else if runErr.Some? && runErr.value != "" then runErr.value
                 else "the operation ended with outcome " + outcome
  }

  lemma {:induction false} JoinedNames(names: seq<string>)
    ensures CommaSeparated(names, Joined(names))
  {
    if |names| > 1 {
      JoinedNames(names[1..]);
    }
  }

  /** What the failure is before the gaps in it are filled. */
  ghost predicate FailureStarts(r: OutcomeDetails, details: OutcomeDetails, unfinished: seq<string>) {
    if Unknown(details) then
      && r.failureCode == "outcome_unknown"
      && r.failureMessage == "the operation returned outcome " + details.outcome + ", which is not a terminal outcome"
    else if Interrupted(details, unfinished) then
      && r.failureCode == "step_unfinished"
      && exists list ::
           CommaSeparated(unfinished, list) && r.failureMessage == "these steps began without a saved result: " + list
    else r.failureCode == details.failureCode && r.failureMessage == details.failureMessage
  }

  method JudgeOutcome(details: OutcomeDetails, runErr: Option<string>,
        unfinished: seq<string>) returns (r: OutcomeDetails)
    ensures Judged(r, details, runErr, unfinished) && FailureStarts(r, details, unfinished)
  {
    r := details;
    if runErr.Some? && (r.outcome == "" || r.outcome == COMPLETED) {
      r := r.(outcome := FAILED);
    }
    if r.outcome == "" {
      r := r.(outcome := COMPLETED);
    }
    if !Terminal(r.outcome) {
      r := r.(outcome := INCOMPLETE, failureCode := "outcome_unknown",
              failureMessage := "the operation returned outcome " + details.outcome
                  + ", which is not a terminal outcome");
    }
    if |unfinished| > 0 && r.outcome != INCOMPLETE {
      r := r.(outcome := INCOMPLETE, failureCode := "step_unfinished",
              failureMessage := "these steps began without a saved result: " + Joined(unfinished));
      JoinedNames(unfinished);
    }
  }

  method MergeSteps(returned: seq<string>, recorded: seq<string>) returns (committed: seq<string>)
    ensures committed == Merge(returned, recorded)
    ensures returned <= committed && NoRepeatFrom(committed, |returned|)
    ensures forall name :: name in committed <==> name in returned || name in recorded
  {
    committed := returned;
    for i := 0 to |recorded|
      invariant committed == Merge(returned, recorded[..i])
    {
      assert recorded[..i + 1][..i] == recorded[..i];
      if recorded[i] !in committed {
        committed := committed + [recorded[i]];
      }
    }
    assert recorded[..|recorded|] == recorded;
    MergeHolds(returned, recorded);
  }

  /** A failure has a code and a message; a completed outcome has neither. */
  method FillFailure(r0: OutcomeDetails, runErr: Option<string>) returns (r: OutcomeDetails)
    requires Terminal(r0.outcome)
    ensures r.outcome == r0.outcome && r.committedSteps == r0.committedSteps
    ensures (r.outcome == COMPLETED <==> r.failureCode == "") && (r.outcome == COMPLETED <==> r.failureMessage == "")
    ensures r.outcome != COMPLETED ==>
              && r.failureCode == (if r0.failureCode != "" then r0.failureCode else "external_" + r0.outcome)
              && r.failureMessage == (if r0.failureMessage != "" then r0.failureMessage
                                      else if runErr.Some? && runErr.value != "" then runErr.value
                                      else "the operation ended with outcome " + r0.outcome)
  {
    r := r0;
    if r.outcome == COMPLETED {
      r := r.(failureCode := "", failureMessage := "");
      return;
    }
    if r.failureCode == "" {
      r := r.(failureCode := "external_" + r.outcome);
    }
    if r.failureMessage == "" && runErr.Some? {
      r := r.(failureMessage := runErr.value);
    }
    if r.failureMessage == "" {
      r := r.(failureMessage := "the operation ended with outcome " + r.outcome);
    }
  }

  /** resolveExternalOutcome, for every returned outcome, error and step history. */
  method ResolveExternalOutcome(details: OutcomeDetails, runErr: Option<string>,
        steps: StepSummary) returns (r: OutcomeDetails)
    ensures Resolves(r, details, runErr, steps)
    ensures r.outcome == PARTIALLY_COMPLETED || r.outcome == INCOMPLETE ==>
            r.committedSteps == Merge(details.committedSteps, steps.committed)
    ensures r.outcome != COMPLETED ==>
              && CodeIs(r.failureCode, r.outcome, details, steps.unfinished)
              && MessageIs(r.failureMessage, r.outcome, details, runErr, steps.unfinished)
  {
    r := JudgeOutcome(details, runErr, steps.unfinished);
    var committed := MergeSteps(details.committedSteps, steps.committed);
    assert committed == [] <==> details.committedSteps == [] && steps.committed == [] by {
      assert steps.committed != [] ==> steps.committed[0] in committed;
      assert committed != [] ==> committed[0] in details.committedSteps || committed[0] in steps.committed;
    }
    if r.outcome == FAILED || r.outcome == REFUSED {
      if |committed| > 0 {
        r := r.(outcome := PARTIALLY_COMPLETED);
      }
    } else if r.outcome == PARTIALLY_COMPLETED {
      if |committed| == 0 {
        r := r.(outcome := FAILED);
      }
    }
    r := r.(committedSteps := if r.outcome == PARTIALLY_COMPLETED || r.outcome == INCOMPLETE then committed else []);
    r := FillFailure(r, runErr);
  }

  function Joined(names: seq<string>): string {
    if names == [] then "" else if |names| == 1 then names[0] else names[0] + ", " + Joined(names[1..])
  }

  // ---- The result event ----

  /** validateExternalIntent. */
  predicate ExternalIntentOk(intent: Event) {
    intent.context.opClass == "external" && intent.context.phase == "intent" && ValidComplete(intent)
  }

  /** The result event of an attempt, with a new id and the time it ended. */
  function ExternalResult(intent: Event, id: nat, now: int, r: OutcomeDetails): Event {
    intent.(id := id, occurredAt := now, outcome := r.outcome,
            error := if r.outcome == COMPLETED then None else Some(EventError(r.failureCode, r.failureMessage)),
            context := intent.context.(phase := "result", committedSteps := r.committedSteps,
                                       completedAt := if now < intent.context.startedAt then intent.context.startedAt
                                           else now))
  }

  /**
   A completed result means no run error and a saved result for every begun step; a failed or
   refused one, no committed step.
   */
  lemma ResultMeans(r: OutcomeDetails, details: OutcomeDetails, runErr: Option<string>, h: seq<History>)
    requires Resolves(r, details, runErr, Summary(h))
    ensures r.outcome == COMPLETED ==> runErr.None? && forall key :: Begun(h, key) ==> LastResult(h, key).Some?
    ensures r.outcome == FAILED || r.outcome == REFUSED ==>
              details.committedSteps == [] && forall key :: Begun(h, key) ==> !CommittedStep(h, key)
    ensures r.outcome != INCOMPLETE ==> forall key :: Begun(h, key) ==> LastResult(h, key).Some?
  {
    NothingUnfinished(h);
    NothingCommitted(h);
  }

  /** The result event says what happened: its outcome, its error and its steps against the history of the attempt. */
  ghost predicate Reports(result: Event, details: OutcomeDetails, runErr: Option<string>, h: seq<History>) {
    && (result.outcome == COMPLETED ==> runErr.None?)
    && (result.outcome != INCOMPLETE ==> forall key :: Begun(h, key) ==> LastResult(h, key).Some?)
    && (result.outcome == FAILED || result.outcome == REFUSED ==>
          details.committedSteps == [] && forall key :: Begun(h, key) ==> !CommittedStep(h, key))
    && result.context.committedSteps == (if result.outcome == PARTIALLY_COMPLETED || result.outcome == INCOMPLETE
                                         then Merge(details.committedSteps, Summary(h).committed) else [])
    && (result.error.None? <==> result.outcome == COMPLETED)
  }

  /** The error of a result that is not completed. */
  ghost predicate ErrorReports(result: Event, details: OutcomeDetails, runErr: Option<string>, h: seq<History>) {
    result.outcome != "completed" ==>
      && result.error.Some?
      && CodeIs(result.error.value.code, result.outcome, details, Summary(h).unfinished)
      && MessageIs(result.error.value.message, result.outcome, details, runErr, Summary(h).unfinished)
  }

  /** The outcome that run returned, under its names, corrected by its error and by the steps. */
  ghost predicate OutcomeReports(result: Event, details: OutcomeDetails, runErr: Option<string>, h: seq<History>) {
    var returned := if details.outcome != "" && (details.outcome != "completed" || runErr.None?) then details.outcome
                    else if runErr.Some? then "failed" else "completed";
    var committed := details.committedSteps != [] || Summary(h).committed != [];
    result.outcome ==
      if Unknown(details) || Summary(h).unfinished != [] then "incomplete"
      else if returned == "failed" || returned == "refused" || returned == "partially_completed" then
        if committed then "partially_completed" else if returned == "refused" then "refused" else "failed"
      else returned
  }

  /** finishExternal after run returns: every attempt on a valid intent has a result that passes the contract. */
  method FinishExternal(steps: StepRecorder, intent: Event, id: nat, now: int, details: OutcomeDetails,
        runErr: Option<string>)
    returns (result: Event)
    requires steps.Valid() && ExternalIntentOk(intent) && id != 0 && now != 0
    ensures ValidComplete(result) && Reports(result, details, runErr, steps.history)
    ensures OutcomeReports(result, details, runErr, steps.history)
    ensures ErrorReports(result, details, runErr, steps.history)
    ensures result.id == id && result.occurredAt == now && result.context.phase == "result"
    ensures result.context.completedAt == if now >= intent.context.startedAt then now else intent.context.startedAt
    ensures result.verb == intent.verb && result.actorType == intent.actorType && result.actorId == intent.actorId
    ensures result.entityType == intent.entityType && result.entityId == intent.entityId
    ensures result.delta == intent.delta && result.protected == intent.protected
    ensures result.context == intent.context.(phase := "result", committedSteps := result.context.committedSteps,
                                              completedAt := result.context.completedAt)
  {
    var summary := steps.Summarise();
    var r := ResolveExternalOutcome(details, runErr, summary);
    result := ExternalResult(intent, id, now, r);
    ResultMeans(r, details, runErr, steps.history);
    assert OutcomeFieldsOk(result);
  }

  /** A step stands as its last saved result says, and every other step as before. */
  predicate StandsCommitted(h: seq<History>, key: string, outcome: string, s: Step) {
    if s.key == key then Commits(outcome) else CommittedStep(h, s.key)
  }

  /**
   Only the last saved result of a step counts, after every history: whatever was saved before, a
   label is listed exactly when the new result of its step commits, or another step of that name
   stays committed.
   */
  lemma LaterResultReplacesEarlier(h: seq<History>, key: string, outcome: string, name: string)
    ensures name in Summary(h + [Finished(key, outcome)]).committed <==>
              exists s :: s in Order(h) && s.name == name && StandsCommitted(h, key, outcome, s)
  {
    var h' := h + [Finished(key, outcome)];
    HistorySnoc(h, Finished(key, outcome));
    SummaryLists(h', name);
    assert Order(h') == Order(h);
    forall s: Step ensures CommittedStep(h', s.key) <==> StandsCommitted(h, key, outcome, s) {
    }
  }
}
