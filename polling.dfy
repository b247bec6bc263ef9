/** The polling decision of the transcription stage: the stage asks the
    transcription provider for the job's status again and again until the
    provider reports 'completed' (the transcript is returned) or 'error' (the
    stage fails). The responses the provider gives are a finite sequence here;
    the pause between two requests is not modelled. */
module Polling {
  import opened Records

  /** One polling response: its status, its text (meaningful when the status is
      'completed') and its optional error field. */
  datatype PollResponse = PollResponse(status: string, text: string, error: Option<string>)

  /** Where the polling stands after a sequence of responses: finished with an
      outcome, or still waiting for a terminal status. */
  datatype PollResult = Finished(outcome: Outcome) | StillPolling

  const FailedPrefix: string := "Transcription failed: "

  /** The statuses that end the loop. */
  predicate IsTerminal(status: string): (b: bool)
    ensures b ==> status != "queued" && status != "processing"
  {
    status == "completed" || status == "error"
  }

  /** Python's rendering of the error field inside an f-string: a missing field
      prints as None. */
  function ErrorText(error: Option<string>): (t: string)
    ensures error.Some? ==> t == error.value
    ensures error.None? ==> t == "None"
  {
    match error
    case Some(e) => e
    case None => "None"
  }

  /** The message of the exception raised for an 'error' response. */
  function FailureMessage(error: Option<string>): (m: string)
    ensures |m| >= |FailedPrefix| && m[..|FailedPrefix|] == FailedPrefix
    ensures m[|FailedPrefix|..] == ErrorText(error)
  {
    FailedPrefix + ErrorText(error)
  }

  /** What a terminal response makes the stage return or raise. */
  function Verdict(resp: PollResponse): (o: Outcome)
    requires IsTerminal(resp.status)
    ensures o.Ok? <==> resp.status == "completed"
    ensures o.Ok? ==> o.text == resp.text
    ensures o.Fail? ==> o.msg == FailureMessage(resp.error)
  {
    if resp.status == "completed" then Ok(resp.text) else Fail(FailureMessage(resp.error))
  }

  /** The position of the first terminal response, or |rs| when none is. */
  function FirstTerminal(rs: seq<PollResponse>): (k: nat)
    ensures k <= |rs|
    ensures forall j :: 0 <= j < k ==> !IsTerminal(rs[j].status)
    ensures k < |rs| ==> IsTerminal(rs[k].status)
  {
    if rs == [] then 0
    else if IsTerminal(rs[0].status) then 0
    else 1 + FirstTerminal(rs[1..])
  }

  /** The loop's outcome, one response at a time. */
  function PollOutcome(rs: seq<PollResponse>): (r: PollResult)
    ensures var k := FirstTerminal(rs);
            r == if k < |rs| then Finished(Verdict(rs[k])) else StillPolling
  {
    if rs == [] then StillPolling
    else if IsTerminal(rs[0].status) then Finished(Verdict(rs[0]))
    else PollOutcome(rs[1..])
  }

  /** The polling loop. `polls` is the number of status requests it makes. */
  method Poll(rs: seq<PollResponse>) returns (result: PollResult, polls: nat)
    ensures result == PollOutcome(rs)
    ensures polls <= |rs|
    ensures result.StillPolling? <==> forall j :: 0 <= j < |rs| ==> !IsTerminal(rs[j].status)
    ensures result.StillPolling? ==> polls == |rs|
    ensures result.Finished? ==>
              polls >= 1 && IsTerminal(rs[polls - 1].status) &&
              (forall j :: 0 <= j < polls - 1 ==> !IsTerminal(rs[j].status)) &&
              result.outcome == Verdict(rs[polls - 1])
  {
    var i := 0;
    while i < |rs|
      invariant 0 <= i <= |rs|
      invariant forall j :: 0 <= j < i ==> !IsTerminal(rs[j].status)
    {
      var status := rs[i].status;
      if status == "completed" {
        return Finished(Ok(rs[i].text)), i + 1;
      } else if status == "error" {
        return Finished(Fail(FailedPrefix + ErrorText(rs[i].error))), i + 1;
      }
      i := i + 1;
    }
    return StillPolling, |rs|;
  }

  /** Once a terminal response has been seen, later responses change nothing. */
  lemma {:induction false} LaterResponsesIgnored(rs: seq<PollResponse>, more: seq<PollResponse>)
    requires PollOutcome(rs).Finished?
    ensures PollOutcome(rs + more) == PollOutcome(rs)
  {
    assert rs != [];
    if !IsTerminal(rs[0].status) {
      assert (rs + more)[1..] == rs[1..] + more;
      LaterResponsesIgnored(rs[1..], more);
    }
  }

  /** Non-terminal responses (queued, processing, ...) never decide the loop. */
  lemma {:induction false} PendingResponsesSkipped(pending: seq<PollResponse>, rs: seq<PollResponse>)
    requires forall j :: 0 <= j < |pending| ==> !IsTerminal(pending[j].status)
    ensures PollOutcome(pending + rs) == PollOutcome(rs)
  {
    if pending == [] {
      assert pending + rs == rs;
    } else {
      assert (pending + rs)[0] == pending[0];
      assert (pending + rs)[1..] == pending[1..] + rs;
      PendingResponsesSkipped(pending[1..], rs);
    }
  }

  /** Every failure the loop reports is a "Transcription failed: ..." message
      carrying the provider's error field. */
  lemma FailureCarriesProviderError(rs: seq<PollResponse>)
    requires PollOutcome(rs).Finished? && PollOutcome(rs).outcome.Fail?
    ensures var k := FirstTerminal(rs);
            k < |rs| && rs[k].status == "error" &&
            PollOutcome(rs).outcome.msg == FailedPrefix + ErrorText(rs[k].error)
  {
  }
}
