/** The background pipeline's effect on the one record it works on: stage 1
    (transcription) and stage 2 (generation of the summary and flashcards),
    each of which may fail, and the field writes that follow from their
    outcomes. The provider calls are parameters: the transcription stage's
    outcome, and the generation stage as a function of the transcript text. */
module Pipeline {
  import opened Records
  import opened Polling

  /** The writes the pipeline makes to the record, in the order it makes them.
      A failure of either stage is caught and becomes an error status. */
  function StageWrites(transcription: Outcome, generate: string -> Outcome): (ws: seq<Write>)
    ensures 1 <= |ws| <= 3
    ensures ws[|ws| - 1].SetStatus?
    ensures forall k :: 0 <= k < |ws| - 1 ==> !ws[k].SetStatus?
    ensures forall k :: 0 <= k < |ws| && ws[k].SetSummary? ==> 0 < k && ws[k - 1].SetTranscript?
    ensures transcription.Fail? <==> |ws| == 1
    ensures transcription.Ok? ==> ws[0] == SetTranscript(transcription.text)
  {
    match transcription
    case Fail(m) => [SetStatus(ErrorStatus(m))]
    case Ok(text) =>
      match generate(text)
      case Ok(analysis) => [SetTranscript(text), SetSummary(analysis), SetStatus(Completed)]
      case Fail(m) => [SetTranscript(text), SetStatus(ErrorStatus(m))]
  }

  /** The record once the pipeline has run to its end, branch by branch as
      the pipeline runs; it is the stage writes applied in order, and it is
      never left "processing". */
  function Run(r: Lecture, transcription: Outcome, generate: string -> Outcome): (r': Lecture)
    ensures r' == ApplyAll(r, StageWrites(transcription, generate))
    ensures r'.id == r.id && r'.title == r.title && r'.status != Processing
  {
    var ws := StageWrites(transcription, generate);
    match transcription
    case Fail(m) =>
      assert ApplyAll(r, ws) == ApplyAll(r.(status := ErrorStatus(m)), ws[1..]);
      r.(status := ErrorStatus(m))
    case Ok(text) =>
      assert ApplyAll(r, ws) == ApplyAll(r.(transcript := text), ws[1..]);
      match generate(text)
      case Ok(analysis) =>
        assert ApplyAll(r.(transcript := text), ws[1..]) ==
               ApplyAll(r.(transcript := text, summaryAndCards := analysis), ws[2..]);
        r.(transcript := text, summaryAndCards := analysis, status := Completed)
      case Fail(m) =>
        r.(transcript := text, status := ErrorStatus(m))
  }

  /** Both stages succeed: the transcript, then the summary, then "completed". */
  lemma BothStagesSucceed(r: Lecture, text: string, analysis: string, generate: string -> Outcome)
    requires generate(text) == Ok(analysis)
    ensures StageWrites(Ok(text), generate) ==
            [SetTranscript(text), SetSummary(analysis), SetStatus(Completed)]
    ensures Run(r, Ok(text), generate) ==
            r.(transcript := text, summaryAndCards := analysis, status := Completed)
  {
  }

  /** Transcription fails: only the status changes, to "error: " + message;
      the generation stage is never reached. */
  lemma TranscriptionFails(r: Lecture, msg: string, generate: string -> Outcome)
    ensures StageWrites(Fail(msg), generate) == [SetStatus(ErrorStatus(msg))]
    ensures Run(r, Fail(msg), generate) == r.(status := ErrorStatus(msg))
  {
  }

  /** Generation fails after transcription succeeded: the transcript is kept,
      the summary is left as it was, and the status is "error: " + message. */
  lemma GenerationFails(r: Lecture, text: string, msg: string, generate: string -> Outcome)
    requires generate(text) == Fail(msg)
    ensures StageWrites(Ok(text), generate) == [SetTranscript(text), SetStatus(ErrorStatus(msg))]
    ensures Run(r, Ok(text), generate) == r.(transcript := text, status := ErrorStatus(msg))
  {
  }

  /** A run that starts from "processing" always leaves it: it ends either
      "completed" or with an "error: " status. */
  lemma RunLeavesProcessing(r: Lecture, transcription: Outcome, generate: string -> Outcome)
    ensures var s := Run(r, transcription, generate).status;
            s != Processing &&
            (s == Completed || (|s| >= |ErrorPrefix| && s[..|ErrorPrefix|] == ErrorPrefix))
  {
  }

  /** What a reader of the store can see while the pipeline is between two
      writes: the status has not changed yet, and a summary has been written
      only after the transcript. */
  lemma InFlightSnapshot(r: Lecture, transcription: Outcome, generate: string -> Outcome, p: nat)
    requires p < |StageWrites(transcription, generate)|
    ensures var s := ApplyAll(r, StageWrites(transcription, generate)[..p]);
            s.id == r.id && s.title == r.title && s.status == r.status &&
            (s.summaryAndCards != r.summaryAndCards ==>
               transcription.Ok? && s.transcript == transcription.text)
  {
    var ws := StageWrites(transcription, generate);
    if p == 0 {
      assert ws[..p] == [];
    } else if p == 1 {
      assert ws[..p] == [ws[0]];
      assert ApplyAll(r, [ws[0]]) == ApplyAll(Apply(r, ws[0]), []);
    } else {
      assert p == 2 && transcription.Ok?;
      assert ws[..p] == [ws[0], ws[1]];
      assert [ws[0], ws[1]][1..] == [ws[1]];
      assert ApplyAll(r, [ws[0], ws[1]]) == ApplyAll(Apply(r, ws[0]), [ws[1]]);
      assert ApplyAll(Apply(r, ws[0]), [ws[1]]) == ApplyAll(Apply(Apply(r, ws[0]), ws[1]), []);
    }
  }

  /** An 'error' polling response ends the pipeline with the status
      "error: Transcription failed: " followed by the provider's error field,
      and leaves the transcript and the summary as they were. */
  lemma PolledErrorRecorded(r: Lecture, rs: seq<PollResponse>, generate: string -> Outcome)
    requires PollOutcome(rs).Finished? && rs[FirstTerminal(rs)].status == "error"
    ensures var s := Run(r, PollOutcome(rs).outcome, generate);
            s == r.(status := ErrorPrefix + FailedPrefix + ErrorText(rs[FirstTerminal(rs)].error))
  {
  }
}
