# Lecture processing back end: job registry and pipeline state machine

This project models the core of a small lecture-processing server, `main.py`.
A client submits a lecture title and an audio file name. The server checks
that the file exists. It then appends a new record to a global in-memory list
with status `"processing"` and the id `len(list) + 1`. A background task then
runs a two-stage pipeline on that record:

1. transcription: upload the audio, then poll the provider until it reports
   `completed` or `error`;
2. generation: one call that turns the transcript into a summary and flashcards.

The pipeline writes `transcript` after stage 1 and `summary_and_cards` after
stage 2, then sets `status = "completed"`. An exception in either stage becomes
`status = "error: " + message`. The listing endpoint returns the list as it is.

Modules, one per component of `main.py`:

- `Records` (records.dfy): the record, a provider outcome (`Ok(text)` or
  `Fail(msg)`), one field write, and the effect of a sequence of writes.
- `Polling` (polling.dfy): the `while True` polling decision of
  `transcribe_audio`, run over a finite sequence of provider responses. There
  is a spec function (`PollOutcome`), a loop (`Poll`) proved against it, and
  lemmas about it.
- `Pipeline` (pipeline.dfy): the ordered field writes of `run_full_pipeline`
  for each combination of stage outcomes, and what a reader sees between two
  writes.
- `Registry` (registry.dfy): the store as a value. It covers submission, a
  sequence of submissions, lookup by id, and a pipeline run on the whole list.
- `Store` (store.dfy): the class `LectureStore`, whose field `lectures` is the
  global list. Its methods make the same changes in place.
  `ProcessLecture`'s and `RunFullPipeline`'s `ensures` tie the new list to
  `Submit` and `RunPipeline` of the old one.

Provider calls and the file system are parameters:

- the transcription stage is an `Outcome`;
- the generation stage is a function `string -> Outcome` of the transcript
  text;
- the existence of the audio file is a `bool`.

The class keeps three ghost logs:

- `writes`: every field assignment, in order;
- `history`: every state of the list a reader could observe;
- `generated`: every call of the generation stage, with the transcript handed
  to it and the number of field writes made before the call.

Every field assignment of the pipeline goes through one method,
`WriteField`, and the generation call goes through `Generate`. So the
contract of `RunFullPipeline` states the order of the writes, each
intermediate list, whether generation was reached, and that it was called
right after the transcript write.

What the code does not guarantee, and the model does not claim:

- Terminal states are not absorbing. Nothing stops a second run from
  rewriting a completed record.
- The store has no locking.
- Summary and flashcards are one string, `summary_and_cards`.
- The polling loop has no timeout.
- A "completed" record can hold an empty transcript or an empty summary: the
  code stores whatever text the providers return (main.py:96, 100). An error
  status can carry an empty reason, because `str(e)` can be empty (main.py:107).

## Model

| member | source | states |
|---|---|---|
| Records.ErrorStatus | main.py:105-107 | the error status is "error: " followed by the exception message, which can be read back from it; it is never "processing" or "completed" |
| Records.ErrorStatusInjective | main.py:107 | two failures record the same status only if their messages are equal |
| Records.NewLecture | main.py:134-140 | the submitted record has the given id and title, status "processing", and an empty transcript and summary |
| Records.ApplyAll | main.py:93-107 | any sequence of writes keeps the record's id and title, and keeps its status when it holds no status write |
| Records.ApplyAllStep | main.py:96-103 | the record after p + 1 writes is the record after p writes with exactly one more field assignment |
| Polling.IsTerminal | main.py:60-62 | only 'completed' and 'error' end the loop; 'queued' and 'processing' never do |
| Polling.ErrorText | main.py:63 | the error field is rendered as it is, or as "None" when the field is missing |
| Polling.FailureMessage | main.py:62-63 | an 'error' response raises a message starting with "Transcription failed: " and followed by the response's error field ("None" when the field is missing) |
| Polling.Verdict | main.py:60-63 | a 'completed' response yields its text; an 'error' response yields a failure with that message; nothing else is terminal |
| Polling.FirstTerminal | main.py:55-65 | the position of the first response whose status is 'completed' or 'error'; every response before it is non-terminal |
| Polling.PollOutcome | main.py:55-65 | the polling result is decided by the first terminal response alone; with none, the loop is still polling |
| Polling.Poll | main.py:55-65 | the loop returns PollOutcome of the responses; it stops after the first terminal response, and it keeps polling through every non-terminal one |
| Polling.LaterResponsesIgnored | main.py:60-63 | once a terminal response is seen, appending more responses does not change the outcome |
| Polling.PendingResponsesSkipped | main.py:58-65 | any number of queued/processing responses before the others does not change the outcome |
| Polling.FailureCarriesProviderError | main.py:62-63 | a failed poll comes from an 'error' response and carries "Transcription failed: " + its error field |
| Pipeline.StageWrites | main.py:93-107 | the pipeline makes one to three writes; the status is written exactly once and last; a summary write immediately follows the transcript write; a failed transcription makes the status write the only one |
| Pipeline.Run | main.py:93-107 | the record after a full run, branch by branch as the code runs, equals the stage writes applied in order; id and title are kept and the status is never left "processing" |
| Pipeline.BothStagesSucceed | main.py:95-103 | with both stages successful, the writes are transcript, summary, then "completed", and the record ends with exactly those three fields changed |
| Pipeline.TranscriptionFails | main.py:95-107 | a transcription failure writes only the status "error: " + message; transcript and summary keep their prior values and generation is not reached |
| Pipeline.GenerationFails | main.py:96-107 | a generation failure after a successful transcription leaves the transcript written, the summary unchanged and the status "error: " + message |
| Pipeline.RunLeavesProcessing | main.py:93-107 | a full run always leaves "processing": its final status is "completed" or starts with "error: " |
| Pipeline.InFlightSnapshot | main.py:94-103 | between two writes a reader sees the unchanged id, title and status, and sees a changed summary only after the transcript was written |
| Pipeline.PolledErrorRecorded | main.py:55-107 | an 'error' polling response ends with status "error: Transcription failed: " + error field, and no other field is changed |
| Registry.Submit | main.py:129-141 | a missing file answers 404 "Audio file not found on server" and leaves the store unchanged; otherwise exactly one record is appended: id old length + 1, the title, "processing", and empty transcript and summary |
| Registry.SubmitAllAppends | main.py:133-141 | any sequence of submissions keeps earlier records, adds one record per accepted request, and keeps ids equal to positions + 1 |
| Registry.SubmittedIdsIncrease | main.py:133-141 | after any sequence of submissions to the empty store, ids are 1, 2, 3, …, and so are unique and strictly increasing in list order |
| Registry.FirstWithId | main.py:89 | the lookup returns the first position whose id matches, and none exactly when no record has that id |
| Registry.LookupById | main.py:89-91 | in a store numbered by position, id n is at position n - 1 and ids outside 1..length are absent |
| Registry.RunPipeline | main.py:83-107 | an unknown id leaves the store unchanged; otherwise only the matched record changes, and every id and title is kept |
| Registry.Snapshot | main.py:96-103 | the list after the first p writes of a run differs from the original only in the matched record, whose id and title are kept |
| Registry.SnapshotSteps | main.py:96-103 | with no writes the list is unchanged; each write moves it by one field assignment; after all writes it is RunPipeline's result |
| Registry.InFlightStore | main.py:94-103 | while a run is between two writes, a reader of the list sees other records unchanged, the matched record's status unchanged, and a changed summary only after the transcript write |
| Registry.RunPipelineKeepsIds | main.py:96-107 | a pipeline run keeps ids equal to positions + 1 |
| Registry.SubmitThenRun | main.py:133-144 | submitting then running the pipeline for the returned id leaves earlier records unchanged and ends the new record with the stages' result |
| Store.LectureStore.constructor | main.py:18 | the store starts empty |
| Store.LectureStore.ProcessLecture | main.py:121-147 | in place: the existence check precedes the append; a missing file leaves the list unchanged; otherwise the list is the old list plus the new record, the answer carries its id, and the numbering invariant is kept |
| Store.LectureStore.GetAllLectures | main.py:112-118 | returns the whole list in insertion order |
| Store.LectureStore.FindLecture | main.py:89 | the linear search finds the first record with the id, or reports that none has it |
| Store.LectureStore.WriteField | main.py:96-107 | one field assignment on the matched record: the list changes at that position only, the write is logged, and the new list is a state a reader can observe |
| Store.LectureStore.Generate | main.py:99 | the generation stage's outcome for the transcript, logged as a generation call together with the number of writes made before it |
| Store.LectureStore.RunStages | main.py:93-107 | starting from no writes, the stages make exactly the writes of StageWrites, in order; generation is called with the transcript only if transcription succeeded, right after the transcript write |
| Store.LectureStore.RunFullPipeline | main.py:83-107 | in place: the list becomes RunPipeline of the old list; the logged writes are StageWrites in order; each state a reader can see is the Snapshot after that many writes; generation is called with the transcript only if transcription succeeded, right after the transcript write; an unknown id changes nothing |
| Store.SubmitAndProcess | main.py:141-144 | a submission followed by its background run appends one record whose final state is the stages' result, and leaves every earlier record unchanged |

## Left out

- HTTP routing, response models and validation are left out. These are the app object, the route decorators, `HTTPException` and the `LectureResult` model (main.py:10, 24-29). The 404 is modelled only as the `NotFound` answer.
- The upload of the audio file, the chunked reader `read_file`, the transcription request and JSON decoding are left out (main.py:39-52, 56, 57). They are network and library code. They appear only through the transcription `Outcome`, whose `Fail` message stands for any exception they raise. This includes a network error of a polling request (main.py:56), which ends the record as "error: " followed by the request library's message; a `PollResponse` cannot express that failure.
- Polling.Poll: every response has a string `status` and a string `text`. In the code, a response without a `status` key (main.py:58), or a 'completed' response without a `text` key (main.py:61), raises KeyError. The record then ends as "error: 'status'" or "error: 'text'". The polling model does not produce these cases. The two KeyError cases are covered only as a transcription `Fail` outcome given to the pipeline. A JSON null `text` is not covered. The code returns None without raising (main.py:61), stores it as the transcript (main.py:96), calls generation on it (main.py:99) and can still set "completed" (main.py:103). No `Outcome` carries None, so the model does not produce a record whose transcript is None.
- The three-second sleep between polls is left out (main.py:65). It is a clock effect.
- The generation call and its prompt are left out: the language-model client, the prompt text and the model name (main.py:68-78). They form one foreign call, modelled as the function `generate`. The reply's `message.content` (main.py:78) can be None. The code then stores None in `summary_and_cards` (main.py:100) and still sets "completed" (main.py:103). `generate` answers `Ok` only with a string, so the model does not produce that record.
- The file-existence query (main.py:129) is the parameter `fileExists`.
- Background dispatch is left out (main.py:144). So are concurrent readers and torn reads of a record. The source has no locking. The pipeline is modelled as one sequential run. The states a reader can see between two of its writes are the class's `history`; `InFlightStore` and `InFlightSnapshot` say what they hold.
- Registry.SubmittedIdsIncrease: submissions are modelled one at a time. The endpoint reads the length (main.py:133) and appends (main.py:141) with no lock. Two concurrent submissions can read the same length, and both records then get the same id. The lookup (main.py:89) would then find the first of them for both background runs. Id uniqueness is claimed only for sequential submissions.
- The API keys (main.py:13-14) are configuration and are left out.
- The polling loop has no timeout. A provider that never reports `completed` or `error` keeps the job `"processing"` forever. The model keeps only a finite sequence of responses, where that case is `StillPolling`. The pipeline is never run on a `StillPolling` result.
- Records are dictionaries, and the pipeline mutates the one it looks up in place. Here the list holds record values, and a write replaces the element at the record's position. Aliasing of that dictionary by other holders is not modelled; the source has no such holders.
