/** The in-memory store of lectures as a value: the list of records in
    insertion order, what a submission does to it, how a record is found by id,
    and what a pipeline run does to it. The class in module Store performs
    these same changes in place. */
module Registry {
  import opened Records
  import opened Pipeline

  /** The answer to a submission: the started message with the new id, or the
      404 error raised when the audio file does not exist. */
  datatype SubmitResponse =
    | Started(message: string, lectureId: int)
    | NotFound(statusCode: int, detail: string)

  /** The store after a submission, and the submission's answer. */
  datatype Submission = Submission(lectures: seq<Lecture>, response: SubmitResponse)

  /** One submission request: a title and whether its audio file exists. */
  datatype Request = Request(title: string, fileExists: bool)

  const StartedMessage: string := "Processing started"
  const NotFoundDetail: string := "Audio file not found on server"

  /** Every record's id is its position plus one: what a store that only ever
      appends, numbering each record by the length before it, looks like. */
  ghost predicate IdsArePositions(db: seq<Lecture>)
  {
    forall i :: 0 <= i < |db| ==> db[i].id == i + 1
  }

  /** Submission: the existence check comes first; only then is the next id
      taken and a fresh "processing" record appended. */
  function Submit(db: seq<Lecture>, title: string, fileExists: bool): (s: Submission)
    ensures s.response.NotFound? <==> !fileExists
    ensures s.response.NotFound? ==>
              s.lectures == db && s.response.statusCode == 404 &&
              s.response.detail == NotFoundDetail
    ensures s.response.Started? ==>
              s.response.lectureId == |db| + 1 &&
              |s.lectures| == |db| + 1 && s.lectures[..|db|] == db &&
              s.lectures[|db|] == Lecture(|db| + 1, title, Processing, "", "")
  {
    if !fileExists then
      Submission(db, NotFound(404, NotFoundDetail))
    else
      var lectureId := |db| + 1;
      Submission(db + [NewLecture(lectureId, title)], Started(StartedMessage, lectureId))
  }

  /** The store after a sequence of submissions, one after the other. */
  function SubmitAll(db: seq<Lecture>, reqs: seq<Request>): seq<Lecture>
    decreases |reqs|
  {
    if reqs == [] then db
    else SubmitAll(Submit(db, reqs[0].title, reqs[0].fileExists).lectures, reqs[1..])
  }

  /** How many requests of a sequence name an existing file. */
  function Accepted(reqs: seq<Request>): nat
  {
    if reqs == [] then 0 else (if reqs[0].fileExists then 1 else 0) + Accepted(reqs[1..])
  }

  /** Submissions only append: the earlier records stay as they are, one
      record is added per accepted request, and ids stay positions + 1. */
  lemma {:induction false} SubmitAllAppends(db: seq<Lecture>, reqs: seq<Request>)
    requires IdsArePositions(db)
    ensures var db' := SubmitAll(db, reqs);
            |db'| == |db| + Accepted(reqs) && db'[..|db|] == db && IdsArePositions(db')
    decreases |reqs|
  {
    if reqs != [] {
      var s := Submit(db, reqs[0].title, reqs[0].fileExists).lectures;
      SubmitAllAppends(s, reqs[1..]);
      var db' := SubmitAll(s, reqs[1..]);
      assert db'[..|db|] == db'[..|s|][..|db|];
    }
  }

  /** After any sequence of submissions to an empty store, ids are unique and
      strictly increasing in list order. */
  lemma SubmittedIdsIncrease(reqs: seq<Request>)
    ensures var db := SubmitAll([], reqs);
            |db| == Accepted(reqs) &&
            (forall i :: 0 <= i < |db| ==> db[i].id == i + 1) &&
            (forall i, j :: 0 <= i < j < |db| ==> db[i].id < db[j].id)
  {
    SubmitAllAppends([], reqs);
  }

  /** The lookup of the pipeline: the position of the first record with the
      given id, if any. */
  function FirstWithId(db: seq<Lecture>, id: int): (r: Option<nat>)
    ensures r.Some? ==>
              r.value < |db| && db[r.value].id == id &&
              forall j :: 0 <= j < r.value ==> db[j].id != id
    ensures r.None? <==> forall j :: 0 <= j < |db| ==> db[j].id != id
  {
    if db == [] then None
    else if db[0].id == id then Some(0)
    else match FirstWithId(db[1..], id)
      case None => None
      case Some(k) => Some(k + 1)
  }

  /** In a store whose ids are positions + 1, id n is found at position n - 1,
      and ids outside 1..|db| are absent. */
  lemma LookupById(db: seq<Lecture>, id: int)
    requires IdsArePositions(db)
    ensures FirstWithId(db, id) == if 1 <= id <= |db| then Some(id - 1) else None
  {
    if 1 <= id <= |db| {
      assert db[id - 1].id == id;
    }
  }

  /** A pipeline run on the store: nothing happens for an unknown id; otherwise
      the matched record goes through the stage writes and no other record
      changes. */
  function RunPipeline(db: seq<Lecture>, id: int, transcription: Outcome, generate: string -> Outcome)
    : (db': seq<Lecture>)
    ensures |db'| == |db|
    ensures FirstWithId(db, id).None? ==> db' == db
    ensures forall j :: 0 <= j < |db| && FirstWithId(db, id) != Some(j) ==> db'[j] == db[j]
    ensures forall j :: 0 <= j < |db| ==> db'[j].id == db[j].id && db'[j].title == db[j].title
  {
    match FirstWithId(db, id)
    case None => db
    case Some(i) => db[i := Run(db[i], transcription, generate)]
  }

  /** The list a reader sees after the first p writes of a run on the record
      at position i. */
  function Snapshot(db: seq<Lecture>, i: nat, ws: seq<Write>, p: nat): (s: seq<Lecture>)
    requires i < |db| && p <= |ws|
    ensures |s| == |db| && s[i].id == db[i].id && s[i].title == db[i].title
    ensures forall j :: 0 <= j < |db| && j != i ==> s[j] == db[j]
  {
    db[i := ApplyAll(db[i], ws[..p])]
  }

  /** Each write moves the reader's view by exactly one field assignment; no
      write at all is the list as it was, and all of a run's writes give the
      list RunPipeline describes. */
  lemma SnapshotSteps(db: seq<Lecture>, id: int, transcription: Outcome, generate: string -> Outcome, p: nat)
    requires FirstWithId(db, id).Some?
    requires p < |StageWrites(transcription, generate)|
    ensures var i, ws := FirstWithId(db, id).value, StageWrites(transcription, generate);
            Snapshot(db, i, ws, 0) == db &&
            Snapshot(db, i, ws, p + 1) ==
              Snapshot(db, i, ws, p)[i := Apply(Snapshot(db, i, ws, p)[i], ws[p])] &&
            Snapshot(db, i, ws, |ws|) == RunPipeline(db, id, transcription, generate)
  {
    var i, ws := FirstWithId(db, id).value, StageWrites(transcription, generate);
    assert ws[..0] == [];
    assert ws[..|ws|] == ws;
    ApplyAllStep(db[i], ws, p);
  }

  /** What a reader of the list sees while a run is between two writes: other
      records untouched, the matched record still in its prior status, and a
      changed summary only once the transcript has been written. */
  lemma InFlightStore(db: seq<Lecture>, id: int, transcription: Outcome, generate: string -> Outcome, p: nat)
    requires FirstWithId(db, id).Some?
    requires p < |StageWrites(transcription, generate)|
    ensures var i, ws := FirstWithId(db, id).value, StageWrites(transcription, generate);
            var s := Snapshot(db, i, ws, p);
            (forall j :: 0 <= j < |db| && j != i ==> s[j] == db[j]) &&
            s[i].status == db[i].status &&
            (s[i].summaryAndCards != db[i].summaryAndCards ==>
               transcription.Ok? && s[i].transcript == transcription.text)
  {
    InFlightSnapshot(db[FirstWithId(db, id).value], transcription, generate, p);
  }

  /** A pipeline run keeps the store's numbering. */
  lemma RunPipelineKeepsIds(db: seq<Lecture>, id: int, transcription: Outcome, generate: string -> Outcome)
    requires IdsArePositions(db)
    ensures IdsArePositions(RunPipeline(db, id, transcription, generate))
  {
  }

  /** Submitting and then running the pipeline for the returned id leaves the
      earlier records as they were and the new record as the stages made it. */
  lemma SubmitThenRun(db: seq<Lecture>, title: string, transcription: Outcome, generate: string -> Outcome)
    requires IdsArePositions(db)
    ensures var s := Submit(db, title, true);
            s.response.Started? &&
            RunPipeline(s.lectures, s.response.lectureId, transcription, generate) ==
            db + [Run(NewLecture(|db| + 1, title), transcription, generate)]
  {
  }
}
