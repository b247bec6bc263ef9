/** The server's global list of lecture records and the operations that use
    it: the submission endpoint, the listing endpoint, and the background
    pipeline that updates one record field by field. */
module Store {
  import opened Records
  import opened Pipeline
  import opened Registry

  /** One call of the generation stage: the transcript handed to it, and how
      many field writes had been made when it was called. */
  datatype GenerationCall = GenerationCall(transcript: string, afterWrites: nat)

  class LectureStore {
    /** The records, in insertion order. */
    var lectures: seq<Lecture>

    /** Every value the list has held, oldest first: the states a reader of
        the listing endpoint can observe. */
    ghost var history: seq<seq<Lecture>>

    /** Every field write made on a record, in the order made. */
    ghost var writes: seq<Write>

    /** Every call of the generation stage, in order. */
    ghost var generated: seq<GenerationCall>

    /** The numbering every operation keeps (ids are positions + 1), and the
        current list is the last state observed. */
    ghost predicate Valid()
      reads this
    {
      IdsArePositions(lectures) && history != [] && history[|history| - 1] == lectures
    }

    /** The store at server start: empty. */
    constructor ()
      ensures Valid() && lectures == []
      ensures history == [[]] && writes == [] && generated == []
    {
      lectures := [];
      history := [[]];
      writes := [];
      generated := [];
    }

    /** Submission endpoint. `fileExists` is the answer of the file-system
        query on the submitted file name; the background run of the pipeline
        that the endpoint schedules is RunFullPipeline below. */
    method ProcessLecture(title: string, fileExists: bool) returns (response: SubmitResponse)
      modifies this
      ensures Submission(lectures, response) == Submit(old(lectures), title, fileExists)
      ensures !fileExists ==> response.NotFound? && lectures == old(lectures)
      ensures fileExists ==>
                response.Started? && response.lectureId == |old(lectures)| + 1 &&
                lectures == old(lectures) + [Lecture(response.lectureId, title, Processing, "", "")]
      ensures history == old(history) + (if fileExists then [lectures] else [])
      ensures writes == old(writes) && generated == old(generated)
      ensures old(Valid()) ==> Valid()
    {
      if !fileExists {
        return NotFound(404, NotFoundDetail);
      }
      var lectureId := |lectures| + 1;
      var newLecture := Lecture(lectureId, title, Processing, "", "");
      lectures := lectures + [newLecture];
      history := history + [lectures];
      response := Started(StartedMessage, lectureId);
    }

    /** Listing endpoint: every record, in insertion order. */
    method GetAllLectures() returns (all: seq<Lecture>)
      ensures all == lectures
    {
      all := lectures;
    }

    /** The pipeline's search for the record with the given id: the first
        match in list order, or none. */
    method FindLecture(lectureId: int) returns (index: Option<nat>)
      ensures index == FirstWithId(lectures, lectureId)
      ensures index.Some? ==>
                index.value < |lectures| && lectures[index.value].id == lectureId &&
                forall j :: 0 <= j < index.value ==> lectures[j].id != lectureId
      ensures index.None? <==> forall j :: 0 <= j < |lectures| ==> lectures[j].id != lectureId
    {
      var i := 0;
      while i < |lectures|
        invariant 0 <= i <= |lectures|
        invariant forall j :: 0 <= j < i ==> lectures[j].id != lectureId
      {
        if lectures[i].id == lectureId {
          return Some(i);
        }
        i := i + 1;
      }
      return None;
    }

    /** One assignment to a field of the record at position i: the only
        place the pipeline changes the list. */
    method WriteField(i: nat, w: Write)
      requires i < |lectures|
      modifies this
      ensures lectures == old(lectures)[i := Apply(old(lectures)[i], w)]
      ensures writes == old(writes) + [w]
      ensures history == old(history) + [lectures]
      ensures generated == old(generated)
    {
      var r := lectures[i];
      match w {
        case SetTranscript(t) => r := r.(transcript := t);
        case SetSummary(a) => r := r.(summaryAndCards := a);
        case SetStatus(st) => r := r.(status := st);
      }
      lectures := lectures[i := r];
      writes := writes + [w];
      history := history + [lectures];
    }

    /** The call of the generation stage on a transcript; `generate` stands
        for the provider's answer, or the exception it raises. */
    method Generate(text: string, generate: string -> Outcome) returns (analysis: Outcome)
      modifies this
      ensures analysis == generate(text)
      ensures generated == old(generated) + [GenerationCall(text, |writes|)]
      ensures lectures == old(lectures) && history == old(history) && writes == old(writes)
    {
      analysis := generate(text);
      generated := generated + [GenerationCall(text, |writes|)];
    }

    /** A run on the record at position i, from the list db, has made the
        first p of the writes ws, one WriteField each, and nothing else. */
    ghost predicate Progress(db: seq<Lecture>, i: nat, ws: seq<Write>,
                             h0: seq<seq<Lecture>>, w0: seq<Write>, p: nat)
      reads this
    {
      i < |db| && p <= |ws| &&
      lectures == Snapshot(db, i, ws, p) && writes == w0 + ws[..p] &&
      |history| == |h0| + p && history[..|h0|] == h0 &&
      forall q :: 1 <= q <= p ==> history[|h0| + q - 1] == Snapshot(db, i, ws, q)
    }

    /** Make write p of a run. */
    method Step(i: nat, w: Write, ghost db: seq<Lecture>, ghost ws: seq<Write>,
                ghost h0: seq<seq<Lecture>>, ghost w0: seq<Write>, ghost p: nat)
      requires Progress(db, i, ws, h0, w0, p) && p < |ws| && w == ws[p]
      modifies this
      ensures Progress(db, i, ws, h0, w0, p + 1)
      ensures generated == old(generated)
    {
      ApplyAllStep(db[i], ws, p);
      WriteField(i, w);
      assert ws[..p + 1] == ws[..p] + [w];
    }

    /** The two stages on the record at position i, with the write each
        outcome calls for, in the order the pipeline makes them. */
    method RunStages(i: nat, transcription: Outcome, generate: string -> Outcome,
                     ghost db: seq<Lecture>, ghost h0: seq<seq<Lecture>>, ghost w0: seq<Write>)
      requires Progress(db, i, StageWrites(transcription, generate), h0, w0, 0)
      modifies this
      ensures var ws := StageWrites(transcription, generate);
              Progress(db, i, ws, h0, w0, |ws|)
      ensures generated == old(generated) +
                (if transcription.Ok? then [GenerationCall(transcription.text, |w0| + 1)] else [])
    {
      ghost var ws := StageWrites(transcription, generate);
      match transcription {
        case Fail(m) =>
          TranscriptionFails(db[i], m, generate);
          Step(i, SetStatus(ErrorStatus(m)), db, ws, h0, w0, 0);
        case Ok(text) =>
          Step(i, SetTranscript(text), db, ws, h0, w0, 0);
          var analysis := Generate(text, generate);
          match analysis {
            case Ok(a) =>
              BothStagesSucceed(db[i], text, a, generate);
              Step(i, SetSummary(a), db, ws, h0, w0, 1);
              Step(i, SetStatus(Completed), db, ws, h0, w0, 2);
            case Fail(m) =>
              GenerationFails(db[i], text, m, generate);
              Step(i, SetStatus(ErrorStatus(m)), db, ws, h0, w0, 1);
          }
      }
    }

    /** The background pipeline for one record. `transcription` is what the
        transcription stage returns or raises, and `generate` what the
        generation stage returns or raises for a given transcript. Every field
        write goes through WriteField, so `writes` and `history` record, in
        order, each assignment and each state of the list a reader can see. */
    method RunFullPipeline(lectureId: int, transcription: Outcome, generate: string -> Outcome)
      modifies this
      ensures lectures == RunPipeline(old(lectures), lectureId, transcription, generate)
      ensures FirstWithId(old(lectures), lectureId).None? ==>
                lectures == old(lectures) && history == old(history) &&
                writes == old(writes) && generated == old(generated)
      ensures FirstWithId(old(lectures), lectureId).Some? ==>
                var i, ws := FirstWithId(old(lectures), lectureId).value, StageWrites(transcription, generate);
                writes == old(writes) + ws &&
                generated == old(generated) +
                  (if transcription.Ok? then [GenerationCall(transcription.text, |old(writes)| + 1)] else []) &&
                |history| == |old(history)| + |ws| && history[..|old(history)|] == old(history) &&
                forall p :: 1 <= p <= |ws| ==> history[|old(history)| + p - 1] == Snapshot(old(lectures), i, ws, p)
      ensures old(Valid()) ==> Valid()
    {
      var found := FindLecture(lectureId);
      if found.None? {
        return;
      }
      var i := found.value;
      ghost var db, h0, w0 := lectures, history, writes;
      ghost var ws := StageWrites(transcription, generate);
      SnapshotSteps(db, lectureId, transcription, generate, 0);
      assert ws[..0] == [] && history[..|h0|] == h0;
      assert Progress(db, i, ws, h0, w0, 0);
      RunStages(i, transcription, generate, db, h0, w0);
      assert ws[..|ws|] == ws;
      assert lectures == RunPipeline(db, lectureId, transcription, generate);
      assert old(Valid()) ==> IdsArePositions(lectures);
    }
  }

  /** A client of the store: submit, then run the background pipeline for the
      id returned. The new record ends with the stages' result and every
      record that was there before is unchanged. */
  method SubmitAndProcess(store: LectureStore, title: string, transcription: Outcome,
                          generate: string -> Outcome)
    returns (response: SubmitResponse)
    requires store.Valid()
    modifies store
    ensures store.Valid()
    ensures response.Started? && response.lectureId == |old(store.lectures)| + 1
    ensures store.lectures ==
            old(store.lectures) + [Run(NewLecture(response.lectureId, title), transcription, generate)]
  {
    response := store.ProcessLecture(title, true);
    LookupById(store.lectures, response.lectureId);
    store.RunFullPipeline(response.lectureId, transcription, generate);
  }
}
