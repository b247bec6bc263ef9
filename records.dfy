/** The lecture record kept by the in-memory store, the abstract outcome of a
    provider call, and the field writes the background pipeline performs on a
    record. */
module Records {

  datatype Option<T> = None | Some(value: T)

  /** One entry of the in-memory store: the dictionary with keys
      id, title, status, transcript and summary_and_cards. */
  datatype Lecture = Lecture(
    id: int,
    title: string,
    status: string,
    transcript: string,
    summaryAndCards: string)

  /** What a provider call (transcription or generation) comes back with:
      its text, or the message of the exception it raised. */
  datatype Outcome = Ok(text: string) | Fail(msg: string)

  /** One assignment to a field of a lecture record. */
  datatype Write =
    | SetTranscript(transcript: string)
    | SetSummary(summaryAndCards: string)
    | SetStatus(status: string)

  const Processing: string := "processing"
  const Completed: string := "completed"
  const ErrorPrefix: string := "error: "

  /** The status a failed pipeline records: "error: " followed by the message. */
  function ErrorStatus(msg: string): (s: string)
    ensures s != Processing && s != Completed
    ensures |s| == |ErrorPrefix| + |msg|
    ensures s[..|ErrorPrefix|] == ErrorPrefix && s[|ErrorPrefix|..] == msg
  {
    var s := ErrorPrefix + msg;
    assert s[0] == 'e' != Processing[0] && s[0] != Completed[0];
    s
  }

  /** Two failures record the same status only if their messages agree. */
  lemma ErrorStatusInjective(m1: string, m2: string)
    requires ErrorStatus(m1) == ErrorStatus(m2)
    ensures m1 == m2
  {
  }

  /** The record a successful submission appends: the given id and title,
      status "processing", and nothing derived yet. */
  function NewLecture(id: int, title: string): (r: Lecture)
    ensures r.id == id && r.title == title && r.status == Processing
    ensures r.transcript == "" && r.summaryAndCards == ""
  {
    Lecture(id, title, Processing, "", "")
  }

  /** The effect of one write: the dictionary assignment of one field. */
  function Apply(r: Lecture, w: Write): (r': Lecture)
    ensures r'.id == r.id && r'.title == r.title
  {
    match w
    case SetTranscript(t) => r.(transcript := t)
    case SetSummary(a) => r.(summaryAndCards := a)
    case SetStatus(s) => r.(status := s)
  }

  /** The record after a sequence of writes, applied in order. */
  function ApplyAll(r: Lecture, ws: seq<Write>): (r': Lecture)
    ensures r'.id == r.id && r'.title == r.title
    ensures (forall k :: 0 <= k < |ws| ==> !ws[k].SetStatus?) ==> r'.status == r.status
    decreases |ws|
  {
    if ws == [] then r else ApplyAll(Apply(r, ws[0]), ws[1..])
  }

  /** Applying a concatenation applies its parts one after the other. */
  lemma {:induction false} ApplyAllAppend(r: Lecture, a: seq<Write>, b: seq<Write>)
    ensures ApplyAll(r, a + b) == ApplyAll(ApplyAll(r, a), b)
    decreases |a|
  {
    if a == [] {
      assert a + b == b;
    } else {
      assert (a + b)[1..] == a[1..] + b;
      ApplyAllAppend(Apply(r, a[0]), a[1..], b);
    }
  }

  /** The record after the first p + 1 writes is the record after the first p
      writes with write p applied: what each single assignment adds. */
  lemma ApplyAllStep(r: Lecture, ws: seq<Write>, p: nat)
    requires p < |ws|
    ensures ApplyAll(r, ws[..p + 1]) == Apply(ApplyAll(r, ws[..p]), ws[p])
  {
    assert ws[..p + 1] == ws[..p] + [ws[p]];
    ApplyAllAppend(r, ws[..p], [ws[p]]);
    assert ApplyAll(ApplyAll(r, ws[..p]), [ws[p]]) ==
           ApplyAll(Apply(ApplyAll(r, ws[..p]), ws[p]), []);
  }
}
