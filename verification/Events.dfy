/** File statuses and the events the services commit with them. */
module Events {

  datatype Status = Pending | Processing | Ready | Failed | Quarantined

  /** The subjects under file.* that concern one file. A file.ready row carries a category exactly when
      the pipeline wrote it (pipeline.py:193-203) and none when a confirm did (file.py:302-311). */
  datatype Event =
    | UploadInitiated
    | Uploaded
    | FileReady(classified: bool)
    | FileQuarantined
    | ProcessingFailed
    | Restored
    | Deleted

  /** How the pipeline's stages ended for a file (pipeline.py:142-210). */
  datatype Verdict = Clean | Infected | Mismatch

  function EventOf(v: Verdict): Event {
    match v
    case Clean => FileReady(true)
    case Infected => FileQuarantined
    case Mismatch => ProcessingFailed
  }

  function StatusOf(v: Verdict): Status {
    match v
    case Clean => Ready
    case Infected => Quarantined
    case Mismatch => Failed
  }

  /** The status an event announces; a deletion announces none. */
  predicate Announces(e: Event) { !e.Deleted? }

  function Announced(e: Event): Status
    requires Announces(e)
  {
    match e
    case UploadInitiated => Pending
    case Uploaded => Processing
    case FileReady(_) => Ready
    case FileQuarantined => Quarantined
    case ProcessingFailed => Failed
    case Restored => Ready
  }

  /** The events by which a pipeline run records its result. */
  predicate IsOutcome(e: Event) {
    e == FileReady(true) || e == FileQuarantined || e == ProcessingFailed
  }

  /** A committed outbox row: the file it concerns and the event. */
  datatype Row = Row(file: nat, event: Event)

  /** What a consumer that applies every event of the file in commit order believes its status is. */
  function Replay(log: seq<Row>, f: nat): Status {
    if log == [] then Pending
    else
      var last := log[|log| - 1];
      if last.file == f && Announces(last.event) then Announced(last.event) else Replay(log[..|log| - 1], f)
  }

  /** Index of the file's newest file.uploaded row, or -1. */
  function NewestUpload(log: seq<Row>, f: nat): (i: int)
    ensures -1 <= i < |log|
    ensures i >= 0 ==> log[i] == Row(f, Uploaded)
  {
    if log == [] then -1
    else if log[|log| - 1] == Row(f, Uploaded) then |log| - 1
    else NewestUpload(log[..|log| - 1], f)
  }

  /** The file has an upload whose outcome has not been recorded yet. */
  predicate AwaitsOutcome(log: seq<Row>, f: nat) {
    if log == [] then false
    else
      var last := log[|log| - 1];
      if last.file == f && last.event == Uploaded then true
      else if last.file == f && IsOutcome(last.event) then false
      else AwaitsOutcome(log[..|log| - 1], f)
  }

  function CountUploads(log: seq<Row>, f: nat): nat {
    if log == [] then 0
    else (if log[|log| - 1] == Row(f, Uploaded) then 1 else 0) + CountUploads(log[..|log| - 1], f)
  }

  function CountOutcomes(log: seq<Row>, f: nat): nat {
    if log == [] then 0
    else
      var last := log[|log| - 1];
      (if last.file == f && IsOutcome(last.event) then 1 else 0) + CountOutcomes(log[..|log| - 1], f)
  }

  /** Every recorded outcome of the file answers an upload of it that no earlier outcome answered. */
  ghost predicate OutcomesAnswerUploads(log: seq<Row>, f: nat) {
    forall i :: 0 <= i < |log| && log[i].file == f && IsOutcome(log[i].event) ==> AwaitsOutcome(log[..i], f)
  }

  /** Appending one row, seen by each of the readings above. */
  lemma AppendRow(log: seq<Row>, row: Row, f: nat)
    ensures var log' := log + [row];
      && Replay(log', f) == (if row.file == f && Announces(row.event) then Announced(row.event) else Replay(log, f))
      && NewestUpload(log', f) == (if row == Row(f, Uploaded) then |log| else NewestUpload(log, f))
      && AwaitsOutcome(log', f) == (if row == Row(f, Uploaded) then true
                                    else if row.file == f && IsOutcome(row.event) then false
                                    else AwaitsOutcome(log, f))
  {
  }

  lemma AppendKeepsAnswers(log: seq<Row>, row: Row, f: nat)
    requires OutcomesAnswerUploads(log, f)
    requires row.file == f && IsOutcome(row.event) ==> AwaitsOutcome(log, f)
    ensures OutcomesAnswerUploads(log + [row], f)
  {
    var log' := log + [row];
    forall i | 0 <= i < |log'| && log'[i].file == f && IsOutcome(log'[i].event) ensures AwaitsOutcome(log'[..i], f) {
      assert log'[..i] == log[..i];
    }
  }

  /** Then there are never more outcomes than uploads, and one fewer while an upload is unanswered. */
  lemma {:induction false} OutcomesBounded(log: seq<Row>, f: nat)
    requires OutcomesAnswerUploads(log, f)
    ensures CountOutcomes(log, f) + (if AwaitsOutcome(log, f) then 1 else 0) <= CountUploads(log, f)
  {
    if log != [] {
      var front := log[..|log| - 1];
      forall i | 0 <= i < |front| && front[i].file == f && IsOutcome(front[i].event)
        ensures AwaitsOutcome(front[..i], f)
      {
        assert front[..i] == log[..i] && front[i] == log[i];
      }
      OutcomesBounded(front, f);
    }
  }

  /** Rows of other files do not count. */
  lemma {:induction false} CountOutcomesOthers(log: seq<Row>, log': seq<Row>, f: nat)
    requires log <= log' && forall i :: |log| <= i < |log'| ==> log'[i].file != f
    ensures CountOutcomes(log', f) == CountOutcomes(log, f)
  {
    if log' != log {
      CountOutcomesOthers(log, log'[..|log'| - 1], f);
    }
  }
}
