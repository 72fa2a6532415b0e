/** backend/app/processing/pipeline.py: one pipeline run over a file row and the outbox. */
module Pipeline {
  import opened Options
  import opened Events

  datatype StageResult = StageResult(passed: bool, reason: Option<string>, category: Option<string>)

  /** What awaiting a stage's run() gives. */
  datatype Reply = Raises | Returns(result: StageResult)

  datatype Stage = Stage(name: string, reply: Reply)

  predicate Passes(stage: Stage) {
    stage.reply.Returns? && stage.reply.result.passed
  }

  /** Index of the first stage that does not pass. */
  function StopAt(stages: seq<Stage>): (k: nat)
    ensures k <= |stages|
    ensures forall i :: 0 <= i < k ==> Passes(stages[i])
    ensures k < |stages| ==> !Passes(stages[k])
  {
    if stages == [] || !Passes(stages[0]) then 0 else 1 + StopAt(stages[1..])
  }

  /** All stages before the k-th pass, and the k-th, if there is one, does not. */
  predicate StopsAt(stages: seq<Stage>, k: nat) {
    && k <= |stages| && (forall i :: 0 <= i < k ==> stages[i].reply.Returns? && stages[i].reply.result.passed)
    && (k < |stages| ==> stages[k].reply.Raises? || !stages[k].reply.result.passed)
  }

  lemma StopsOnce(stages: seq<Stage>)
    ensures forall k: nat :: StopsAt(stages, k) <==> k == StopAt(stages)
  {
  }

  /** The last category any of the stages returned. */
  function LastCategory(stages: seq<Stage>): Option<string> {
    if stages == [] then None
    else
      var last := stages[|stages| - 1];
      if last.reply.Returns? && last.reply.result.category.Some? then last.reply.result.category
      else LastCategory(stages[..|stages| - 1])
  }

  predicate Silent(stage: Stage) {
    stage.reply.Returns? ==> stage.reply.result.category == None
  }

  /** The i-th stage returned the category, and none after it returned any. */
  predicate ReportedLast(stages: seq<Stage>, i: nat, c: string) {
    && i < |stages| && stages[i].reply.Returns? && stages[i].reply.result.category == Some(c)
    && forall j :: i < j < |stages| ==> Silent(stages[j])
  }

  /** There is no category exactly when no stage returned one; otherwise it is the one returned last. */
  lemma {:induction false} LastCategoryExactly(stages: seq<Stage>)
    ensures LastCategory(stages) == None <==> forall i :: 0 <= i < |stages| ==> Silent(stages[i])
    ensures forall c :: LastCategory(stages) == Some(c) ==> exists i: nat :: ReportedLast(stages, i, c)
  {
    if stages != [] {
      var n := |stages| - 1;
      LastCategoryExactly(stages[..n]);
      if Silent(stages[n]) {
        assert forall i :: 0 <= i < n ==> stages[i] == stages[..n][i];
        if LastCategory(stages).Some? {
          var c := LastCategory(stages).value;
          var i: nat :| ReportedLast(stages[..n], i, c);
          assert ReportedLast(stages, i, c);
        }
      } else {
        assert ReportedLast(stages, n, stages[n].reply.result.category.value);
      }
    }
  }

  /** The stages that ran and returned. */
  function Ran(stages: seq<Stage>): seq<Stage> {
    if StopAt(stages) < |stages| then stages[..StopAt(stages) + 1] else stages
  }

  /** How the run is judged: None when a stage raised. */
  function Judge(stages: seq<Stage>): Option<Verdict> {
    var k := StopAt(stages);
    if k == |stages| then Some(Clean)
    else if stages[k].reply.Raises? then None
    else if stages[k].name == "virus_scan" then Some(Infected)
    else if stages[k].reply.result.reason.Some? then Some(Mismatch)
    else Some(Clean)
  }

  /** The stage loop of _execute. */
  method RunStages(stages: seq<Stage>)
    returns (raised: bool, category: Option<string>, quarantined: bool, failedReason: Option<string>)
    ensures raised <==> Judge(stages) == None
    ensures !raised ==> quarantined == (Judge(stages) == Some(Infected))
    ensures !raised ==> (failedReason.Some? <==> Judge(stages) == Some(Mismatch))
    ensures !raised ==> category == LastCategory(Ran(stages))
    ensures raised <==> exists k: nat :: StopsAt(stages, k) && k < |stages| && stages[k].reply.Raises?
    ensures quarantined <==> exists k: nat :: StopsAt(stages, k) && k < |stages| && stages[k].reply.Returns?
                                         && stages[k].name == "virus_scan"
    ensures forall k: nat :: StopsAt(stages, k) ==>
              failedReason == if k < |stages| && stages[k].reply.Returns? && stages[k].name != "virus_scan"
                              then stages[k].reply.result.reason else None
  {
    StopsOnce(stages);
    raised, category, quarantined, failedReason := false, None, false, None;
    var i := 0;
    while i < |stages|
      invariant i <= StopAt(stages)
      invariant !quarantined && failedReason == None && !raised
      invariant category == LastCategory(stages[..i])
    {
      var stage := stages[i];
      assert stages[..i + 1][..i] == stages[..i];
      if stage.reply.Raises? {
        raised := true;
        return;
      }
      if stage.reply.result.category.Some? {
        category := stage.reply.result.category;
      }
      if !stage.reply.result.passed {
        if stage.name == "virus_scan" {
          quarantined := true;
        } else {
          failedReason := stage.reply.result.reason;
        }
        break;
      }
      i := i + 1;
    }
    if i == |stages| {
      assert stages[..i] == stages;
    }
  }

  datatype FileRecord = FileRecord(status: Status, deleted: bool, category: Option<string>)

  /** Which of the run's own awaits raise: the first read, the steps from config to download, the final
      commit, and the transaction of _mark_failed. */
  datatype Faults = Faults(read: bool, load: bool, commit: bool, mark: bool)

  type Files = map<nat, FileRecord>

  /** An empty category is never stored. */
  predicate Stores(category: Option<string>) {
    category.Some? && category.value != ""
  }

  /** status := failed with its event, unless that transaction fails too. */
  ghost predicate Marked(was: Files, log: seq<Row>, now: Files, log': seq<Row>, f: nat, faults: Faults)
    requires f in was
  {
    if faults.mark then now == was && log' == log
    else now == was[f := was[f].(status := Failed)] && log' == log + [Row(f, ProcessingFailed)]
  }

  /** The whole effect of PipelineExecutor.run. */
  ghost predicate RunEffect(was: Files, log: seq<Row>, now: Files, log': seq<Row>, f: nat, stages: seq<Stage>,
                            faults: Faults) {
    if f !in was || was[f].deleted then now == was && log' == log
    else if faults.read then Marked(was, log, now, log', f, faults)
    else if was[f].status != Processing then now == was && log' == log
    else if faults.load || Judge(stages) == None || faults.commit then Marked(was, log, now, log', f, faults)
    else
      var v := Judge(stages).value;
      var c := LastCategory(Ran(stages));
      now == was[f := was[f].(status := StatusOf(v), category := if Stores(c) then c else was[f].category)]
      && log' == log + [Row(f, EventOf(v))]
  }

  class Database {
    var files: Files
    var outbox: seq<Row>

    /** _execute; false when an exception leaves it. */
    method Execute(f: nat, stages: seq<Stage>, faults: Faults) returns (ok: bool)
      modifies this
      ensures !ok ==> files == old(files) && outbox == old(outbox)
      ensures ok <==> f in old(files) && !old(files)[f].deleted && !faults.read
                      && (old(files)[f].status == Processing ==>
                            !faults.load && Judge(stages) != None && !faults.commit)
      ensures ok ==> RunEffect(old(files), old(outbox), files, outbox, f, stages, faults)
    {
      if faults.read || f !in files || files[f].deleted {
        return false;
      }
      var file := files[f];
      if file.status != Processing {
        return true;
      }
      if faults.load {
        return false;
      }
      var raised, category, quarantined, failedReason := RunStages(stages);
      if raised {
        return false;
      }
      var event;
      if quarantined {
        file := file.(status := Quarantined);
        event := FileQuarantined;
      } else if failedReason.Some? {
        file := file.(status := Failed);
        event := ProcessingFailed;
      } else {
        file := file.(status := Ready);
        event := FileReady(true);
      }
      if Stores(category) {
        file := file.(category := category);
      }
      if faults.commit {
        return false;
      }
      files, outbox := files[f := file], outbox + [Row(f, event)];
      return true;
    }

    /** _mark_failed: swallows every exception of its own. */
    method MarkFailed(f: nat, faults: Faults)
      modifies this
      ensures f !in old(files) || old(files)[f].deleted ==> files == old(files) && outbox == old(outbox)
      ensures f in old(files) && !old(files)[f].deleted ==> Marked(old(files), old(outbox), files, outbox, f, faults)
    {
      if f in files && !files[f].deleted && !faults.mark {
        files, outbox := files[f := files[f].(status := Failed)], outbox + [Row(f, ProcessingFailed)];
      }
    }

    /** run on the stages that _execute builds. Files that are missing, deleted or, if the read holds, out of processing
        stay as they are. */
    method Process(f: nat, scanEnabled: bool, scan: Reply, mime: Reply, category: string, faults: Faults)
      modifies this
      ensures f !in old(files) || old(files)[f].deleted || (!faults.read && old(files)[f].status != Processing) ==>
                files == old(files) && outbox == old(outbox)
      ensures RunEffect(old(files), old(outbox), files, outbox, f, StageList(scanEnabled, scan, mime, category), faults)
      ensures f in old(files) && !old(files)[f].deleted && old(files)[f].status == Processing ==>
        && f in files
        && (files[f].status == Ready ==> !scanEnabled || (scan.Returns? && scan.result.passed))
        && files == old(files)[f := old(files)[f].(status := files[f].status, category := files[f].category)]
        && (!faults.read && !faults.load && !faults.commit && !faults.mark ==>
              if scanEnabled && scan.Returns? && !scan.result.passed
              then files[f].status == Quarantined && outbox == old(outbox) + [Row(f, FileQuarantined)]
              else if (scanEnabled && scan.Raises?) || mime.Raises? || (!mime.result.passed && mime.result.reason.Some?)
              then files[f].status == Failed && outbox == old(outbox) + [Row(f, ProcessingFailed)]
              else files[f].status == Ready && outbox == old(outbox) + [Row(f, FileReady(true))])
    {
      Run(f, StageList(scanEnabled, scan, mime, category), faults);
      if f in old(files) && !old(files)[f].deleted && old(files)[f].status == Processing {
        ReadyMeansScanned(old(files), old(outbox), files, outbox, f, scanEnabled, scan, mime, category, faults);
        if !faults.read && !faults.load && !faults.commit && !faults.mark {
          OutcomeOfStages(old(files), old(outbox), files, outbox, f, scanEnabled, scan, mime, category, faults);
        }
      }
    }

    /** run: nothing is raised; an active file leaves status processing unless _mark_failed was needed and
        lost its transaction. */
    method Run(f: nat, stages: seq<Stage>, faults: Faults)
      modifies this
      ensures RunEffect(old(files), old(outbox), files, outbox, f, stages, faults)
      ensures f in old(files) && !old(files)[f].deleted ==>
        (f in files && (files[f].status == Processing
                        <==> old(files)[f].status == Processing && faults.mark
                             && (faults.read || faults.load || faults.commit || Judge(stages) == None)))
    {
      var ok := Execute(f, stages, faults);
      if !ok {
        MarkFailed(f, faults);
      }
    }
  }

  /** The stages _execute builds; only classification reports a category, and it always passes. */
  function StageList(scanEnabled: bool, scan: Reply, mime: Reply, category: string): seq<Stage> {
    (if scanEnabled then [Stage("virus_scan", scan)] else [])
    + [Stage("mime_validation", mime),
       Stage("classification", Returns(StageResult(true, None, Some(category))))]
  }

  predicate Uncategorised(r: Reply) {
    r.Returns? ==> r.result.category == None
  }

  /** How the stage answers decide the verdict: an enabled virus scan speaks first; a failing MIME check
      counts only if it gives a reason, and otherwise the file is recorded as ready. */
  lemma VerdictOfStages(scanEnabled: bool, scan: Reply, mime: Reply, category: string)
    ensures var v := Judge(StageList(scanEnabled, scan, mime, category));
      && (v == None <==> (scanEnabled && scan.Raises?)
                         || ((!scanEnabled || (scan.Returns? && scan.result.passed)) && mime.Raises?))
      && (v == Some(Infected) <==> scanEnabled && scan.Returns? && !scan.result.passed)
      && (v == Some(Mismatch) <==> (!scanEnabled || (scan.Returns? && scan.result.passed))
                                   && mime.Returns? && !mime.result.passed && mime.result.reason.Some?)
  {
    var stages := StageList(scanEnabled, scan, mime, category);
    if scanEnabled {
      assert stages[0] == Stage("virus_scan", scan);
      assert stages[1] == Stage("mime_validation", mime);
    } else {
      assert stages[0] == Stage("mime_validation", mime);
    }
    assert "mime_validation"[0] != "virus_scan"[0];
  }

  /** A category is stored exactly when every stage passed: a file that is quarantined or fails its MIME
      check keeps the category it had. */
  lemma CategoryExactly(scanEnabled: bool, scan: Reply, mime: Reply, category: string)
    requires Uncategorised(scan) && Uncategorised(mime)
    requires Judge(StageList(scanEnabled, scan, mime, category)) != None
    ensures var stages := StageList(scanEnabled, scan, mime, category);
      LastCategory(Ran(stages)) == if StopAt(stages) == |stages| then Some(category) else None
  {
    var stages := StageList(scanEnabled, scan, mime, category);
    var n := |stages|;
    assert Passes(stages[n - 1]);
    assert stages[n - 2] == Stage("mime_validation", mime);
    if StopAt(stages) == n {
    } else {
      assert forall i :: 0 <= i < n - 1 ==> Uncategorised(stages[i].reply);
      NoCategory(Ran(stages));
    }
  }

  // ---- What a run does to the file, stage by stage ----

  /** The scan is off, or it returned and passed. */
  predicate ScanClear(scanEnabled: bool, scan: Reply) {
    !scanEnabled || (scan.Returns? && scan.result.passed)
  }

  /** For an active file in processing and a run whose reads and transactions hold: an enabled scan that returns and
      does not pass quarantines the file; otherwise a MIME check that fails with a reason fails it; otherwise, when no
      stage raises, it is ready, with the category if that is not empty; and a stage that raises fails it. */
  lemma OutcomeOfStages(was: Files, log: seq<Row>, now: Files, log': seq<Row>, f: nat, scanEnabled: bool, scan: Reply,
                        mime: Reply, category: string, faults: Faults)
    requires RunEffect(was, log, now, log', f, StageList(scanEnabled, scan, mime, category), faults)
    requires f in was && !was[f].deleted && was[f].status == Processing
    requires !faults.read && !faults.load && !faults.commit && !faults.mark
    ensures f in now && now == was[f := was[f].(status := now[f].status, category := now[f].category)]
    ensures scanEnabled && scan.Returns? && !scan.result.passed ==>
              now[f].status == Quarantined && log' == log + [Row(f, FileQuarantined)]
    ensures ScanClear(scanEnabled, scan) && mime.Returns? && !mime.result.passed && mime.result.reason.Some? ==>
              now[f].status == Failed && log' == log + [Row(f, ProcessingFailed)]
    ensures ScanClear(scanEnabled, scan) && mime.Returns? && (mime.result.passed || mime.result.reason.None?) ==>
              now[f].status == Ready && log' == log + [Row(f, FileReady(true))]
    ensures (scanEnabled && scan.Raises?) || (ScanClear(scanEnabled, scan) && mime.Raises?) ==>
              now[f].status == Failed && log' == log + [Row(f, ProcessingFailed)]
    ensures Uncategorised(scan) && Uncategorised(mime) ==>
              now[f].category
              == if ScanClear(scanEnabled, scan) && mime.Returns? && mime.result.passed && category != ""
                 then Some(category) else was[f].category
  {
    VerdictOfStages(scanEnabled, scan, mime, category);
    var stages := StageList(scanEnabled, scan, mime, category);
    if Judge(stages).Some? && Uncategorised(scan) && Uncategorised(mime) {
      CategoryExactly(scanEnabled, scan, mime, category);
      AllPassed(scanEnabled, scan, mime, category);
    }
  }

  lemma AllPassed(scanEnabled: bool, scan: Reply, mime: Reply, category: string)
    ensures var stages := StageList(scanEnabled, scan, mime, category);
      StopAt(stages) == |stages| <==> ScanClear(scanEnabled, scan) && mime.Returns? && mime.result.passed
  {
    var stages := StageList(scanEnabled, scan, mime, category);
    var n := |stages|;
    assert stages[n - 1] == Stage("classification", Returns(StageResult(true, None, Some(category))));
    assert stages[n - 2] == Stage("mime_validation", mime);
    assert scanEnabled ==> stages[0] == Stage("virus_scan", scan);
    assert Passes(stages[n - 1]);
  }

  /** Whatever fails: a file that a run takes from processing to ready was not scanned because the scan is off, or
      the scan returned and passed; and one that it quarantines was scanned and did not pass. */
  lemma ReadyMeansScanned(was: Files, log: seq<Row>, now: Files, log': seq<Row>, f: nat, scanEnabled: bool,
                          scan: Reply, mime: Reply, category: string, faults: Faults)
    requires RunEffect(was, log, now, log', f, StageList(scanEnabled, scan, mime, category), faults)
    requires f in was && was[f].status == Processing
    ensures f in now && now == was[f := was[f].(status := now[f].status, category := now[f].category)]
    ensures now[f].status == Ready ==> !scanEnabled || (scan.Returns? && scan.result.passed)
    ensures now[f].status == Quarantined ==> scanEnabled && scan.Returns? && !scan.result.passed
    ensures now[f].status in {Processing, Ready, Failed, Quarantined}
  {
    VerdictOfStages(scanEnabled, scan, mime, category);
  }

  lemma {:induction false} NoCategory(stages: seq<Stage>)
    requires forall i :: 0 <= i < |stages| ==> Uncategorised(stages[i].reply)
    ensures LastCategory(stages) == None
  {
    if stages != [] {
      NoCategory(stages[..|stages| - 1]);
    }
  }
}

/** A whole pipeline run, uninterrupted, is one of the protocol's handler sequences. */
module PipelineInProtocol {
  import opened Options
  import opened Events
  import opened Pipeline
  import opened Delivery
  import opened DeliverySafety

  ghost predicate Mirrors(files: Files, outbox: seq<Row>, s: State) {
    s.log == outbox && s.files.Keys == files.Keys
    && forall f :: f in files ==> s.files[f] == File(files[f].status, files[f].deleted)
  }

  /** The handler steps a run consists of. */
  function StepsOf(file: FileRecord, k: nat, stages: seq<Stage>, faults: Faults): seq<Handler> {
    var mark := if faults.mark && !file.deleted then LoseFailure(k) else MarkFailed(k);
    if file.deleted then [Read(k), mark]
    else if faults.read then [ReadFails(k), mark]
    else if file.status != Processing then [Read(k)]
    else if faults.load || Judge(stages) == None || faults.commit then [Read(k), StagesFail(k), mark]
    else [Read(k), Conclude(k, Judge(stages).value)]
  }

  ghost predicate Carried(s: State, steps: seq<Handler>, s': State)
    decreases |steps|
  {
    if steps == [] then s' == s
    else HandlerEnabled(s, steps[0]) && Carried(DoHandler(s, steps[0]), steps[1..], s')
  }

  /** The run ends in _mark_failed. */
  predicate NeedsMark(file: FileRecord, stages: seq<Stage>, faults: Faults) {
    file.deleted || faults.read
    || (file.status == Processing && (faults.load || Judge(stages) == None || faults.commit))
  }

  /** Raised handlers: _mark_failed's step does to files and outbox what Marked says. */
  lemma MarkStep(was: Files, log: seq<Row>, now: Files, log': seq<Row>, f: nat, faults: Faults, s: State, k: nat)
    returns (s': State)
    requires f in was && Mirrors(was, log, s)
    requires if was[f].deleted then now == was && log' == log else Marked(was, log, now, log', f, faults)
    requires InPhase(s, k, Raised) && MessageKnown(s, s.runs[k].msg) && FileOf(s, s.runs[k].msg) == f
    ensures Carried(s, [if faults.mark && !was[f].deleted then LoseFailure(k) else MarkFailed(k)], s')
    ensures Mirrors(now, log', s') && k in s'.runs && s'.runs[k].phase.Finished?
    ensures s'.runs[k].phase.ending == Lost <==> faults.mark && !was[f].deleted
  {
    var step := if faults.mark && !was[f].deleted then LoseFailure(k) else MarkFailed(k);
    s' := DoHandler(s, step);
    assert [step][1..] == [];
  }

  lemma CarriedCons(s: State, step: Handler, rest: seq<Handler>, s': State)
    requires HandlerEnabled(s, step) && Carried(DoHandler(s, step), rest, s')
    ensures Carried(s, [step] + rest, s')
  {
  }

  /** Past the read: stages or commit fail, or the outcome is committed. */
  lemma WorkSteps(was: Files, log: seq<Row>, now: Files, log': seq<Row>, f: nat, stages: seq<Stage>,
                  faults: Faults, s: State, k: nat) returns (s': State)
    requires RunEffect(was, log, now, log', f, stages, faults)
    requires f in was && !was[f].deleted && was[f].status == Processing && !faults.read && Mirrors(was, log, s)
    requires InPhase(s, k, Loaded) && MessageKnown(s, s.runs[k].msg) && FileOf(s, s.runs[k].msg) == f
    ensures Carried(s, StepsOf(was[f], k, stages, faults)[1..], s')
    ensures Mirrors(now, log', s') && k in s'.runs && s'.runs[k].phase.Finished?
    ensures s'.runs[k].phase.ending == Lost <==> NeedsMark(was[f], stages, faults) && faults.mark
  {
    if NeedsMark(was[f], stages, faults) {
      var mark := if faults.mark then LoseFailure(k) else MarkFailed(k);
      s' := MarkStep(was, log, now, log', f, faults, DoHandler(s, StagesFail(k)), k);
      CarriedCons(s, StagesFail(k), [mark], s');
      assert StepsOf(was[f], k, stages, faults)[1..] == [StagesFail(k)] + [mark];
    } else {
      s' := ConcludeStep(was, log, now, log', f, stages, s, k);
      assert StepsOf(was[f], k, stages, faults)[1..] == [Conclude(k, Judge(stages).value)];
    }
  }

  /** Starting from a delivered message, those steps are possible, they end the run, and they change
      files and outbox exactly as PipelineExecutor.run does; the failure is lost exactly when _mark_failed
      was needed for an active file and its transaction failed. */
  lemma RunIsProtocolSequence(was: Files, log: seq<Row>, now: Files, log': seq<Row>, f: nat, stages: seq<Stage>,
                              faults: Faults, s: State, k: nat) returns (s': State)
    requires RunEffect(was, log, now, log', f, stages, faults) && f in was
    requires WellFormed(s) && Mirrors(was, log, s)
    requires InPhase(s, k, Received) && FileOf(s, s.runs[k].msg) == f
    ensures Carried(s, StepsOf(was[f], k, stages, faults), s')
    ensures Mirrors(now, log', s') && k in s'.runs && s'.runs[k].phase.Finished?
    ensures s'.runs[k].phase.ending == Lost <==> NeedsMark(was[f], stages, faults) && faults.mark && !was[f].deleted
  {
    var steps := StepsOf(was[f], k, stages, faults);
    var s1 := ReadStep(was, log, f, faults, s, k);
    if was[f].deleted || faults.read {
      s' := MarkStep(was, log, now, log', f, faults, s1, k);
      assert steps[1..] == [if faults.mark && !was[f].deleted then LoseFailure(k) else MarkFailed(k)];
    } else if was[f].status != Processing {
      s' := s1;
      assert steps[1..] == [];
    } else {
      s' := WorkSteps(was, log, now, log', f, stages, faults, s1, k);
    }
    CarriedFirst(s, steps, s');
  }

  lemma CarriedFirst(s: State, steps: seq<Handler>, s': State)
    requires steps != [] && HandlerEnabled(s, steps[0]) && Carried(DoHandler(s, steps[0]), steps[1..], s')
    ensures Carried(s, steps, s')
  {
  }

  lemma ReadStep(was: Files, log: seq<Row>, f: nat, faults: Faults, s: State, k: nat) returns (s': State)
    requires f in was && WellFormed(s) && Mirrors(was, log, s)
    requires InPhase(s, k, Received) && FileOf(s, s.runs[k].msg) == f
    ensures var step := if !was[f].deleted && faults.read then ReadFails(k) else Read(k);
            HandlerEnabled(s, step) && s' == DoHandler(s, step)
    ensures Mirrors(was, log, s') && k in s'.runs && MessageKnown(s', s'.runs[k].msg) && FileOf(s', s'.runs[k].msg) == f
    ensures s'.runs[k].phase == if was[f].deleted || faults.read then Raised
                                else if was[f].status != Processing then Finished(Skipped) else Loaded
  {
    s' := DoHandler(s, if !was[f].deleted && faults.read then ReadFails(k) else Read(k));
  }

  lemma ConcludeStep(was: Files, log: seq<Row>, now: Files, log': seq<Row>, f: nat, stages: seq<Stage>,
                     s: State, k: nat)
    returns (s': State)
    requires f in was && Mirrors(was, log, s) && Judge(stages).Some?
    requires was[f].status == Processing && !was[f].deleted
    requires RunEffect(was, log, now, log', f, stages, Faults(false, false, false, false))
    requires InPhase(s, k, Loaded) && MessageKnown(s, s.runs[k].msg) && FileOf(s, s.runs[k].msg) == f
    ensures Carried(s, [Conclude(k, Judge(stages).value)], s')
    ensures Mirrors(now, log', s') && InPhase(s', k, Finished(Recorded))
  {
    s' := DoHandler(s, Conclude(k, Judge(stages).value));
    CarriedCons(s, Conclude(k, Judge(stages).value), [], s');
    assert [Conclude(k, Judge(stages).value)] + [] == [Conclude(k, Judge(stages).value)];
  }
}
