/** Handlers at work on a file, and steps that leave a file alone. */
module DeliveryWork {
  import opened Events
  import opened Delivery
  import opened DeliverySafety
  import opened DeliveryTheorems

  /** The handler's message announces an upload of the file. */
  predicate Concerns(s: State, k: nat, f: nat)
    requires k in s.runs
  {
    s.runs[k].msg < |s.stream| && s.stream[s.runs[k].msg] < |s.log| && FileOf(s, s.runs[k].msg) == f
  }

  /** Such a handler is between delivery and the end of its pipeline run. */
  predicate Working(s: State, k: nat, f: nat)
    requires k in s.runs
  {
    !s.runs[k].phase.Finished? && Concerns(s, k, f)
  }

  /** The file's row is as it was and no event of the file was added. */
  ghost predicate Untouched(s: State, s': State, f: nat) {
    && f in s.files && f in s'.files && s'.files[f] == s.files[f] && s.log <= s'.log
    && forall i :: |s.log| <= i < |s'.log| ==> s'.log[i].file != f
  }

  lemma UntouchedTwice(s: State, s1: State, s2: State, f: nat)
    requires Untouched(s, s1, f) && Untouched(s1, s2, f)
    ensures Untouched(s, s2, f)
  {
    forall i | |s.log| <= i < |s2.log| ensures s2.log[i].file != f {
      if i < |s1.log| {
        assert s2.log[i] == s1.log[i];
      }
    }
  }

  lemma WorkingSame(s: State, s': State)
    requires StreamKnown(s) && s'.runs == s.runs && s.stream <= s'.stream
    requires |s.log| <= |s'.log| && forall i :: 0 <= i < |s.log| ==> s'.log[i] == s.log[i]
    ensures forall k, f :: k in s.runs ==> (Working(s', k, f) <==> Working(s, k, f))
  {
  }

  lemma ServiceLeaves(s: State, t: Service, f: nat)
    requires WellFormed(s) && ServiceEnabled(s, t) && f in s.files && t.file != f
    ensures var s' := DoService(s, t);
      Untouched(s, s', f) && forall k :: k in s'.runs ==> (Working(s', k, f) <==> Working(s, k, f))
  {
    ServiceFrame(s, t);
    ServiceTouches(s, t);
    GrowthKeepsForm(s, DoService(s, t));
    WorkingSame(s, DoService(s, t));
  }

  lemma OutboxLeaves(s: State, t: Outbox, f: nat)
    requires WellFormed(s) && OutboxEnabled(s, t) && f in s.files
    ensures var s' := DoOutbox(s, t);
      Untouched(s, s', f) && forall k :: k in s'.runs ==> (Working(s', k, f) <==> Working(s, k, f))
  {
    OutboxFrame(s, t);
    WorkingSame(s, DoOutbox(s, t));
  }

  /** A handler step writes at most the row and the log of the file it concerns. */
  lemma HandlerLeaves(s: State, t: Handler, f: nat)
    requires HandlerEnabled(s, t) && f in s.files
    requires t.Conclude? || t.MarkFailed? ==> FileOf(s, s.runs[t.run].msg) != f
    ensures Untouched(s, DoHandler(s, t), f)
  {
    var s' := DoHandler(s, t);
    match t
    case Conclude(run, verdict) => assert s'.log == s.log + [Row(FileOf(s, s.runs[run].msg), EventOf(verdict))];
    case MarkFailed(run) =>
      assert s'.log == s.log || s'.log == s.log + [Row(FileOf(s, s.runs[run].msg), ProcessingFailed)];
    case _ => assert s'.log == s.log && s'.files == s.files;
  }

  lemma HandlerMessage(s: State, t: Handler)
    requires HandlerEnabled(s, t)
    ensures var s' := DoHandler(s, t);
      t.run in s'.runs ==>
        if t.Deliver? then s'.runs[t.run] == Run(t.msg, Received)
        else t.run in s.runs && s'.runs[t.run].msg == s.runs[t.run].msg
             && (s.runs[t.run].phase.Finished? ==> s'.runs[t.run].phase.Finished?)
  {
  }

  /** A handler at work after the step was at work before it, on the same file, or has just been started. */
  lemma HandlerWork(s: State, t: Handler, k: nat, f: nat)
    requires WellFormed(s) && HandlerEnabled(s, t) && k in DoHandler(s, t).runs && Working(DoHandler(s, t), k, f)
    ensures (t.Deliver? && k == t.run && f == FileOf(s, t.msg) && DoHandler(s, t).runs[k].phase.Received?)
            || (k in s.runs && Working(s, k, f) && (k != t.run ==> DoHandler(s, t).runs[k] == s.runs[k]))
  {
    HandlerFrame(s, t);
    GrowthKeepsForm(s, DoHandler(s, t));
    HandlerRuns(s, t);
    HandlerMessage(s, t);
  }
}
