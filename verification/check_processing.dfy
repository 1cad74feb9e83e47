/**
 The processed annotation of a DependencyUpdateCheck: lines 465-500 of
 internal/controller/dependencyupdatecheck_controller.go. Any number of invocations for one name run
 concurrently, each reading any earlier version of the object (an informer cache may lag), while other
 clients edit, delete and recreate it. Nothing clears the annotation within the life of one object.
 */
module CheckProcessing {
  import opened Wrappers

  /** One version of the object; the version number is its position in the history. */
  datatype Version = Absent | Present(uid: nat, processed: bool)

  datatype Pc =
    | Reading                                   // line 471
    | Deciding(read: Option<nat>)               // lines 472-494; None: the Get failed for another reason
    | Updating(read: Option<nat>)               // line 496
    | Stopped
    | Working(version: nat)                     // lines 502-517, after the update to this version
    | Gathered(version: nat, ok: bool)          // lines 507-517: the gathering failed, or the pass follows
    | Died(version: nat)                        // the process ended after the update and before the gathering did

  /** `uids` counts the objects ever created under the name. */
  datatype State = State(history: seq<Version>, uids: nat, invocations: seq<Pc>)

  predicate Init(s: State) {
    s.history == [Absent] && s.uids == 0 && s.invocations == []
  }

  datatype Step =
    | Invoke
    | Edit(processed: bool)
    | Delete
    | Recreate(processed: bool)
    | Read(t: nat, version: Option<nat>)
    | Decide(t: nat)
    | Update(t: nat, rejected: bool, replyLost: bool)
    | Gather(t: nat, ok: bool)
    | Die(t: nat)

  predicate Finished(pc: Pc) {
    pc.Stopped? || pc.Gathered? || pc.Died?
  }

  predicate Allowed(s: State, step: Step) {
    && s.history != []
    && var current := s.history[|s.history| - 1];
       match step
       case Invoke => true
       case Edit(processed) => current.Present? && (current.processed ==> processed)
       case Delete => current.Present?
       case Recreate(_) => current.Absent?
       case Read(t, version) => t < |s.invocations| && s.invocations[t].Reading?
           && (version.Some? ==> version.value < |s.history|)
       case Decide(t) => t < |s.invocations| && s.invocations[t].Deciding?
       case Update(t, _, _) => t < |s.invocations| && s.invocations[t].Updating?
       case Gather(t, _) => t < |s.invocations| && s.invocations[t].Working?
       case Die(t) => t < |s.invocations| && !Finished(s.invocations[t])
  }

  /** The version an invocation wrote before it went on to the gathering and creation work. */
  function WorkOn(pc: Pc): Option<nat> {
    match pc
    case Working(v) => Some(v)
    case Gathered(v, _) => Some(v)
    case Died(v) => Some(v)
    case _ => None
  }

  function Goto(s: State, t: nat, pc: Pc): State
    requires t < |s.invocations|
  {
    s.(invocations := s.invocations[t := pc])
  }

  /** The update writes the version read, with the annotation set, if that version is still the latest. */
  predicate Swaps(s: State, read: Option<nat>) {
    read.Some? && read.value == |s.history| - 1 && s.history[read.value].Present?
  }

  function Apply(s: State, step: Step): State
    requires Allowed(s, step)
  {
    var n := |s.history|;
    match step
    case Invoke => s.(invocations := s.invocations + [Reading])
    case Edit(processed) => s.(history := s.history + [Present(s.history[n - 1].uid, processed)])
    case Delete => s.(history := s.history + [Absent])
    case Recreate(processed) => s.(history := s.history + [Present(s.uids, processed)], uids := s.uids + 1)
    case Read(t, version) => Goto(s, t, Deciding(version))
    case Decide(t) =>
      var read := s.invocations[t].read;
      if read.Some? && read.value < n && (s.history[read.value].Absent? || s.history[read.value].processed)
      then Goto(s, t, Stopped)
      else Goto(s, t, Updating(read))
    case Update(t, rejected, replyLost) =>
      var read := s.invocations[t].read;
      if rejected || !Swaps(s, read) then Goto(s, t, Stopped)
      else
        var written := s.(history := s.history + [Present(s.history[n - 1].uid, true)]);
        Goto(written, t, if replyLost then Stopped else Working(n))
    case Gather(t, ok) => Goto(s, t, Gathered(s.invocations[t].version, ok))
    case Die(t) => Goto(s, t, if s.invocations[t].Working? then Died(s.invocations[t].version) else Stopped)
  }

  datatype Execution = Execution(states: seq<State>, steps: seq<Step>)

  predicate Reachable(e: Execution) {
    && |e.states| == |e.steps| + 1 && Init(e.states[0])
    && (forall i {:trigger e.steps[i]} | 0 <= i < |e.steps| ::
          Allowed(e.states[i], e.steps[i]) && e.states[i + 1] == Apply(e.states[i], e.steps[i]))
  }

  /** Within one object the annotation, once set, stays set. */
  predicate AnnotationStays(s: State) {
    forall i, j | 0 <= i < j < |s.history| && s.history[i].Present? && s.history[j].Present?
        && s.history[i].uid == s.history[j].uid ::
      s.history[i].processed ==> s.history[j].processed
  }

  /** An object's versions are contiguous, so the versions between two of one object are of that object. */
  predicate LivesOnce(s: State) {
    && (forall i | 0 <= i < |s.history| && s.history[i].Present? :: s.history[i].uid < s.uids)
    && forall i, j, k | 0 <= i < j < k < |s.history| && s.history[i].Present? && s.history[k].Present?
        && s.history[i].uid == s.history[k].uid ::
         s.history[j].Present? && s.history[j].uid == s.history[i].uid
  }

  predicate GoodInvocation(s: State, pc: Pc) {
    match pc
    case Deciding(read) => read.Some? ==> read.value < |s.history|
    case Updating(read) => read.Some? ==>
      && read.value < |s.history| && s.history[read.value].Present?
      && !s.history[read.value].processed
    case Working(v) => GoodWork(s, v)
    case Gathered(v, _) => GoodWork(s, v)
    case Died(v) => GoodWork(s, v)
    case _ => true
  }

  /** Version v set the annotation of an object that did not carry it. */
  predicate GoodWork(s: State, v: nat) {
    && 0 < v < |s.history| && s.history[v].Present? && s.history[v].processed
    && s.history[v - 1].Present? && s.history[v - 1].uid == s.history[v].uid && !s.history[v - 1].processed
  }

  predicate Inv(s: State) {
    && s.history != [] && AnnotationStays(s) && LivesOnce(s)
    && (forall t | 0 <= t < |s.invocations| :: GoodInvocation(s, s.invocations[t]))
    && (forall t, u | 0 <= t < u < |s.invocations| && WorkOn(s.invocations[t]).Some? ::
          WorkOn(s.invocations[t]) != WorkOn(s.invocations[u]))
  }

  /** Appending a version: a fresh object, a tombstone, or the next version of the object that is there. */
  predicate GoodAppend(s: State, v: Version, uids': nat) {
    && s.history != [] && s.uids <= uids'
    && (v.Present? ==>
          || s.uids <= v.uid < uids'
          || (var last := s.history[|s.history| - 1];
              last.Present? && last.uid == v.uid && (last.processed ==> v.processed)))
  }

  lemma AppendKeepsHistory(s: State, v: Version, uids': nat)
    requires AnnotationStays(s) && LivesOnce(s) && GoodAppend(s, v, uids')
    ensures var s' := s.(history := s.history + [v], uids := uids'); AnnotationStays(s') && LivesOnce(s')
  {
  }

  lemma GoodInvocationStable(s: State, s': State, pc: Pc)
    requires GoodInvocation(s, pc) && s.history <= s'.history
    ensures GoodInvocation(s', pc)
  {
  }

  lemma StepGrowsHistory(s: State, step: Step)
    requires Inv(s) && Allowed(s, step)
    ensures var s' := Apply(s, step); s.history <= s'.history && AnnotationStays(s') && LivesOnce(s')
  {
    var s' := Apply(s, step);
    if s'.history != s.history {
      var v := s'.history[|s.history|];
      assert s'.history == s.history + [v] && GoodAppend(s, v, s'.uids);
      AppendKeepsHistory(s, v, s'.uids);
    }
  }

  lemma StepMovesOne(s: State, step: Step)
    requires Inv(s) && Allowed(s, step) && (step.Read? || step.Decide? || step.Update? || step.Gather? || step.Die?)
    ensures var s' := Apply(s, step);
            && |s'.invocations| == |s.invocations| && s'.invocations == s.invocations[step.t := s'.invocations[step.t]]
            && GoodInvocation(s', s'.invocations[step.t])
            && (WorkOn(s'.invocations[step.t]).Some? ==>
                  || WorkOn(s'.invocations[step.t]) == WorkOn(s.invocations[step.t])
                  || WorkOn(s'.invocations[step.t]).value >= |s.history|)
  {
    assert GoodInvocation(s, s.invocations[step.t]);
  }

  lemma StepKeepsInv(s: State, step: Step)
    requires Inv(s) && Allowed(s, step)
    ensures Inv(Apply(s, step))
  {
    var s' := Apply(s, step);
    StepGrowsHistory(s, step);
    if step.Read? || step.Decide? || step.Update? || step.Gather? || step.Die? {
      StepMovesOne(s, step);
    }
    forall t | 0 <= t < |s'.invocations| ensures GoodInvocation(s', s'.invocations[t]) {
      if t < |s.invocations| && s'.invocations[t] == s.invocations[t] {
        GoodInvocationStable(s, s', s.invocations[t]);
      }
    }
    forall t | 0 <= t < |s.invocations| && WorkOn(s.invocations[t]).Some?
      ensures WorkOn(s.invocations[t]).value < |s.history|
    {
      assert GoodInvocation(s, s.invocations[t]);
    }
  }

  lemma {:induction false} InvThroughout(e: Execution, i: nat)
    requires Reachable(e) && i < |e.states|
    ensures Inv(e.states[i])
  {
    if i > 0 {
      InvThroughout(e, i - 1);
      assert Allowed(e.states[i - 1], e.steps[i - 1]);
      StepKeepsInv(e.states[i - 1], e.steps[i - 1]);
    }
  }

  /** Invocation t got past the annotation update with version v. */
  predicate WorksOn(s: State, t: nat, v: nat) {
    t < |s.invocations| && WorkOn(s.invocations[t]) == Some(v)
  }

  predicate SameObject(s: State, v: nat, w: nat) {
    v < |s.history| && w < |s.history| && s.history[v].Present? && s.history[w].Present?
    && s.history[v].uid == s.history[w].uid
  }

  /**
   At most one invocation gets past the annotation update for one object, however stale the reads and
   however the invocations interleave.
   */
  lemma AtMostOnceProcessed(e: Execution, i: nat, t: nat, v: nat, u: nat, w: nat)
    requires Reachable(e) && i < |e.states|
    requires WorksOn(e.states[i], t, v) && WorksOn(e.states[i], u, w) && SameObject(e.states[i], v, w)
    ensures t == u && v == w
  {
    InvThroughout(e, i);
    var s := e.states[i];
    assert GoodInvocation(s, s.invocations[t]) && GoodInvocation(s, s.invocations[u]);
  }

  /** Whoever works on an object has marked it: its latest version carries the annotation while it exists. */
  lemma WorkImpliesMarked(e: Execution, i: nat, t: nat, v: nat)
    requires Reachable(e) && i < |e.states| && WorksOn(e.states[i], t, v)
    ensures var s := e.states[i];
            && v < |s.history| && s.history[v].Present?
            && forall j | v <= j < |s.history| && s.history[j].Present? && s.history[j].uid == s.history[v].uid ::
                s.history[j].processed
  {
    InvThroughout(e, i);
    assert GoodInvocation(e.states[i], e.states[i].invocations[t]);
  }

  // ----- When a marked check is worked on -----

  /** No step gives work on a version that exists already, or takes it away. */
  lemma WorkIsKept(s: State, step: Step, t: nat, v: nat)
    requires Inv(s) && Allowed(s, step) && v < |s.history|
    ensures WorksOn(Apply(s, step), t, v) <==> WorksOn(s, t, v)
  {
  }

  lemma {:induction false} WorkIsKeptUntil(e: Execution, i: nat, j: nat, t: nat, v: nat)
    requires Reachable(e) && i <= j < |e.states| && v < |e.states[i].history|
    ensures |e.states[i].history| <= |e.states[j].history|
    ensures WorksOn(e.states[j], t, v) <==> WorksOn(e.states[i], t, v)
  {
    if i < j {
      WorkIsKeptUntil(e, i, j - 1, t, v);
      InvThroughout(e, j - 1);
      assert Allowed(e.states[j - 1], e.steps[j - 1]);
      StepGrowsHistory(e.states[j - 1], e.steps[j - 1]);
      WorkIsKept(e.states[j - 1], e.steps[j - 1], t, v);
    }
  }

  /** Step k is an annotation update that took effect. */
  predicate TookEffect(e: Execution, k: nat) {
    && k < |e.steps| && k + 1 < |e.states| && e.steps[k].Update?
    && |e.states[k].history| < |e.states[k + 1].history|
  }

  lemma UpdateStep(s: State, step: Step, t: nat)
    requires Inv(s) && Allowed(s, step) && step.Update? && |Apply(s, step).history| > |s.history|
    ensures |Apply(s, step).history| == |s.history| + 1
    ensures WorksOn(Apply(s, step), t, |s.history|) <==> t == step.t && !step.replyLost
  {
    if t < |s.invocations| {
      assert GoodInvocation(s, s.invocations[t]);
    }
  }

  /**
   An update that set the annotation is followed up, by the invocation that sent it, if and only if its
   reply arrived; that is settled at once and for good.
   */
  lemma WorkedOnIffReplyArrived(e: Execution, k: nat, j: nat)
    requires Reachable(e) && TookEffect(e, k) && k < j < |e.states|
    ensures forall t: nat ::
      WorksOn(e.states[j], t, |e.states[k].history|) <==> t == e.steps[k].t && !e.steps[k].replyLost
    ensures (exists t: nat :: WorksOn(e.states[j], t, |e.states[k].history|)) <==> !e.steps[k].replyLost
  {
    var v := |e.states[k].history|;
    InvThroughout(e, k);
    assert Allowed(e.states[k], e.steps[k]);
    forall t: nat ensures WorksOn(e.states[j], t, v) <==> t == e.steps[k].t && !e.steps[k].replyLost {
      UpdateStep(e.states[k], e.steps[k], t);
      WorkIsKeptUntil(e, k + 1, j, t, v);
    }
    assert !e.steps[k].replyLost ==> WorksOn(e.states[j], e.steps[k].t, v);
  }

  /** All work comes from such an update. */
  lemma {:induction false} WorkCameFromUpdate(e: Execution, j: nat, t: nat, v: nat) returns (k: nat)
    requires Reachable(e) && j < |e.states| && WorksOn(e.states[j], t, v)
    ensures k < j && TookEffect(e, k) && |e.states[k].history| == v && e.steps[k].t == t && !e.steps[k].replyLost
  {
    assert j > 0;
    k := j - 1;
    InvThroughout(e, k);
    assert Allowed(e.states[k], e.steps[k]);
    StepGrowsHistory(e.states[k], e.steps[k]);
    if WorksOn(e.states[k], t, v) {
      k := WorkCameFromUpdate(e, k, t, v);
    } else {
      NewWorkIsUpdate(e.states[k], e.steps[k], t, v);
    }
  }

  lemma NewWorkIsUpdate(s: State, step: Step, t: nat, v: nat)
    requires Inv(s) && Allowed(s, step) && WorksOn(Apply(s, step), t, v) && !WorksOn(s, t, v)
    ensures step.Update? && !step.replyLost && step.t == t && v == |s.history| < |Apply(s, step).history|
  {
  }

  /** The invocation is at work on version v or has gathered the components for it. */
  predicate Attends(s: State, t: nat, v: nat) {
    t < |s.invocations| && s.invocations[t] in {Working(v), Gathered(v, true), Gathered(v, false)}
  }

  /**
   A check marked by an update that took effect is left with nobody attending to it if and only if the reply
   was lost or the process of its sender died; and, once it is, for good.
   */
  lemma NobodyAttendsIff(e: Execution, k: nat, j: nat)
    requires Reachable(e) && TookEffect(e, k) && k < j < |e.states|
    ensures var v, t := |e.states[k].history|, e.steps[k].t;
      (forall u: nat :: !Attends(e.states[j], u, v))
      <==> e.steps[k].replyLost || (t < |e.states[j].invocations| && e.states[j].invocations[t] == Died(v))
  {
    var v, t := |e.states[k].history|, e.steps[k].t;
    WorkedOnIffReplyArrived(e, k, j);
    forall u: nat ensures Attends(e.states[j], u, v) ==> WorksOn(e.states[j], u, v) {
    }
    if !e.steps[k].replyLost && e.states[j].invocations[t] != Died(v) {
      assert WorksOn(e.states[j], t, v);
      assert Attends(e.states[j], t, v);
    }
  }

  lemma {:induction false} FinishedStays(e: Execution, i: nat, j: nat, t: nat)
    requires Reachable(e) && i <= j < |e.states|
    requires t < |e.states[i].invocations| && Finished(e.states[i].invocations[t])
    ensures t < |e.states[j].invocations| && e.states[j].invocations[t] == e.states[i].invocations[t]
  {
    if i < j {
      FinishedStays(e, i, j - 1, t);
      assert Allowed(e.states[j - 1], e.steps[j - 1]);
    }
  }

  /**
   A check whose gathering failed stays with the invocation that failed: no other one ever works on it, so
   the gathering is not tried again although the failure is returned for a retry. The same holds when the
   process died before it had gathered.
   */
  lemma FailedGatheringIsFinal(e: Execution, i: nat, j: nat, t: nat, v: nat, u: nat, w: nat)
    requires Reachable(e) && i <= j < |e.states|
    requires t < |e.states[i].invocations| && e.states[i].invocations[t] in {Gathered(v, false), Died(v)}
    requires WorksOn(e.states[j], u, w) && SameObject(e.states[j], v, w)
    ensures u == t && e.states[j].invocations[u] == e.states[i].invocations[t]
  {
    InvThroughout(e, i);
    assert GoodInvocation(e.states[i], e.states[i].invocations[t]);
    WorkIsKeptUntil(e, i, j, t, v);
    AtMostOnceProcessed(e, j, t, v, u, w);
    FinishedStays(e, i, j, t);
  }

  /** The witness that it is not exactly once: one check, one invocation, and the reply to its update is lost. */
  function LostReply(): Execution {
    var unmarked := [Absent, Present(0, false)];
    Execution(
      [State([Absent], 0, []), State(unmarked, 1, []), State(unmarked, 1, [Reading]),
       State(unmarked, 1, [Deciding(Some(1))]),
       State(unmarked, 1, [Updating(Some(1))]), State(unmarked + [Present(0, true)], 1, [Stopped])],
      [Recreate(false), Invoke, Read(0, Some(1)), Decide(0), Update(0, false, true)])
  }

  lemma LostReplyStep(i: nat)
    requires i < 5
    ensures var e := LostReply(); Allowed(e.states[i], e.steps[i]) && e.states[i + 1] == Apply(e.states[i], e.steps[i])
  {
  }

  /** It is not exactly once: the check can end up marked while no invocation ever works on it. */
  lemma MayNeverBeProcessed()
    ensures var e := LostReply(); var last := e.states[|e.steps|];
            && Reachable(e)
            && last.history[|last.history| - 1].Present? && last.history[|last.history| - 1].processed
            && last.invocations == [Stopped]
  {
    var e := LostReply();
    forall i | 0 <= i < |e.steps|
      ensures Allowed(e.states[i], e.steps[i]) && e.states[i + 1] == Apply(e.states[i], e.steps[i])
    {
      LostReplyStep(i);
    }
  }
}
