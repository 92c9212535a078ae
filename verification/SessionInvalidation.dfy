/** Bulk invalidation at the granularity of awaits: complete, isolated, terminating and never stuck. */
module SessionInvalidation {
  import opened Redis
  import opened SessionKeys
  import opened Sessions
  import opened SessionInterleaving

  /** The SCAN loop of call `t` is still under way for `u` and still answers for `s`. */
  ghost predicate AnswersFor(st: State, t: nat, u: string, s: string) {
    t in st.tasks && st.tasks[t].Invalidating? && st.tasks[t].u == u && s in st.tasks[t].targets
  }

  /** An extension begins and finds the session. */
  predicate ExtendsFound(st: State, a: Label, s: string) {
    a.BeginExtend? && a.s == s && Session(st.db, s).Some?
  }

  /** An invalidation that another call's step leaves where it was, up to keys and targets lost. */
  ghost predicate Carried(st: State, task: Task, task': Task, a: Label) {
    && task.Invalidating? && task'.Invalidating?
    && task'.u == task.u && task'.batch == task.batch && task'.half == task.half && task'.rounds == task.rounds
    && (forall s :: s in task.targets && !ExtendsFound(st, a, s) ==> s in task'.targets)
  }

  predicate OwnStep(a: Label, t: nat) {
    (a.Run? || a.ScanAnswer?) && a.t == t
  }

  lemma OthersCarry(timeout: nat, st: State, a: Label, t: nat)
    requires Enabled(st, a) && t in st.tasks && st.tasks[t].Invalidating? && !OwnStep(a, t)
    ensures t in Next(timeout, st, a).tasks && Carried(st, st.tasks[t], Next(timeout, st, a).tasks[t], a)
  {
    var tasks := if a.Tick? then st.tasks else WithTask(st.tasks, a.t, NextTask(st, a));
    assert t in tasks && tasks[t] == st.tasks[t];
  }

  lemma OwnStepShrinks(timeout: nat, st: State, a: Label, t: nat)
    requires Enabled(st, a) && t in st.tasks && st.tasks[t].Invalidating? && OwnStep(a, t)
    requires !st.tasks[t].last ==> st.tasks[t].rounds > 0
    ensures
      var st' := Next(timeout, st, a);
      || (t !in st'.tasks && a == Run(t) && st.tasks[t].batch == [] && st.tasks[t].last)
      || (&& t in st'.tasks && st'.tasks[t].Invalidating? && st'.tasks[t].u == st.tasks[t].u
          && st'.tasks[t].targets == st.tasks[t].targets
          && Below(Rest(st'.tasks[t]), Rest(st.tasks[t])))
  {
    if a.ScanAnswer? {
      assert Next(timeout, st, a).tasks[t].rounds == st.tasks[t].rounds - 1;
    } else if st.tasks[t].batch != [] {
      assert |st.tasks[t].batch[1..]| == |st.tasks[t].batch| - 1;
    }
  }

  predicate Below(a: (nat, nat), b: (nat, nat)) {
    a.0 < b.0 || (a.0 == b.0 && a.1 < b.1)
  }

  lemma StaysTarget(timeout: nat, st: State, a: Label, t: nat, u: string, s: string)
    requires Enabled(st, a) && AnswersFor(st, t, u, s) && TaskOk(st, st.tasks[t])
    requires !ExtendsFound(st, a, s)
    requires t in Next(timeout, st, a).tasks
    ensures AnswersFor(Next(timeout, st, a), t, u, s)
  {
    if OwnStep(a, t) {
      OwnStepShrinks(timeout, st, a, t);
    } else {
      OthersCarry(timeout, st, a, t);
    }
  }

  ghost predicate InFlightAt(timeout: nat, run: seq<Label>, i: nat, t: nat)
    requires i <= |run|
  {
    t in After(timeout, run[..i]).tasks
  }

  lemma {:induction false} AnswersThroughout(timeout: nat, run: seq<Label>, b: nat, n: nat,
                                             t: nat, u: string, rounds: nat, s: string)
    requires timeout > 0 && ScheduledRun(timeout, run) && b < n <= |run|
    requires run[b] == BeginInvalidate(t, u, rounds) && s in OwnLive(After(timeout, run[..b]), u)
    requires forall i :: b < i < n ==> !ExtendsFound(After(timeout, run[..i]), run[i], s)
    requires forall i {:trigger InFlightAt(timeout, run, i, t)} :: b < i <= n ==> InFlightAt(timeout, run, i, t)
    ensures AnswersFor(After(timeout, run[..n]), t, u, s)
    decreases n
  {
    hide MainKey, TrackKey, SessionIdOf, ScanPattern, GlobMatch, Next, Enabled, StoreOk, TaskOk, OwnLive,
      WriterInFlight, DeletesUnderExtend;
    var st := StateAt(timeout, run, n - 1);
    assert InFlightAt(timeout, run, n, t);
    if n - 1 > b {
      AnswersThroughout(timeout, run, b, n - 1, t, u, rounds, s);
      assert TaskOk(st, st.tasks[t]);
      StaysTarget(timeout, st, run[n - 1], t, u, s);
    } else {
      BeginAnswers(timeout, st, t, u, rounds, s);
    }
  }

  lemma BeginAnswers(timeout: nat, st: State, t: nat, u: string, rounds: nat, s: string)
    requires Enabled(st, BeginInvalidate(t, u, rounds)) && s in OwnLive(st, u)
    ensures AnswersFor(Next(timeout, st, BeginInvalidate(t, u, rounds)), t, u, s)
  {
  }

  lemma StateAt(timeout: nat, run: seq<Label>, i: nat) returns (st: State)
    requires timeout > 0 && ScheduledRun(timeout, run) && i < |run|
    ensures st == After(timeout, run[..i]) && Inv(timeout, st) && Scheduled(st, run[i])
    ensures After(timeout, run[..i + 1]) == Next(timeout, st, run[i])
  {
    st := After(timeout, run[..i]);
    PrefixScheduled(timeout, run, i);
    RunInv(timeout, run[..i]);
    assert ScheduledAt(timeout, run, i);
    assert run[..i + 1][..i] == run[..i];
  }

  /**
   Bulk invalidation is complete: when the loop of call `t` has ended, every session of `u` that was
   live when it began, that nobody was writing then, and that no extension has found since, is
   gone from both keys, whatever SCAN repeated and whatever else ran in between.
   */
  lemma InvalidationComplete(timeout: nat, run: seq<Label>, b: nat, t: nat, u: string, rounds: nat, s: string)
    requires timeout > 0 && ScheduledRun(timeout, run) && b + 1 < |run|
    requires run[b] == BeginInvalidate(t, u, rounds) && run[|run| - 1] == Run(t)
    requires t !in After(timeout, run).tasks
    requires forall i {:trigger InFlightAt(timeout, run, i, t)} :: b < i < |run| ==> InFlightAt(timeout, run, i, t)
    requires Session(After(timeout, run[..b]).db, s).Some?
    requires Session(After(timeout, run[..b]).db, s).value.dto.userId == u
    requires !WriterInFlight(After(timeout, run[..b]), s)
    requires forall i :: b < i < |run| ==> !ExtendsFound(After(timeout, run[..i]), run[i], s)
    ensures Session(After(timeout, run).db, s).None?
    ensures TrackKey(u, s) !in After(timeout, run).db
  {
    hide MainKey, TrackKey, SessionIdOf, ScanPattern, GlobMatch, Next, TaskOk, DeletesUnderExtend, Enabled;
    var n := |run| - 1;
    var begin := StateAt(timeout, run, b);
    assert Known(begin, s, u);
    AnswersThroughout(timeout, run, b, n, t, u, rounds, s);
    var st := StateAt(timeout, run, n);
    assert run[..n + 1] == run;
    EndAnswers(timeout, st, t, u, s);
  }

  lemma EndAnswers(timeout: nat, st: State, t: nat, u: string, s: string)
    requires Inv(timeout, st) && Enabled(st, Run(t)) && AnswersFor(st, t, u, s)
    requires t !in Next(timeout, st, Run(t)).tasks
    ensures Next(timeout, st, Run(t)).db == st.db && Session(st.db, s).None? && TrackKey(u, s) !in st.db
  {
    assert TaskOk(st, st.tasks[t]);
    OwnStepShrinks(timeout, st, Run(t), t);
    assert Answered(st, st.tasks[t], s);
  }

  /** Invalidation is isolated: its own steps remove keys of the user's sessions and change nothing else. */
  lemma InvalidationIsolated(timeout: nat, run: seq<Label>, a: Label)
    requires timeout > 0 && ScheduledRun(timeout, run) && Scheduled(After(timeout, run), a)
    requires (a.Run? || a.ScanAnswer?) && After(timeout, run).tasks[a.t].Invalidating?
    ensures
      var st, st' := After(timeout, run), Next(timeout, After(timeout, run), a);
      var u := st.tasks[a.t].u;
      && st'.now == st.now
      && forall k :: !Same(st.db, st'.db, k) ==>
           && k in st.db && k !in st'.db
           && exists s :: Known(st, s, u) && (k == MainKey(s) || k == TrackKey(u, s))
  {
    RunInv(timeout, run);
    OwnStepIsolated(timeout, After(timeout, run), a);
  }

  lemma OwnStepIsolated(timeout: nat, st: State, a: Label)
    requires Inv(timeout, st) && Enabled(st, a)
    requires (a.Run? || a.ScanAnswer?) && st.tasks[a.t].Invalidating?
    ensures
      var st' := Next(timeout, st, a);
      forall k :: !Same(st.db, st'.db, k) ==>
        && k in st.db && k !in st'.db
        && exists s :: Known(st, s, st.tasks[a.t].u) && (k == MainKey(s) || k == TrackKey(st.tasks[a.t].u, s))
  {
    var task := st.tasks[a.t];
    assert TaskOk(st, task);
    if a.Run? && task.batch != [] {
      var s := BatchSession(timeout, st, task, 0);
      assert Known(st, s, task.u);
    }
  }

  /** Steps of the SCAN loop still to come: rounds first, then deletions left in the batch. */
  function Rest(task: Task): (nat, nat)
    requires task.Invalidating?
  {
    (task.rounds, if task.half && task.batch != [] then 2 * |task.batch| - 1 else 2 * |task.batch|)
  }

  /** The SCAN loop terminates: each own step ends it or makes its rest smaller, and nobody else's changes it. */
  lemma InvalidationTerminates(timeout: nat, run: seq<Label>, a: Label, t: nat)
    requires timeout > 0 && ScheduledRun(timeout, run) && Scheduled(After(timeout, run), a)
    requires t in After(timeout, run).tasks && After(timeout, run).tasks[t].Invalidating?
    ensures
      var st, st' := After(timeout, run), Next(timeout, After(timeout, run), a);
      if OwnStep(a, t) then
        t !in st'.tasks || (st'.tasks[t].Invalidating? && Below(Rest(st'.tasks[t]), Rest(st.tasks[t])))
      else
        t in st'.tasks && st'.tasks[t].Invalidating? && Rest(st'.tasks[t]) == Rest(st.tasks[t])
  {
    RunInv(timeout, run);
    StepShrinks(timeout, After(timeout, run), a, t);
  }

  lemma StepShrinks(timeout: nat, st: State, a: Label, t: nat)
    requires Inv(timeout, st) && Enabled(st, a) && t in st.tasks && st.tasks[t].Invalidating?
    ensures
      var st' := Next(timeout, st, a);
      if OwnStep(a, t) then
        t !in st'.tasks || (st'.tasks[t].Invalidating? && Below(Rest(st'.tasks[t]), Rest(st.tasks[t])))
      else
        t in st'.tasks && st'.tasks[t].Invalidating? && Rest(st'.tasks[t]) == Rest(st.tasks[t])
  {
    assert TaskOk(st, st.tasks[t]);
    if OwnStep(a, t) {
      OwnStepShrinks(timeout, st, a, t);
    } else {
      OthersCarry(timeout, st, a, t);
    }
  }

  /**
   The SCAN loop is never stuck: while it is in flight it has a step of its own to take, and that step obeys
   the assumption on schedules unless an extension that has read the session has its first write to do.
   */
  lemma InvalidationNotStuck(timeout: nat, run: seq<Label>, t: nat)
    requires timeout > 0 && ScheduledRun(timeout, run)
    requires t in After(timeout, run).tasks && After(timeout, run).tasks[t].Invalidating?
    ensures
      var st := After(timeout, run);
      exists a :: OwnStep(a, t) && Enabled(st, a)
        && (Scheduled(st, a) || exists e :: e in st.tasks && st.tasks[e].Extending? && Scheduled(st, Run(e)))
  {
    RunInv(timeout, run);
    var st := After(timeout, run);
    var task := st.tasks[t];
    assert TaskOk(st, task);
    var a := Run(t);
    if task.batch == [] && !task.last {
      var keys := Listed(task.owed);
      a := ScanAnswer(t, keys, true);
    }
    assert OwnStep(a, t) && Enabled(st, a);
    if DeletesUnderExtend(st, a) {
      var e :| e in st.tasks && Extends(st.tasks[e], SessionIdOf(task.batch[0]));
      assert Scheduled(st, Run(e));
    }
  }

  lemma {:induction false} Listed(s: set<string>) returns (keys: seq<string>)
    ensures forall k :: k in keys <==> k in s
    decreases s
  {
    if s == {} {
      keys := [];
    } else {
      var k :| k in s;
      keys := Listed(s - {k});
      keys := [k] + keys;
    }
  }
}
