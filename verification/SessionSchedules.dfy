/** Index and sessions agree under the schedule assumption of `SessionInterleaving`, and that is exactly what they need. */
module SessionSchedules {
  import opened Text
  import opened Redis
  import opened SessionKeys
  import opened Sessions
  import opened SessionInterleaving

  /**
   In every scheduled run each live session has a live tracking key of its own user that expires no
   earlier, except between the two `setex` of a creation or extension of that session.
   */
  lemma IndexAgreement(timeout: nat, run: seq<Label>, s: string)
    requires timeout > 0 && ScheduledRun(timeout, run)
    ensures
      var st := After(timeout, run);
      Session(st.db, s).Some? && !(exists t :: t in st.tasks && st.tasks[t].Tracking? && st.tasks[t].s == s) ==>
        var track := TrackKey(Session(st.db, s).value.dto.userId, s);
        && track in st.db && st.now < st.db[MainKey(s)].expiresAt <= st.db[track].expiresAt
  {
    RunInv(timeout, run);
    var st := After(timeout, run);
    assert Indexed(st, s);
    if Session(st.db, s).Some? {
      KeepsExpiry(timeout, st, MainKey(s));
    }
  }

  // ---------- the assumption is exact ----------

  /** A continuation that obeys the assumption. */
  ghost predicate Clean(timeout: nat, st: State, more: seq<Label>)
    decreases |more|
  {
    more != [] ==> Scheduled(st, more[0]) && Clean(timeout, Next(timeout, st, more[0]), more[1..])
  }

  ghost function Continue(timeout: nat, st: State, more: seq<Label>): State
    requires Clean(timeout, st, more)
    decreases |more|
  {
    if more == [] then st else Continue(timeout, Next(timeout, st, more[0]), more[1..])
  }

  /** Whatever still happens under the assumption, index and sessions agree. */
  ghost predicate KeepsIndex(timeout: nat, st: State) {
    forall more {:trigger Clean(timeout, st, more)} :: Clean(timeout, st, more) ==> Agrees(Continue(timeout, st, more))
  }

  /** Every live session has its tracking key, or a write of it to come. */
  ghost predicate Agrees(st: State) {
    forall s :: Indexed(st, s)
  }

  lemma {:induction false} CleanKeepsInv(timeout: nat, st: State, more: seq<Label>)
    requires timeout > 0 && Inv(timeout, st) && Clean(timeout, st, more)
    ensures Inv(timeout, Continue(timeout, st, more))
    decreases |more|
  {
    hide Next, Enabled, DeletesUnderExtend, Inv;
    if more != [] {
      StepKeepsInv(timeout, st, more[0]);
      CleanKeepsInv(timeout, Next(timeout, st, more[0]), more[1..]);
    }
  }

  lemma {:induction false} CleanSum(timeout: nat, st: State, a: seq<Label>, b: seq<Label>)
    requires Clean(timeout, st, a) && Clean(timeout, Continue(timeout, st, a), b)
    ensures Clean(timeout, st, a + b) && Continue(timeout, st, a + b) == Continue(timeout, Continue(timeout, st, a), b)
    decreases |a|
  {
    hide Next, Enabled, DeletesUnderExtend;
    if a == [] {
      assert a + b == b;
    } else {
      assert (a + b)[1..] == a[1..] + b;
      CleanSum(timeout, Next(timeout, st, a[0]), a[1..], b);
    }
  }

  lemma CleanOne(timeout: nat, st: State, a: Label)
    requires Scheduled(st, a)
    ensures Clean(timeout, st, [a]) && Continue(timeout, st, [a]) == Next(timeout, st, a)
  {
    hide Next;
    assert [a][1..] == [];
  }

  /** Call `t` has deleted the session's main key and deletes its tracking key next. */
  ghost predicate Untracks(st: State, t: nat, u: string, s: string) {
    && t in st.tasks
    && (|| st.tasks[t] == Untracking(s, u)
        || (st.tasks[t].Invalidating? && st.tasks[t].half && st.tasks[t].batch != [] && st.tasks[t].batch[0] == TrackKey(u, s)))
  }

  /** Call `t` untracks the session next, and call `e` has read it and will write both keys. */
  ghost predicate Poised(st: State, t: nat, e: nat, s: string, data: SessionData) {
    t != e && e in st.tasks && st.tasks[e] == Extending(s, data) && Untracks(st, t, data.dto.userId, s)
  }

  function TrackingOf(st: State, s: string): set<nat> {
    set i | i in st.tasks && st.tasks[i].Tracking? && st.tasks[i].s == s
  }

  /** A second write of another call leaves the two as they are. */
  lemma TrackingStep(timeout: nat, st: State, t: nat, e: nat, s: string, data: SessionData, i: nat)
    requires Poised(st, t, e, s, data) && i in TrackingOf(st, s)
    ensures Scheduled(st, Run(i)) && Poised(Next(timeout, st, Run(i)), t, e, s, data)
    ensures TrackingOf(Next(timeout, st, Run(i)), s) == TrackingOf(st, s) - {i}
  {
    hide Next, TrackKey;
    NextIs(timeout, st, Run(i));
  }

  lemma {:induction false} TrackingDone(timeout: nat, st: State, t: nat, e: nat, s: string, data: SessionData)
    returns (more: seq<Label>)
    requires Poised(st, t, e, s, data)
    ensures Clean(timeout, st, more)
    ensures Poised(Continue(timeout, st, more), t, e, s, data) && TrackingOf(Continue(timeout, st, more), s) == {}
    decreases TrackingOf(st, s)
  {
    hide Next, Scheduled, Poised;
    if TrackingOf(st, s) == {} {
      more := [];
    } else {
      var i :| i in TrackingOf(st, s);
      TrackingStep(timeout, st, t, e, s, data, i);
      CleanOne(timeout, st, Run(i));
      more := TrackingDone(timeout, Next(timeout, st, Run(i)), t, e, s, data);
      CleanSum(timeout, st, [Run(i)], more);
      more := [Run(i)] + more;
    }
  }

  lemma WritesMain(timeout: nat, st: State, t: nat, e: nat, s: string, data: SessionData)
    requires Poised(st, t, e, s, data) && TrackingOf(st, s) == {}
    ensures Scheduled(st, Run(e))
    ensures
      var st' := Next(timeout, st, Run(e));
      && Session(st'.db, s) == Some(data) && Untracks(st', t, data.dto.userId, s)
      && e in st'.tasks && st'.tasks[e] == Tracking(s, data.dto.userId) && TrackingOf(st', s) == {e}
  {
    hide Next, TrackKey;
    NextIs(timeout, st, Run(e));
    assert forall i :: i in st.tasks && st.tasks[i].Tracking? && st.tasks[i].s == s ==> i in TrackingOf(st, s);
  }

  lemma WritesTrack(timeout: nat, st: State, t: nat, e: nat, s: string, u: string)
    requires t != e && e in st.tasks && st.tasks[e] == Tracking(s, u) && Untracks(st, t, u, s) && TrackingOf(st, s) == {e}
    ensures Scheduled(st, Run(e))
    ensures
      var st' := Next(timeout, st, Run(e));
      Session(st'.db, s) == Session(st.db, s) && Untracks(st', t, u, s) && TrackingOf(st', s) == {}
  {
    hide Next;
    NextIs(timeout, st, Run(e));
    NamespacesDisjoint(s, u, s, "");
    assert forall i :: i in st.tasks && st.tasks[i].Tracking? && st.tasks[i].s == s ==> i in TrackingOf(st, s);
  }

  lemma Untracked(timeout: nat, st: State, t: nat, s: string, u: string)
    requires Untracks(st, t, u, s) && TrackingOf(st, s) == {}
    requires Session(st.db, s).Some? && Session(st.db, s).value.dto.userId == u
    ensures Scheduled(st, Run(t)) && !Indexed(Next(timeout, st, Run(t)), s)
  {
    hide Next;
    NextIs(timeout, st, Run(t));
    NamespacesDisjoint(s, u, s, "");
    assert forall i :: i in st.tasks && st.tasks[i].Tracking? && st.tasks[i].s == s ==> i in TrackingOf(st, s);
  }

  /** From a poised state the extension's two writes and then the second deletion leave a live session untracked. */
  lemma PoisedLosesIndex(timeout: nat, st: State, t: nat, e: nat, s: string, data: SessionData) returns (more: seq<Label>)
    requires Poised(st, t, e, s, data)
    ensures Clean(timeout, st, more) && !Indexed(Continue(timeout, st, more), s)
  {
    hide Next, Scheduled, Indexed, Session, Untracks;
    more := TrackingDone(timeout, st, t, e, s, data);
    var st1 := Continue(timeout, st, more);
    WritesMain(timeout, st1, t, e, s, data);
    var st2 := Next(timeout, st1, Run(e));
    WritesTrack(timeout, st2, t, e, s, data.dto.userId);
    var st3 := Next(timeout, st2, Run(e));
    Untracked(timeout, st3, t, s, data.dto.userId);
    ThreeSteps(timeout, st1, Run(e), Run(e), Run(t));
    CleanSum(timeout, st, more, [Run(e), Run(e), Run(t)]);
    more := more + [Run(e), Run(e), Run(t)];
  }

  lemma ThreeSteps(timeout: nat, st: State, a: Label, b: Label, c: Label)
    requires Scheduled(st, a) && Scheduled(Next(timeout, st, a), b)
    requires Scheduled(Next(timeout, Next(timeout, st, a), b), c)
    ensures Clean(timeout, st, [a, b, c])
    ensures Continue(timeout, st, [a, b, c]) == Next(timeout, Next(timeout, Next(timeout, st, a), b), c)
  {
    hide Next, Enabled, DeletesUnderExtend;
    var st1 := Next(timeout, st, a);
    CleanOne(timeout, Next(timeout, st1, b), c);
    CleanOne(timeout, st1, b);
    CleanSum(timeout, st1, [b], [c]);
    CleanOne(timeout, st, a);
    CleanSum(timeout, st, [a], [b, c]);
    assert [b] + [c] == [b, c] && [a] + [b, c] == [a, b, c];
  }

  /** A deletion of the main key under an extension that has read the session leads to a poised state. */
  lemma OverlapPoises(timeout: nat, st: State, a: Label) returns (e: nat, s: string, data: SessionData)
    requires Inv(timeout, st) && Enabled(st, a) && DeletesUnderExtend(st, a)
    ensures a.Run? && Poised(Next(timeout, st, a), a.t, e, s, data)
  {
    hide Next, StoreOk, Indexed;
    NextIs(timeout, st, a);
    var task := st.tasks[a.t];
    assert TaskOk(st, task);
    if task.Destroying? {
      s := task.s;
    } else {
      StoreOf(timeout, st);
      s := BatchSession(timeout, st, task, 0);
    }
    assert ExtendInFlight(st, s);
    e :| e in st.tasks && Extends(st.tasks[e], s);
    data := st.tasks[e].data;
    assert TaskOk(st, st.tasks[e]);
  }

  lemma StoreOf(timeout: nat, st: State)
    requires Inv(timeout, st)
    ensures StoreOk(timeout, st)
  {
  }

  /**
   The assumption is exact, step by step: a step that breaks it, and no other, can be continued without
   breaking it again to a live session that has lost its tracking key with no write of it to come.
   */
  lemma OverlapBreaksIff(timeout: nat, st: State, a: Label)
    requires timeout > 0 && Inv(timeout, st) && Enabled(st, a)
    ensures DeletesUnderExtend(st, a) <==> !KeepsIndex(timeout, Next(timeout, st, a))
  {
    hide Next, Inv, Enabled, DeletesUnderExtend, Indexed;
    if DeletesUnderExtend(st, a) {
      var e, s, data := OverlapPoises(timeout, st, a);
      var more := PoisedLosesIndex(timeout, Next(timeout, st, a), a.t, e, s, data);
      assert !Agrees(Continue(timeout, Next(timeout, st, a), more));
    } else {
      StepKeepsInv(timeout, st, a);
      InvKeepsIndex(timeout, Next(timeout, st, a));
    }
  }

  lemma InvKeepsIndex(timeout: nat, st: State)
    requires timeout > 0 && Inv(timeout, st)
    ensures KeepsIndex(timeout, st)
  {
    hide Next, Scheduled, Clean, Continue;
    forall more | Clean(timeout, st, more) ensures Agrees(Continue(timeout, st, more)) {
      CleanKeepsInv(timeout, st, more);
    }
  }

  /** Every label can happen, but a deletion may overlap an extension. */
  ghost predicate RawRun(timeout: nat, run: seq<Label>) {
    forall i :: 0 <= i < |run| ==> Enabled(After(timeout, run[..i]), run[i])
  }

  /**
   The assumption is exact for runs: a run obeys it if and only if at every moment of the run every
   continuation that obeys it keeps index and sessions in agreement.
   */
  lemma ScheduledIff(timeout: nat, run: seq<Label>)
    requires timeout > 0 && RawRun(timeout, run)
    ensures ScheduledRun(timeout, run) <==> forall n :: 0 <= n <= |run| ==> KeepsIndex(timeout, After(timeout, run[..n]))
  {
    hide Next, Inv, KeepsIndex, Enabled;
    if ScheduledRun(timeout, run) {
      forall n | 0 <= n <= |run| ensures KeepsIndex(timeout, After(timeout, run[..n])) {
        PrefixScheduled(timeout, run, n);
        RunInv(timeout, run[..n]);
        InvKeepsIndex(timeout, After(timeout, run[..n]));
      }
    } else {
      var n := FirstOverlap(timeout, run);
      RunInv(timeout, run[..n]);
      OverlapBreaksIff(timeout, After(timeout, run[..n]), run[n]);
      assert run[..n + 1][..n] == run[..n];
    }
  }

  lemma {:induction false} FirstOverlap(timeout: nat, run: seq<Label>) returns (n: nat)
    requires RawRun(timeout, run) && !ScheduledRun(timeout, run)
    ensures n < |run| && ScheduledRun(timeout, run[..n]) && !ScheduledAt(timeout, run, n)
    ensures Enabled(After(timeout, run[..n]), run[n]) && DeletesUnderExtend(After(timeout, run[..n]), run[n])
    decreases |run|
  {
    hide Next, Enabled, DeletesUnderExtend, After;
    var m := |run| - 1;
    forall i | 0 <= i < m ensures Enabled(After(timeout, run[..m][..i]), run[..m][i]) {
      assert run[..m][..i] == run[..i];
    }
    if ScheduledRun(timeout, run[..m]) {
      n := m;
      forall i | 0 <= i < m ensures ScheduledAt(timeout, run, i) {
        assert ScheduledAt(timeout, run[..m], i) && run[..m][..i] == run[..i];
      }
    } else {
      n := FirstOverlap(timeout, run[..m]);
      assert run[..m][..n] == run[..n];
    }
  }

  lemma RawStep(timeout: nat, run: seq<Label>, a: Label)
    requires RawRun(timeout, run) && Enabled(After(timeout, run), a)
    ensures RawRun(timeout, run + [a]) && After(timeout, run + [a]) == Next(timeout, After(timeout, run), a)
  {
    var all := run + [a];
    assert all[..|run|] == run;
    forall i | 0 <= i < |all| ensures Enabled(After(timeout, all[..i]), all[i]) {
      if i < |run| {
        assert all[..i] == run[..i];
      }
    }
  }

  lemma StoredSession(dto: SessionDto) returns (run: seq<Label>)
    requires ColonFree(dto.userId) && GlobFree(dto.userId)
    ensures RawRun(10, run) && After(10, run).tasks == map[]
    ensures Session(After(10, run).db, "s") == Some(SessionData(dto, 0, 0))
  {
    var u := dto.userId;
    NamespacesDisjoint("s", u, "s", "");
    run := [];
    RawStep(10, run, BeginCreate(0, "s", dto));
    run := run + [BeginCreate(0, "s", dto)];
    assert After(10, run).tasks == map[0 := Creating("s", dto)];
    RawStep(10, run, Run(0));
    run := run + [Run(0)];
    assert After(10, run).tasks == map[0 := Tracking("s", u)];
    RawStep(10, run, Run(0));
    run := run + [Run(0)];
    assert After(10, run).tasks == map[];
  }

  lemma ReadTwice(st: State, data: SessionData) returns (st': State)
    requires st.tasks == map[] && Session(st.db, "s") == Some(data)
    ensures Enabled(st, BeginExtend(1, "s")) && Enabled(Next(10, st, BeginExtend(1, "s")), BeginDestroy(2, "s"))
    ensures st' == Next(10, Next(10, st, BeginExtend(1, "s")), BeginDestroy(2, "s"))
    ensures st'.db == st.db
    ensures st'.tasks == map[1 := Extending("s", data.(lastActivity := st.now)), 2 := Destroying("s", data.dto.userId)]
  {
    var st1 := Next(10, st, BeginExtend(1, "s"));
    assert st1.tasks == map[1 := Extending("s", data.(lastActivity := st.now))];
    st' := Next(10, st1, BeginDestroy(2, "s"));
  }

  lemma DeleteMain(st: State, data: SessionData) returns (st': State)
    requires st.tasks == map[1 := Extending("s", data), 2 := Destroying("s", data.dto.userId)]
    ensures Enabled(st, Run(2)) && st' == Next(10, st, Run(2))
    ensures st'.tasks == map[1 := Extending("s", data), 2 := Untracking("s", data.dto.userId)]
  {
    st' := Next(10, st, Run(2));
  }

  lemma WriteMain(st: State, data: SessionData) returns (st': State)
    requires st.tasks == map[1 := Extending("s", data), 2 := Untracking("s", data.dto.userId)]
    ensures Enabled(st, Run(1)) && st' == Next(10, st, Run(1))
    ensures Session(st'.db, "s") == Some(data)
    ensures st'.tasks == map[1 := Tracking("s", data.dto.userId), 2 := Untracking("s", data.dto.userId)]
  {
    st' := Next(10, st, Run(1));
  }

  lemma DeleteThenWrite(st: State, data: SessionData) returns (st': State)
    requires st.tasks == map[1 := Extending("s", data), 2 := Destroying("s", data.dto.userId)]
    ensures Enabled(st, Run(2)) && Enabled(Next(10, st, Run(2)), Run(1))
    ensures st' == Next(10, Next(10, st, Run(2)), Run(1))
    ensures Session(st'.db, "s") == Some(data)
    ensures st'.tasks == map[1 := Tracking("s", data.dto.userId), 2 := Untracking("s", data.dto.userId)]
  {
    hide Next, Enabled;
    var st1 := DeleteMain(st, data);
    st' := WriteMain(st1, data);
  }

  lemma TrackThenUntrack(st: State, u: string) returns (st': State)
    requires st.tasks == map[1 := Tracking("s", u), 2 := Untracking("s", u)]
    ensures Enabled(st, Run(1)) && Enabled(Next(10, st, Run(1)), Run(2))
    ensures st' == Next(10, Next(10, st, Run(1)), Run(2))
    ensures st'.tasks == map[] && Session(st'.db, "s") == Session(st.db, "s") && TrackKey(u, "s") !in st'.db
  {
    NamespacesDisjoint("s", u, "s", "");
    var st1 := Next(10, st, Run(1));
    assert st1.tasks == map[2 := Untracking("s", u)];
    st' := Next(10, st1, Run(2));
  }

  lemma RawTwoSteps(timeout: nat, run: seq<Label>, a: Label, b: Label)
    requires RawRun(timeout, run) && Enabled(After(timeout, run), a)
    requires Enabled(Next(timeout, After(timeout, run), a), b)
    ensures RawRun(timeout, run + [a, b])
    ensures After(timeout, run + [a, b]) == Next(timeout, Next(timeout, After(timeout, run), a), b)
  {
    RawStep(timeout, run, a);
    RawStep(timeout, run + [a], b);
    assert run + [a] + [b] == run + [a, b];
  }

  /**
   A destroy that overlaps an extension of its session: the extension has read the session, the destroy
   deletes the main key, the extension writes both keys, the destroy deletes the tracking key. With
   nothing left in flight the session is live and no invalidation will ever find it.
   */
  lemma OverlapLosesIndex(dto: SessionDto) returns (run: seq<Label>)
    requires ColonFree(dto.userId) && GlobFree(dto.userId)
    ensures RawRun(10, run)
    ensures
      var st := After(10, run);
      st.tasks == map[] && Session(st.db, "s").Some? && TrackKey(dto.userId, "s") !in st.db
  {
    run := StoredSession(dto);
    var st := After(10, run);
    var st1 := ReadTwice(st, SessionData(dto, 0, 0));
    RawTwoSteps(10, run, BeginExtend(1, "s"), BeginDestroy(2, "s"));
    run := run + [BeginExtend(1, "s"), BeginDestroy(2, "s")];
    var st2 := DeleteThenWrite(st1, SessionData(dto, 0, st.now));
    RawTwoSteps(10, run, Run(2), Run(1));
    run := run + [Run(2), Run(1)];
    var st3 := TrackThenUntrack(st2, dto.userId);
    RawTwoSteps(10, run, Run(1), Run(2));
    run := run + [Run(1), Run(2)];
  }
}
