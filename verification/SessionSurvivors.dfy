/** What a bulk invalidation can miss when its loop interleaves with calls that write sessions, exactly. */
module SessionSurvivors {
  import opened Text
  import opened Redis
  import opened SessionKeys
  import opened Sessions
  import opened SessionInterleaving
  import opened SessionInvalidation

  // ---------- continuations to the end of the loop ----------

  /** A continuation that obeys the assumption on schedules and ends with the end of the loop of call `t`. */
  ghost predicate Ends(timeout: nat, st: State, more: seq<Label>, t: nat)
    decreases |more|
  {
    && more != [] && Scheduled(st, more[0])
    && var st' := Next(timeout, st, more[0]);
       if |more| == 1 then more[0] == Run(t) && t !in st'.tasks
       else t in st'.tasks && Ends(timeout, st', more[1..], t)
  }

  ghost function Final(timeout: nat, st: State, more: seq<Label>, t: nat): State
    requires Ends(timeout, st, more, t)
    decreases |more|
  {
    var st' := Next(timeout, st, more[0]);
    if |more| == 1 then st' else Final(timeout, st', more[1..], t)
  }

  /** Somewhere in the continuation an extension begins and finds the session. */
  ghost predicate FoundMeanwhile(timeout: nat, st: State, more: seq<Label>, t: nat, s: string)
    requires Ends(timeout, st, more, t)
    decreases |more|
  {
    || ExtendsFound(st, more[0], s)
    || (|more| > 1 && FoundMeanwhile(timeout, Next(timeout, st, more[0]), more[1..], t, s))
  }

  /** The loop runs to its end and no extension finds the session meanwhile. */
  ghost predicate Completes(timeout: nat, st: State, more: seq<Label>, t: nat, s: string) {
    Ends(timeout, st, more, t) && !FoundMeanwhile(timeout, st, more, t, s)
  }

  ghost predicate Gone(st: State, u: string, s: string) {
    Session(st.db, s).None? && TrackKey(u, s) !in st.db
  }

  /** The session is live and its tracking key is there and lives as long. */
  predicate Covered(st: State, u: string, s: string) {
    && Session(st.db, s).Some? && TrackKey(u, s) in st.db
    && st.db[MainKey(s)].expiresAt <= st.db[TrackKey(u, s)].expiresAt
  }

  // ---------- what the loop cannot miss ----------

  /** Dead with nobody to write it back, or covered by a tracking key that the loop of call `t` still has to come to. */
  ghost predicate Hunted(st: State, t: nat, u: string, s: string) {
    && t in st.tasks && st.tasks[t].Invalidating? && st.tasks[t].u == u
    && Known(st, s, u) && !ExtendInFlight(st, s)
    && (|| Session(st.db, s).None?
        || (Covered(st, u, s) && (TrackKey(u, s) in st.tasks[t].owed || TrackKey(u, s) in st.tasks[t].batch)))
  }

  /** Without an extension in flight a written session's main key is not written again. */
  lemma MainOnlyGoes(timeout: nat, st: State, a: Label, s: string, u: string)
    requires Inv(timeout, st) && Enabled(st, a) && Known(st, s, u) && !ExtendInFlight(st, s)
    ensures
      var db := NextDb(timeout, st, a);
      MainKey(s) in db ==> MainKey(s) in st.db && db[MainKey(s)] == st.db[MainKey(s)]
  {
    hide Indexed, StoreOk, GlobMatch, MainKey, TrackKey;
    if a.Run? {
      var task := st.tasks[a.t];
      assert TaskOk(st, task);
      if task.Creating? || task.Extending? {
        assert task.Extending? ==> Extends(task, task.s);
        if MainKey(task.s) == MainKey(s) {
          MainKeyInjective(task.s, s);
        }
      } else if task.Tracking? {
        NamespacesDisjoint(s, task.u, task.s, "");
      }
    }
  }

  /** As long as a covered session is live it stays covered: its tracking key is only deleted after its main key. */
  lemma CoverStays(timeout: nat, st: State, a: Label, s: string, u: string)
    requires timeout > 0 && Inv(timeout, st) && Enabled(st, a) && Known(st, s, u) && !ExtendInFlight(st, s)
    requires Covered(st, u, s)
    ensures
      var db := NextDb(timeout, st, a);
      var track := TrackKey(u, s);
      MainKey(s) in db ==> track in db && st.db[MainKey(s)].expiresAt <= db[track].expiresAt
  {
    hide Indexed, GlobMatch, MainKey, TrackKey, SessionIdOf;
    KeepsExpiry(timeout, st, MainKey(s));
    if a.Run? {
      TrackSurvives(timeout, st, a.t, s, u);
    }
  }

  lemma TrackSurvives(timeout: nat, st: State, t: nat, s: string, u: string)
    requires timeout > 0 && Inv(timeout, st) && Enabled(st, Run(t)) && Known(st, s, u) && Covered(st, u, s)
    requires st.db[MainKey(s)].expiresAt <= st.now + timeout
    ensures
      var db := NextDb(timeout, st, Run(t));
      TrackKey(u, s) in db && st.db[MainKey(s)].expiresAt <= db[TrackKey(u, s)].expiresAt
  {
    hide Indexed, GlobMatch, MainKey, TrackKey, SessionIdOf, Extends;
    var task := st.tasks[t];
    assert TaskOk(st, task);
    match task {
      case Creating(x, _) => NamespacesDisjoint(x, u, s, "");
      case Extending(x, _) => NamespacesDisjoint(x, u, s, "");
      case Destroying(x, _) => NamespacesDisjoint(x, u, s, "");
      case Tracking(_, _) =>
      case Untracking(x, v) =>
        if TrackKey(v, x) == TrackKey(u, s) {
          TrackKeyInjective(v, x, u, s);
        }
      case Invalidating(_, batch, half, _, _, _, _) =>
        if batch != [] {
          NamespacesDisjoint(SessionIdOf(batch[0]), u, s, "");
          if half && batch[0] == TrackKey(u, s) {
            SessionIdRoundTrip(u, s);
          }
        }
    }
  }

  lemma NoNewExtension(timeout: nat, st: State, a: Label, s: string)
    requires Enabled(st, a) && !ExtendInFlight(st, s) && !ExtendsFound(st, a, s)
    ensures !ExtendInFlight(Next(timeout, st, a), s)
  {
    hide GlobMatch;
    var tasks := if a.Tick? then st.tasks else WithTask(st.tasks, a.t, NextTask(st, a));
    assert forall i :: i in st.tasks ==> !Extends(st.tasks[i], s);
    forall i | i in Next(timeout, st, a).tasks ensures !Extends(Next(timeout, st, a).tasks[i], s) {
      assert !Extends(tasks[i], s);
    }
  }

  lemma HuntedStep(timeout: nat, st: State, a: Label, t: nat, u: string, s: string)
    requires timeout > 0 && Inv(timeout, st) && Scheduled(st, a) && Hunted(st, t, u, s) && !ExtendsFound(st, a, s)
    requires t in Next(timeout, st, a).tasks
    ensures Hunted(Next(timeout, st, a), t, u, s)
  {
    hide GlobMatch, MainKey, TrackKey, SessionIdOf, Inv, Indexed, DeletesUnderExtend;
    MainOnlyGoes(timeout, st, a, s, u);
    if Covered(st, u, s) {
      CoverStays(timeout, st, a, s, u);
    }
    NoNewExtension(timeout, st, a, s);
    HuntersTask(timeout, st, a, t, u, s);
  }

  /** The tracking key stays owed or in the batch until the loop has deleted the main key. */
  lemma HuntersTask(timeout: nat, st: State, a: Label, t: nat, u: string, s: string)
    requires timeout > 0 && Inv(timeout, st) && Scheduled(st, a) && Hunted(st, t, u, s)
    requires t in Next(timeout, st, a).tasks
    ensures
      var st' := Next(timeout, st, a);
      && st'.tasks[t].Invalidating? && st'.tasks[t].u == u && Known(st', s, u)
      && (MainKey(s) in st'.db && TrackKey(u, s) in st'.db && Session(st.db, s).Some? ==>
            TrackKey(u, s) in st'.tasks[t].owed || TrackKey(u, s) in st'.tasks[t].batch)
  {
    hide GlobMatch, MainKey, TrackKey, SessionIdOf, StoreOk, Indexed, DeletesUnderExtend;
    var task := st.tasks[t];
    assert TaskOk(st, task);
    SessionIdOfTrack(timeout, st, s, u);
    if OwnStep(a, t) && a.Run? && task.batch != [] {
      assert task.batch == [task.batch[0]] + task.batch[1..];
    }
  }

  lemma SessionIdOfTrack(timeout: nat, st: State, s: string, u: string)
    requires Inv(timeout, st) && Known(st, s, u)
    ensures SessionIdOf(TrackKey(u, s)) == s
  {
    SessionIdRoundTrip(u, s);
  }

  /** A hunted session is dead when the loop ends, unless an extension has found it meanwhile. */
  lemma {:induction false} HuntedDies(timeout: nat, st: State, more: seq<Label>, t: nat, u: string, s: string)
    requires timeout > 0 && Inv(timeout, st) && Hunted(st, t, u, s) && Completes(timeout, st, more, t, s)
    ensures Session(Final(timeout, st, more, t).db, s).None?
    decreases |more|
  {
    hide Next, Inv, Hunted, DeletesUnderExtend, Enabled, ExtendsFound, Session;
    if |more| == 1 {
      LoopEndsDead(timeout, st, t, u, s);
    } else {
      StepKeepsInv(timeout, st, more[0]);
      HuntedStep(timeout, st, more[0], t, u, s);
      HuntedDies(timeout, Next(timeout, st, more[0]), more[1..], t, u, s);
    }
  }

  lemma LoopEndsDead(timeout: nat, st: State, t: nat, u: string, s: string)
    requires Inv(timeout, st) && Hunted(st, t, u, s) && Enabled(st, Run(t)) && t !in Next(timeout, st, Run(t)).tasks
    ensures Session(Next(timeout, st, Run(t)).db, s).None?
  {
    hide GlobMatch, MainKey, TrackKey, SessionIdOf, StoreOk, Indexed;
    assert TaskOk(st, st.tasks[t]);
    OwnStepShrinks(timeout, st, Run(t), t);
  }

  lemma BeginHunts(timeout: nat, st: State, t: nat, u: string, rounds: nat, s: string)
    requires timeout > 0 && Inv(timeout, st) && Enabled(st, BeginInvalidate(t, u, rounds)) && Known(st, s, u)
    requires !CanStay(st, u, s)
    ensures Hunted(Next(timeout, st, BeginInvalidate(t, u, rounds)), t, u, s)
  {
    hide Next, GlobMatch, MainKey, TrackKey, StoreOk, Indexed, TaskOk;
    var a := BeginInvalidate(t, u, rounds);
    NextIs(timeout, st, a);
    NoNewExtension(timeout, st, a, s);
    if Session(st.db, s).Some? {
      TrackMatched(timeout, st, u, s);
    }
  }

  lemma TrackMatched(timeout: nat, st: State, u: string, s: string)
    requires Inv(timeout, st) && Known(st, s, u) && TrackKey(u, s) in st.db
    ensures TrackKey(u, s) in Matching(st.db, ScanPattern(u))
  {
    PatternMatchesExactly(u, TrackKey(u, s));
  }

  // ---------- what the loop can miss ----------

  /** An extension is in flight, or the session is live without a tracking key that lives as long. */
  predicate CanStay(st: State, u: string, s: string) {
    ExtendInFlight(st, s) || (Session(st.db, s).Some? && !Covered(st, u, s))
  }

  /** Some completion leaves the session live. */
  ghost predicate CanEndLive(timeout: nat, st: State, t: nat, s: string) {
    exists more :: Completes(timeout, st, more, t, s) && Session(Final(timeout, st, more, t).db, s).Some?
  }

  /** Some completion leaves one of the two keys. */
  ghost predicate CanMiss(timeout: nat, st: State, t: nat, u: string, s: string) {
    exists more :: Completes(timeout, st, more, t, s) && !Gone(Final(timeout, st, more, t), u, s)
  }

  lemma FirstStep(timeout: nat, st: State, a: Label, more: seq<Label>, t: nat, s: string)
    requires Scheduled(st, a) && !ExtendsFound(st, a, s) && t in Next(timeout, st, a).tasks
    requires Completes(timeout, Next(timeout, st, a), more, t, s)
    ensures Completes(timeout, st, [a] + more, t, s)
    ensures Final(timeout, st, [a] + more, t) == Final(timeout, Next(timeout, st, a), more, t)
  {
    hide Next, Scheduled, ExtendsFound;
    assert ([a] + more)[1..] == more;
  }

  lemma LiveBefore(timeout: nat, st: State, a: Label, t: nat, s: string)
    requires Scheduled(st, a) && !ExtendsFound(st, a, s) && t in Next(timeout, st, a).tasks
    requires CanEndLive(timeout, Next(timeout, st, a), t, s)
    ensures CanEndLive(timeout, st, t, s)
  {
    hide Next, Enabled, DeletesUnderExtend, ExtendsFound, Ends, FoundMeanwhile, Final, Session;
    var more :| Completes(timeout, Next(timeout, st, a), more, t, s)
      && Session(Final(timeout, Next(timeout, st, a), more, t).db, s).Some?;
    FirstStep(timeout, st, a, more, t, s);
  }

  lemma MissBefore(timeout: nat, st: State, a: Label, t: nat, u: string, s: string)
    requires Scheduled(st, a) && !ExtendsFound(st, a, s) && t in Next(timeout, st, a).tasks
    requires CanMiss(timeout, Next(timeout, st, a), t, u, s)
    ensures CanMiss(timeout, st, t, u, s)
  {
    hide Next, Enabled, DeletesUnderExtend, ExtendsFound, Ends, FoundMeanwhile, Final, Gone;
    var more :| Completes(timeout, Next(timeout, st, a), more, t, s)
      && !Gone(Final(timeout, Next(timeout, st, a), more, t), u, s);
    FirstStep(timeout, st, a, more, t, s);
  }

  /** The SCAN loop of call `t` before its last reply, with an empty batch. */
  predicate Asking(st: State, t: nat, u: string) {
    t in st.tasks && st.tasks[t].Invalidating? && st.tasks[t].u == u && st.tasks[t].batch == [] && !st.tasks[t].last
  }

  /** The loop has had its last reply and has nothing left to delete. */
  predicate AtEnd(st: State, t: nat) {
    t in st.tasks && st.tasks[t].Invalidating? && st.tasks[t].batch == [] && st.tasks[t].last
  }

  lemma EndsHere(timeout: nat, st: State, t: nat, u: string, s: string)
    requires AtEnd(st, t)
    ensures Session(st.db, s).Some? ==> CanEndLive(timeout, st, t, s)
    ensures !Gone(st, u, s) ==> CanMiss(timeout, st, t, u, s)
  {
    hide Next, MainKey, TrackKey;
    NextIs(timeout, st, Run(t));
    assert Completes(timeout, st, [Run(t)], t, s);
    assert Final(timeout, st, [Run(t)], t) == Next(timeout, st, Run(t));
  }

  /** After a whole timeout nothing is stored and nothing owed. */
  lemma AllExpire(timeout: nat, st: State, t: nat, u: string)
    requires Inv(timeout, st) && Asking(st, t, u)
    ensures
      var st' := Next(timeout, st, Tick(timeout));
      && Asking(st', t, u) && st'.tasks[t].owed == {} && st'.db == map[]
      && forall i :: i in st.tasks && !st.tasks[i].Invalidating? ==> i in st'.tasks && st'.tasks[i] == st.tasks[i]
  {
    hide TaskOk, Indexed, GlobMatch;
  }

  lemma LastReply(timeout: nat, st: State, t: nat, u: string)
    requires Asking(st, t, u) && st.tasks[t].owed == {}
    ensures Scheduled(st, ScanAnswer(t, [], true))
    ensures
      var st' := Next(timeout, st, ScanAnswer(t, [], true));
      && AtEnd(st', t) && st'.db == st.db && st'.now == st.now
      && forall i :: i in st.tasks && !st.tasks[i].Invalidating? ==> i in st'.tasks && st'.tasks[i] == st.tasks[i]
  {
    hide Next, GlobMatch;
    NextIs(timeout, st, ScanAnswer(t, [], true));
  }

  /** The write that comes after the last reply. */
  lemma LateWrite(timeout: nat, st: State, t: nat, w: nat, u: string, s: string)
    requires AtEnd(st, t) && w in st.tasks && Writes(st.tasks[w], s) && !st.tasks[w].Creating?
    requires st.tasks[w].Tracking? ==> st.tasks[w].u == u
    ensures Scheduled(st, Run(w)) && AtEnd(Next(timeout, st, Run(w)), t)
    ensures !Gone(Next(timeout, st, Run(w)), u, s)
    ensures st.tasks[w].Extending? ==> Session(Next(timeout, st, Run(w)).db, s).Some?
    ensures st.tasks[w].Tracking? ==>
      TrackKey(u, s) in Next(timeout, st, Run(w)).db && Session(Next(timeout, st, Run(w)).db, s) == Session(st.db, s)
  {
    hide Next;
    NextIs(timeout, st, Run(w));
    NamespacesDisjoint(s, u, s, "");
  }

  /** Everything expires, SCAN answers with nothing, and only then comes the write in flight. */
  lemma WriterSlipsThrough(timeout: nat, st: State, t: nat, w: nat, u: string, s: string)
    requires Inv(timeout, st) && Asking(st, t, u) && w in st.tasks && Writes(st.tasks[w], s) && !st.tasks[w].Creating?
    requires st.tasks[w].Tracking? ==> st.tasks[w].u == u
    ensures CanMiss(timeout, st, t, u, s)
    ensures st.tasks[w].Extending? ==> CanEndLive(timeout, st, t, s)
  {
    hide Next, Inv, Scheduled, CanMiss, CanEndLive, Session, Gone, Writes;
    AllExpire(timeout, st, t, u);
    var st1 := Next(timeout, st, Tick(timeout));
    assert !st.tasks[w].Invalidating? by { WritersDoNotScan(st.tasks[w], s); }
    LastReply(timeout, st1, t, u);
    var st2 := Next(timeout, st1, ScanAnswer(t, [], true));
    LateWrite(timeout, st2, t, w, u, s);
    var st3 := Next(timeout, st2, Run(w));
    EndsHere(timeout, st3, t, u, s);
    MissBefore(timeout, st2, Run(w), t, u, s);
    MissBefore(timeout, st1, ScanAnswer(t, [], true), t, u, s);
    TickScheduled(st, timeout);
    MissBefore(timeout, st, Tick(timeout), t, u, s);
    if st.tasks[w].Extending? {
      LiveBefore(timeout, st2, Run(w), t, s);
      LiveBefore(timeout, st1, ScanAnswer(t, [], true), t, s);
      LiveBefore(timeout, st, Tick(timeout), t, s);
    }
  }

  lemma TickScheduled(st: State, d: nat)
    ensures Scheduled(st, Tick(d))
  {
  }

  lemma WritersDoNotScan(task: Task, s: string)
    requires Writes(task, s)
    ensures !task.Invalidating?
  {
  }

  /** The loop is on its way past a live session whose tracking key SCAN will not return; no extension is in flight. */
  ghost predicate Passing(st: State, t: nat, u: string, s: string) {
    && t in st.tasks && st.tasks[t].Invalidating? && st.tasks[t].u == u && st.tasks[t].last
    && Known(st, s, u) && Session(st.db, s).Some? && TrackKey(u, s) !in st.tasks[t].batch
    && forall i :: i in st.tasks ==> !st.tasks[i].Extending?
  }

  lemma PassingStep(timeout: nat, st: State, t: nat, u: string, s: string)
    requires timeout > 0 && Inv(timeout, st) && Passing(st, t, u, s) && st.tasks[t].batch != []
    ensures Scheduled(st, Run(t))
    ensures
      var st' := Next(timeout, st, Run(t));
      Passing(st', t, u, s) && Below(Rest(st'.tasks[t]), Rest(st.tasks[t]))
      && Rest(st'.tasks[t]).0 == Rest(st.tasks[t]).0
  {
    hide Next, GlobMatch, MainKey, TrackKey, SessionIdOf, Indexed;
    NextIs(timeout, st, Run(t));
    assert TaskOk(st, st.tasks[t]);
    var x := BatchSession(timeout, st, st.tasks[t], 0);
    assert st.tasks[t].batch[0] in st.tasks[t].batch;
    assert x != s;
    MainKeyDiffers(timeout, st, x, u, s);
  }

  lemma MainKeyDiffers(timeout: nat, st: State, x: string, u: string, s: string)
    requires x != s
    ensures MainKey(x) != MainKey(s) && TrackKey(u, x) != MainKey(s) && MainKey(x) != TrackKey(u, s)
  {
    if MainKey(x) == MainKey(s) {
      MainKeyInjective(x, s);
    }
    NamespacesDisjoint(s, u, x, "");
    NamespacesDisjoint(x, u, s, "");
  }

  lemma {:induction false} PassesBy(timeout: nat, st: State, t: nat, u: string, s: string)
    requires timeout > 0 && Inv(timeout, st) && Passing(st, t, u, s)
    ensures CanEndLive(timeout, st, t, s)
    decreases Rest(st.tasks[t]).1
  {
    hide Next, Inv, Enabled, DeletesUnderExtend, CanEndLive, Session;
    if st.tasks[t].batch == [] {
      EndsHere(timeout, st, t, u, s);
    } else {
      PassingStep(timeout, st, t, u, s);
      StepKeepsInv(timeout, st, Run(t));
      PassesBy(timeout, Next(timeout, st, Run(t)), t, u, s);
      LiveBefore(timeout, st, Run(t), t, s);
    }
  }

  function ExtendersOf(st: State): set<nat> {
    set i | i in st.tasks && st.tasks[i].Extending?
  }

  /** The loop has just begun; the live session outlives its tracking key, and no extension of it is in flight. */
  ghost predicate Outlives(st: State, t: nat, u: string, s: string) {
    && Asking(st, t, u) && Known(st, s, u) && !ExtendInFlight(st, s)
    && Session(st.db, s).Some? && !Covered(st, u, s)
  }

  lemma ExtenderWrites(timeout: nat, st: State, t: nat, u: string, s: string, e: nat)
    requires Inv(timeout, st) && Outlives(st, t, u, s) && e in ExtendersOf(st)
    ensures Scheduled(st, Run(e))
    ensures Outlives(Next(timeout, st, Run(e)), t, u, s)
    ensures ExtendersOf(Next(timeout, st, Run(e))) == ExtendersOf(st) - {e}
  {
    hide Next, GlobMatch, MainKey, TrackKey, SessionIdOf, Indexed, StoreOk;
    NextIs(timeout, st, Run(e));
    var x := st.tasks[e].s;
    assert TaskOk(st, st.tasks[e]);
    assert x != s by { assert !Extends(st.tasks[e], s); }
    MainKeyDiffers(timeout, st, x, u, s);
    WritersKept(st, Next(timeout, st, Run(e)), e, {}, s);
  }

  /** Until the tracking key has expired, if it is there at all. */
  function UntilUntracked(st: State, u: string, s: string): nat {
    if TrackKey(u, s) in st.db && st.db[TrackKey(u, s)].expiresAt > st.now
    then st.db[TrackKey(u, s)].expiresAt - st.now else 0
  }

  lemma TrackRunsOut(timeout: nat, st: State, t: nat, u: string, s: string)
    requires Inv(timeout, st) && Outlives(st, t, u, s) && ExtendersOf(st) == {}
    ensures
      var st' := Next(timeout, st, Tick(UntilUntracked(st, u, s)));
      Outlives(st', t, u, s) && ExtendersOf(st') == {} && TrackKey(u, s) !in st'.db
  {
    hide GlobMatch, MainKey, TrackKey, SessionIdOf, Indexed, TaskOk;
    assert forall i :: i in st.tasks && st.tasks[i].Extending? ==> i in ExtendersOf(st);
  }

  lemma LongReply(timeout: nat, st: State, t: nat, u: string, s: string) returns (keys: seq<string>)
    requires Inv(timeout, st) && Outlives(st, t, u, s) && ExtendersOf(st) == {} && TrackKey(u, s) !in st.db
    ensures Scheduled(st, ScanAnswer(t, keys, true))
    ensures Passing(Next(timeout, st, ScanAnswer(t, keys, true)), t, u, s)
  {
    hide Next, MainKey, TrackKey, Indexed, StoreOk, GlobMatch;
    assert TaskOk(st, st.tasks[t]);
    keys := Listed(st.tasks[t].owed);
    NextIs(timeout, st, ScanAnswer(t, keys, true));
    assert forall i :: i in st.tasks && st.tasks[i].Extending? ==> i in ExtendersOf(st);
  }

  /** Extensions of other sessions make their first write, the tracking key runs out, and the loop passes by. */
  lemma {:induction false} OutlivedIsMissed(timeout: nat, st: State, t: nat, u: string, s: string)
    requires timeout > 0 && Inv(timeout, st) && Outlives(st, t, u, s)
    ensures CanEndLive(timeout, st, t, s)
    decreases ExtendersOf(st)
  {
    hide Next, Inv, Enabled, DeletesUnderExtend, CanEndLive, Session, Covered, UntilUntracked, Known, ExtendInFlight;
    if ExtendersOf(st) != {} {
      var e :| e in ExtendersOf(st);
      ExtenderWrites(timeout, st, t, u, s, e);
      StepKeepsInv(timeout, st, Run(e));
      OutlivedIsMissed(timeout, Next(timeout, st, Run(e)), t, u, s);
      LiveBefore(timeout, st, Run(e), t, s);
    } else {
      var a := Tick(UntilUntracked(st, u, s));
      TickScheduled(st, a.seconds);
      TrackRunsOut(timeout, st, t, u, s);
      StepKeepsInv(timeout, st, a);
      var st' := Next(timeout, st, a);
      var keys := LongReply(timeout, st', t, u, s);
      StepKeepsInv(timeout, st', ScanAnswer(t, keys, true));
      PassesBy(timeout, Next(timeout, st', ScanAnswer(t, keys, true)), t, u, s);
      LiveBefore(timeout, st', ScanAnswer(t, keys, true), t, s);
      LiveBefore(timeout, st, a, t, s);
    }
  }

  // ---------- exactly what the loop misses ----------

  lemma Begun(timeout: nat, st: State, t: nat, u: string, rounds: nat)
    requires Enabled(st, BeginInvalidate(t, u, rounds))
    ensures
      var st' := Next(timeout, st, BeginInvalidate(t, u, rounds));
      && Asking(st', t, u) && st'.db == st.db && st'.used == st.used && st'.born == st.born
      && forall i :: i in st.tasks && !st.tasks[i].Invalidating? ==> i in st'.tasks && st'.tasks[i] == st.tasks[i]
  {
    hide Next, GlobMatch;
    NextIs(timeout, st, BeginInvalidate(t, u, rounds));
  }

  lemma {:induction false} AnsweredIsGone(timeout: nat, st: State, more: seq<Label>, t: nat, u: string, s: string)
    requires timeout > 0 && Inv(timeout, st) && AnswersFor(st, t, u, s) && Completes(timeout, st, more, t, s)
    ensures Gone(Final(timeout, st, more, t), u, s)
    decreases |more|
  {
    hide Next, AnswersFor, DeletesUnderExtend, Enabled, ExtendsFound, Session, TaskOk, StoreOk, Indexed;
    if |more| == 1 {
      EndAnswers(timeout, st, t, u, s);
    } else {
      StepKeepsInv(timeout, st, more[0]);
      LoopOk(timeout, st, t, u, s);
      StaysTarget(timeout, st, more[0], t, u, s);
      AnsweredIsGone(timeout, Next(timeout, st, more[0]), more[1..], t, u, s);
    }
  }

  lemma LoopOk(timeout: nat, st: State, t: nat, u: string, s: string)
    requires Inv(timeout, st) && AnswersFor(st, t, u, s)
    ensures t in st.tasks && TaskOk(st, st.tasks[t])
  {
  }

  /** Who writes a session that has been written before extends it, or has its tracking key to write. */
  lemma WriterOfLive(timeout: nat, st: State, u: string, s: string) returns (w: nat)
    requires Inv(timeout, st) && Known(st, s, u) && WriterInFlight(st, s)
    ensures w in st.tasks && Writes(st.tasks[w], s) && !st.tasks[w].Creating?
    ensures st.tasks[w].Tracking? ==> st.tasks[w].u == u
  {
    w :| w in st.tasks && Writes(st.tasks[w], s);
    assert TaskOk(st, st.tasks[w]);
  }

  lemma OwnerIsKnown(timeout: nat, st: State, u: string, s: string)
    requires Inv(timeout, st) && Session(st.db, s).Some? && Session(st.db, s).value.dto.userId == u
    ensures Known(st, s, u)
  {
  }

  lemma LiveOwner(timeout: nat, st: State, u: string, s: string)
    requires Inv(timeout, st) && Known(st, s, u) && Session(st.db, s).Some?
    ensures Session(st.db, s).value.dto.userId == u
  {
  }

  /**
   When it begins, a bulk invalidation may leave something of a live session exactly if somebody is writing
   the session.
   */
  lemma MissedIff(timeout: nat, st: State, t: nat, u: string, rounds: nat, s: string)
    requires timeout > 0 && Inv(timeout, st) && Enabled(st, BeginInvalidate(t, u, rounds))
    requires Session(st.db, s).Some? && Session(st.db, s).value.dto.userId == u
    ensures CanMiss(timeout, Next(timeout, st, BeginInvalidate(t, u, rounds)), t, u, s) <==> WriterInFlight(st, s)
  {
    hide Next, Inv, Enabled, DeletesUnderExtend, Gone, AnswersFor, Ends, Final, FoundMeanwhile;
    var a := BeginInvalidate(t, u, rounds);
    BeginScheduled(st, t, u, rounds);
    StepKeepsInv(timeout, st, a);
    OwnerIsKnown(timeout, st, u, s);
    var st' := Next(timeout, st, a);
    if WriterInFlight(st, s) {
      var w := WriterOfLive(timeout, st, u, s);
      Begun(timeout, st, t, u, rounds);
      WriterSlipsThrough(timeout, st', t, w, u, s);
    } else {
      BeginAnswers(timeout, st, t, u, rounds, s);
      forall more | Completes(timeout, st', more, t, s) ensures Gone(Final(timeout, st', more, t), u, s) {
        AnsweredIsGone(timeout, st', more, t, u, s);
      }
    }
  }

  lemma BeginScheduled(st: State, t: nat, u: string, rounds: nat)
    requires Enabled(st, BeginInvalidate(t, u, rounds))
    ensures Scheduled(st, BeginInvalidate(t, u, rounds))
  {
  }

  /**
   When it begins, a bulk invalidation may leave a session of the user live exactly if an extension of it is
   in flight, or it is live without a tracking key that lives as long.
   */
  lemma StaysIff(timeout: nat, st: State, t: nat, u: string, rounds: nat, s: string)
    requires timeout > 0 && Inv(timeout, st) && Enabled(st, BeginInvalidate(t, u, rounds)) && Known(st, s, u)
    ensures CanEndLive(timeout, Next(timeout, st, BeginInvalidate(t, u, rounds)), t, s) <==> CanStay(st, u, s)
  {
    hide Next, Inv, Enabled, DeletesUnderExtend, Covered, Ends, Final, FoundMeanwhile, Hunted, Session;
    var a := BeginInvalidate(t, u, rounds);
    BeginScheduled(st, t, u, rounds);
    StepKeepsInv(timeout, st, a);
    Begun(timeout, st, t, u, rounds);
    var st' := Next(timeout, st, a);
    if ExtendInFlight(st, s) {
      var e :| e in st.tasks && Extends(st.tasks[e], s);
      WriterSlipsThrough(timeout, st', t, e, u, s);
    } else if CanStay(st, u, s) {
      NoNewExtension(timeout, st, a, s);
      SameCover(st, st', u, s);
      OutlivedIsMissed(timeout, st', t, u, s);
    } else {
      BeginHunts(timeout, st, t, u, rounds, s);
      forall more | Completes(timeout, st', more, t, s) ensures Session(Final(timeout, st', more, t).db, s).None? {
        HuntedDies(timeout, st', more, t, u, s);
      }
    }
  }

  lemma SameCover(st: State, st': State, u: string, s: string)
    requires st'.db == st.db
    ensures Covered(st', u, s) <==> Covered(st, u, s)
    ensures Session(st'.db, s) == Session(st.db, s)
  {
  }

  // ---------- over runs ----------

  /**
   Bulk invalidation is complete for a live session, whatever else happens until the loop ends, exactly if
   nobody is writing the session when it begins: then it is gone from both keys, unless an extension finds it.
   */
  lemma CompleteIff(timeout: nat, run: seq<Label>, t: nat, u: string, rounds: nat, s: string)
    requires timeout > 0 && ScheduledRun(timeout, run) && Enabled(After(timeout, run), BeginInvalidate(t, u, rounds))
    requires Known(After(timeout, run), s, u) && Session(After(timeout, run).db, s).Some?
    ensures
      var begun := Next(timeout, After(timeout, run), BeginInvalidate(t, u, rounds));
      (forall more :: Completes(timeout, begun, more, t, s) ==> Gone(Final(timeout, begun, more, t), u, s))
      <==> !WriterInFlight(After(timeout, run), s)
  {
    hide Next, Inv, Enabled, Gone, Ends, Final, FoundMeanwhile, Session, WriterInFlight;
    RunInv(timeout, run);
    LiveOwner(timeout, After(timeout, run), u, s);
    MissedIff(timeout, After(timeout, run), t, u, rounds, s);
  }

  /**
   Bulk invalidation ends a session of the user, whatever else happens until the loop ends, exactly if no extension
   of it is in flight when it begins, and if it is live it has a tracking key that lives as long.
   */
  lemma DeadIff(timeout: nat, run: seq<Label>, t: nat, u: string, rounds: nat, s: string)
    requires timeout > 0 && ScheduledRun(timeout, run) && Enabled(After(timeout, run), BeginInvalidate(t, u, rounds))
    requires Known(After(timeout, run), s, u)
    ensures
      var begun := Next(timeout, After(timeout, run), BeginInvalidate(t, u, rounds));
      (forall more :: Completes(timeout, begun, more, t, s) ==> Session(Final(timeout, begun, more, t).db, s).None?)
      <==> !CanStay(After(timeout, run), u, s)
  {
    hide Next, Inv, Enabled, Gone, Ends, Final, FoundMeanwhile, Session, CanStay;
    RunInv(timeout, run);
    StaysIff(timeout, After(timeout, run), t, u, rounds, s);
  }

  /** Written sessions keep their owners to the end of the loop. */
  lemma {:induction false} OwnersStay(timeout: nat, st: State, more: seq<Label>, t: nat, s: string)
    requires timeout > 0 && Inv(timeout, st) && Ends(timeout, st, more, t)
    ensures var end := Final(timeout, st, more, t);
      Inv(timeout, end) && (s in st.born ==> s in st.used && s in end.used && end.used[s] == st.used[s])
    decreases |more|
  {
    hide Next, Inv, Enabled, DeletesUnderExtend;
    StepKeepsInv(timeout, st, more[0]);
    OwnerStays(timeout, st, more[0], s);
    if |more| > 1 {
      OwnersStay(timeout, Next(timeout, st, more[0]), more[1..], t, s);
    }
  }

  lemma OwnerStays(timeout: nat, st: State, a: Label, s: string)
    requires Inv(timeout, st) && Enabled(st, a)
    ensures s in st.born ==>
      && s in st.used && s in Next(timeout, st, a).born && s in Next(timeout, st, a).used
      && Next(timeout, st, a).used[s] == st.used[s]
  {
    hide GlobMatch, NextTask, NextDb, Surviving;
  }

  /**
   Whatever is live of the user when a bulk invalidation ends was first written after it began, or somebody was
   writing it then (an extension, or a call that had still to write its tracking key), or an extension has found
   it since.
   */
  lemma SurvivorsWereWritten(timeout: nat, run: seq<Label>, t: nat, u: string, rounds: nat, more: seq<Label>, s: string)
    requires timeout > 0 && ScheduledRun(timeout, run) && Enabled(After(timeout, run), BeginInvalidate(t, u, rounds))
    requires Ends(timeout, Next(timeout, After(timeout, run), BeginInvalidate(t, u, rounds)), more, t)
    ensures
      var st := After(timeout, run);
      var begun := Next(timeout, st, BeginInvalidate(t, u, rounds));
      var left := Session(Final(timeout, begun, more, t).db, s);
      left.Some? && left.value.dto.userId == u ==>
        || s !in st.born
        || (WriterInFlight(st, s) && CanStay(st, u, s))
        || FoundMeanwhile(timeout, begun, more, t, s)
  {
    hide Next, Inv, Enabled, DeletesUnderExtend, Ends, Final, FoundMeanwhile, Session, CanStay, WriterInFlight, Hunted;
    RunInv(timeout, run);
    var st := After(timeout, run);
    var begun := Next(timeout, st, BeginInvalidate(t, u, rounds));
    BeginScheduled(st, t, u, rounds);
    StepKeepsInv(timeout, st, BeginInvalidate(t, u, rounds));
    Begun(timeout, st, t, u, rounds);
    OwnersStay(timeout, begun, more, t, s);
    var left := Session(Final(timeout, begun, more, t).db, s);
    if left.Some? && left.value.dto.userId == u && s in st.born {
      OwnerIsKnown(timeout, Final(timeout, begun, more, t), u, s);
      if CanStay(st, u, s) {
        StayerIsWritten(timeout, st, u, s);
      } else {
        BeginHunts(timeout, st, t, u, rounds, s);
        if Completes(timeout, begun, more, t, s) {
          HuntedDies(timeout, begun, more, t, u, s);
        }
      }
    }
  }

  lemma StayerIsWritten(timeout: nat, st: State, u: string, s: string)
    requires Inv(timeout, st) && Known(st, s, u) && CanStay(st, u, s)
    ensures WriterInFlight(st, s)
  {
    hide StoreOk, TaskOk;
    if ExtendInFlight(st, s) {
      var e :| e in st.tasks && Extends(st.tasks[e], s);
      assert Writes(st.tasks[e], s);
    } else {
      LiveOwner(timeout, st, u, s);
      assert Indexed(st, s);
      var w :| w in st.tasks && st.tasks[w].Tracking? && st.tasks[w].s == s;
      assert Writes(st.tasks[w], s);
    }
  }

  // ---------- the failing input, and why no extension may find the session ----------

  /**
   A live session whose tracking key is still to be written when SCAN has nothing more to return: the loop ends,
   and the session is live and tracked.
   */
  lemma LateTrackSurvives(timeout: nat, st: State, t: nat, w: nat, u: string, s: string)
    requires Asking(st, t, u) && st.tasks[t].owed == {} && w in st.tasks && st.tasks[w] == Tracking(s, u)
    requires Session(st.db, s).Some?
    ensures
      var more := [ScanAnswer(t, [], true), Run(w), Run(t)];
      && Completes(timeout, st, more, t, s)
      && Session(Final(timeout, st, more, t).db, s) == Session(st.db, s)
      && TrackKey(u, s) in Final(timeout, st, more, t).db
  {
    hide Next, Session, TrackKey, MainKey, Enabled, DeletesUnderExtend;
    LastReply(timeout, st, t, u);
    var st1 := Next(timeout, st, ScanAnswer(t, [], true));
    SameCover(st, st1, u, s);
    LateWrite(timeout, st1, t, w, u, s);
    var st2 := Next(timeout, st1, Run(w));
    LastStep(timeout, st2, t, s);
    FirstStep(timeout, st1, Run(w), [Run(t)], t, s);
    FirstStep(timeout, st, ScanAnswer(t, [], true), [Run(w), Run(t)], t, s);
    assert [Run(w)] + [Run(t)] == [Run(w), Run(t)];
    assert [ScanAnswer(t, [], true)] + [Run(w), Run(t)] == [ScanAnswer(t, [], true), Run(w), Run(t)];
    SameCover(st2, Final(timeout, st2, [Run(t)], t), u, s);
  }

  lemma LastStep(timeout: nat, st: State, t: nat, s: string)
    requires AtEnd(st, t)
    ensures Completes(timeout, st, [Run(t)], t, s) && Final(timeout, st, [Run(t)], t).db == st.db
  {
    hide Next;
    NextIs(timeout, st, Run(t));
  }

  /** A login has made the first of its two writes when a password change invalidates the user's sessions. */
  lemma LoginSlipsThrough(dto: SessionDto)
    requires ColonFree(dto.userId) && GlobFree(dto.userId)
    ensures
      var run := [BeginCreate(0, "s", dto), Run(0)];
      var begin := BeginInvalidate(1, dto.userId, 1);
      var more := [ScanAnswer(1, [], true), Run(0), Run(1)];
      && ScheduledRun(10, run) && Enabled(After(10, run), begin)
      && Completes(10, Next(10, After(10, run), begin), more, 1, "s")
      && var end := Final(10, Next(10, After(10, run), begin), more, 1);
         Session(end.db, "s") == Some(SessionData(dto, 0, 0)) && TrackKey(dto.userId, "s") in end.db
  {
    hide Next, Scheduled, Session, MainKey, TrackKey, GlobMatch, Ends, Final, FoundMeanwhile, After, ScheduledRun,
      Matching;
    LoginRun(dto);
    var st := After(10, [BeginCreate(0, "s", dto), Run(0)]);
    Begun(10, st, 1, dto.userId, 1);
    NothingOwed(10, st, 1, dto.userId, 1);
    var begun := Next(10, st, BeginInvalidate(1, dto.userId, 1));
    SameCover(st, begun, dto.userId, "s");
    LateTrackSurvives(10, begun, 1, 0, dto.userId, "s");
  }

  lemma NothingOwed(timeout: nat, st: State, t: nat, u: string, rounds: nat)
    requires Enabled(st, BeginInvalidate(t, u, rounds)) && Matching(st.db, ScanPattern(u)) == {}
    ensures
      var st' := Next(timeout, st, BeginInvalidate(t, u, rounds));
      t in st'.tasks && st'.tasks[t].Invalidating? && st'.tasks[t].owed == {}
  {
    hide Matching;
  }

  lemma LoginRun(dto: SessionDto)
    requires ColonFree(dto.userId) && GlobFree(dto.userId)
    ensures
      var run := [BeginCreate(0, "s", dto), Run(0)];
      var st := After(10, run);
      && ScheduledRun(10, run)
      && st.tasks == map[0 := Tracking("s", dto.userId)] && Session(st.db, "s") == Some(SessionData(dto, 0, 0))
      && Matching(st.db, ScanPattern(dto.userId)) == {}
  {
    hide Next, Session, MainKey, TrackKey, GlobMatch, Matching;
    FirstWrite(dto);
    var create := BeginCreate(0, "s", dto);
    var run := [create, Run(0)];
    assert run[..0] == [] && run[..1] == [create] && run[..2] == run && [create][..0] == [];
    assert After(10, [create]) == Next(10, Initial, create);
    assert After(10, run) == Next(10, Next(10, Initial, create), Run(0));
    assert ScheduledAt(10, run, 0) && ScheduledAt(10, run, 1);
  }

  lemma FirstWrite(dto: SessionDto)
    requires ColonFree(dto.userId) && GlobFree(dto.userId)
    ensures
      var create := BeginCreate(0, "s", dto);
      && Enabled(Initial, create) && Scheduled(Next(10, Initial, create), Run(0))
      && var st := Next(10, Next(10, Initial, create), Run(0));
         && st.tasks == map[0 := Tracking("s", dto.userId)] && Session(st.db, "s") == Some(SessionData(dto, 0, 0))
         && Matching(st.db, ScanPattern(dto.userId)) == {}
  {
    var st1 := Next(10, Initial, BeginCreate(0, "s", dto));
    assert st1.tasks == map[0 := Creating("s", dto)];
    var st := Next(10, st1, Run(0));
    assert st.tasks == map[0 := Tracking("s", dto.userId)];
    forall x ensures MainKey("s") != TrackKey(dto.userId, x) {
      NamespacesDisjoint("s", dto.userId, x, "");
    }
    PatternMatchesExactly(dto.userId, MainKey("s"));
  }

  /**
   That no extension finds the session meanwhile is needed too: one that begins after the loop has can always
   keep it live.
   */
  lemma ExtensionKeepsLive(timeout: nat, run: seq<Label>, t: nat, u: string, rounds: nat, s: string)
    requires timeout > 0 && ScheduledRun(timeout, run) && Enabled(After(timeout, run), BeginInvalidate(t, u, rounds))
    requires Session(After(timeout, run).db, s).Some?
    ensures
      var begun := Next(timeout, After(timeout, run), BeginInvalidate(t, u, rounds));
      exists more :: Ends(timeout, begun, more, t) && FoundMeanwhile(timeout, begun, more, t, s)
                     && Session(Final(timeout, begun, more, t).db, s).Some?
  {
    hide Next, Inv, Enabled, DeletesUnderExtend, Ends, Final, FoundMeanwhile, Session;
    RunInv(timeout, run);
    var st := After(timeout, run);
    BeginScheduled(st, t, u, rounds);
    StepKeepsInv(timeout, st, BeginInvalidate(t, u, rounds));
    Begun(timeout, st, t, u, rounds);
    var begun := Next(timeout, st, BeginInvalidate(t, u, rounds));
    SameCover(st, begun, u, s);
    var e := FreshCall(begun.tasks.Keys);
    ExtensionFinds(timeout, begun, t, e, u, s);
    StepKeepsInv(timeout, begun, BeginExtend(e, s));
    var st' := Next(timeout, begun, BeginExtend(e, s));
    WriterSlipsThrough(timeout, st', t, e, u, s);
    var more :| Completes(timeout, st', more, t, s) && Session(Final(timeout, st', more, t).db, s).Some?;
    FoundFirst(timeout, begun, e, more, t, s);
  }

  lemma {:induction false} FreshCall(ids: set<nat>) returns (e: nat)
    ensures e !in ids && forall i :: i in ids ==> i < e
    decreases ids
  {
    if ids == {} {
      e := 0;
    } else {
      var one :| one in ids;
      var rest := FreshCall(ids - {one});
      e := if rest > one then rest else one + 1;
      assert forall i :: i in ids && i != one ==> i in ids - {one};
    }
  }

  lemma ExtensionFinds(timeout: nat, st: State, t: nat, e: nat, u: string, s: string)
    requires Asking(st, t, u) && e !in st.tasks && Session(st.db, s).Some?
    ensures Scheduled(st, BeginExtend(e, s)) && ExtendsFound(st, BeginExtend(e, s), s)
    ensures
      var st' := Next(timeout, st, BeginExtend(e, s));
      Asking(st', t, u) && e in st'.tasks && st'.tasks[e].Extending? && Writes(st'.tasks[e], s)
  {
    hide Next;
    NextIs(timeout, st, BeginExtend(e, s));
  }

  lemma FoundFirst(timeout: nat, st: State, e: nat, more: seq<Label>, t: nat, s: string)
    requires Scheduled(st, BeginExtend(e, s)) && ExtendsFound(st, BeginExtend(e, s), s)
    requires t in Next(timeout, st, BeginExtend(e, s)).tasks
    requires Ends(timeout, Next(timeout, st, BeginExtend(e, s)), more, t)
    ensures
      var all := [BeginExtend(e, s)] + more;
      && Ends(timeout, st, all, t) && FoundMeanwhile(timeout, st, all, t, s)
      && Final(timeout, st, all, t) == Final(timeout, Next(timeout, st, BeginExtend(e, s)), more, t)
  {
    hide Next, Enabled, DeletesUnderExtend, ExtendsFound;
    assert ([BeginExtend(e, s)] + more)[1..] == more;
  }
}
