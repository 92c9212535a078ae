/** A call that nothing interleaves with: command by command it does what the whole call is specified to do. */
module SessionAlone {
  import opened Redis
  import opened SessionKeys
  import opened Sessions
  import opened SessionInterleaving
  import opened SessionInvalidation
  import opened SessionSchedules

  lemma TwoSteps(timeout: nat, st: State, a: Label, b: Label)
    requires Scheduled(st, a) && Scheduled(Next(timeout, st, a), b)
    ensures Clean(timeout, st, [a, b]) && Continue(timeout, st, [a, b]) == Next(timeout, Next(timeout, st, a), b)
  {
    hide Next, Enabled, DeletesUnderExtend;
    CleanOne(timeout, Next(timeout, st, a), b);
    CleanOne(timeout, st, a);
    CleanSum(timeout, st, [a], [b]);
    assert [a] + [b] == [a, b];
  }

  /** A creation on its own stores the session under both keys, with the clock as login time and last activity. */
  lemma CreatesAlone(timeout: nat, st: State, t: nat, s: string, dto: SessionDto)
    requires st.tasks == map[] && Enabled(st, BeginCreate(t, s, dto))
    ensures
      var more := [BeginCreate(t, s, dto), Run(t), Run(t)];
      && Clean(timeout, st, more) && Continue(timeout, st, more).tasks == map[]
      && Continue(timeout, st, more).db == WithSession(st.db, st.now, timeout, s, SessionData(dto, st.now, st.now))
  {
    hide Next, MainKey, TrackKey, GlobMatch;
    var begin := BeginCreate(t, s, dto);
    NextIs(timeout, st, begin);
    var st1 := Next(timeout, st, begin);
    NextIs(timeout, st1, Run(t));
    var st2 := Next(timeout, st1, Run(t));
    NextIs(timeout, st2, Run(t));
    ThreeSteps(timeout, st, begin, Run(t), Run(t));
  }

  /** An extension on its own renews a live session as the whole call does, and leaves everything else alone. */
  lemma ExtendsAlone(timeout: nat, st: State, t: nat, s: string) returns (more: seq<Label>)
    requires st.tasks == map[]
    ensures Clean(timeout, st, more) && Continue(timeout, st, more).tasks == map[]
    ensures Continue(timeout, st, more).db == Extended(st.db, st.now, timeout, s)
  {
    hide Next, MainKey, TrackKey, GlobMatch;
    var begin := BeginExtend(t, s);
    NextIs(timeout, st, begin);
    var st1 := Next(timeout, st, begin);
    if Session(st.db, s).None? {
      CleanOne(timeout, st, begin);
      more := [begin];
    } else {
      NextIs(timeout, st1, Run(t));
      var st2 := Next(timeout, st1, Run(t));
      NextIs(timeout, st2, Run(t));
      ThreeSteps(timeout, st, begin, Run(t), Run(t));
      more := [begin, Run(t), Run(t)];
    }
  }

  /** A destroy on its own removes both keys of a live session, and nothing else. */
  lemma DestroysAlone(timeout: nat, st: State, t: nat, s: string) returns (more: seq<Label>)
    requires st.tasks == map[]
    ensures Clean(timeout, st, more) && Continue(timeout, st, more).tasks == map[]
    ensures Continue(timeout, st, more).db == Destroyed(st.db, s)
  {
    hide Next, MainKey, TrackKey, GlobMatch;
    var begin := BeginDestroy(t, s);
    NextIs(timeout, st, begin);
    var st1 := Next(timeout, st, begin);
    if Session(st.db, s).None? {
      CleanOne(timeout, st, begin);
      more := [begin];
    } else {
      NextIs(timeout, st1, Run(t));
      var st2 := Next(timeout, st1, Run(t));
      NextIs(timeout, st2, Run(t));
      ThreeSteps(timeout, st, begin, Run(t), Run(t));
      more := [begin, Run(t), Run(t)];
    }
  }

  /** The SCAN loop with its last reply at hand, and nobody else in flight. */
  predicate Deleting(st: State, t: nat) {
    st.tasks.Keys == {t} && st.tasks[t].Invalidating? && !st.tasks[t].half && st.tasks[t].last
  }

  lemma DeletesOne(timeout: nat, st: State, t: nat)
    requires Deleting(st, t) && st.tasks[t].batch != []
    ensures Scheduled(st, Run(t)) && Scheduled(Next(timeout, st, Run(t)), Run(t))
    ensures
      var batch := st.tasks[t].batch;
      var st' := Next(timeout, Next(timeout, st, Run(t)), Run(t));
      && Deleting(st', t) && st'.tasks[t].batch == batch[1..]
      && st'.db == st.db - {MainKey(SessionIdOf(batch[0]))} - {batch[0]}
  {
    hide Next, MainKey, SessionIdOf, GlobMatch;
    NextIs(timeout, st, Run(t));
    var st1 := Next(timeout, st, Run(t));
    assert st1.tasks.Keys == {t};
    NextIs(timeout, st1, Run(t));
    assert Next(timeout, st1, Run(t)).tasks.Keys == {t};
  }

  lemma {:induction false} DeletesAlone(timeout: nat, st: State, t: nat) returns (more: seq<Label>)
    requires Deleting(st, t)
    ensures Clean(timeout, st, more) && Continue(timeout, st, more).tasks == map[]
    ensures Continue(timeout, st, more).db == AfterBatch(st.db, st.tasks[t].batch)
    decreases |st.tasks[t].batch|
  {
    hide Next, MainKey, SessionIdOf, Enabled, DeletesUnderExtend;
    if st.tasks[t].batch == [] {
      Finishes(timeout, st, t);
      CleanOne(timeout, st, Run(t));
      more := [Run(t)];
    } else {
      DeletesOne(timeout, st, t);
      TwoSteps(timeout, st, Run(t), Run(t));
      more := DeletesAlone(timeout, Next(timeout, Next(timeout, st, Run(t)), Run(t)), t);
      CleanSum(timeout, st, [Run(t), Run(t)], more);
      more := [Run(t), Run(t)] + more;
    }
  }

  lemma Finishes(timeout: nat, st: State, t: nat)
    requires Deleting(st, t) && st.tasks[t].batch == []
    ensures Scheduled(st, Run(t)) && Next(timeout, st, Run(t)).db == st.db && Next(timeout, st, Run(t)).tasks == map[]
  {
    hide Next;
    NextIs(timeout, st, Run(t));
  }

  lemma BeginsAlone(timeout: nat, st: State, t: nat, u: string, rounds: nat) returns (keys: seq<string>)
    requires st.tasks == map[] && Enabled(st, BeginInvalidate(t, u, rounds))
    ensures KeySet(keys) == Matching(st.db, ScanPattern(u))
    ensures
      var st1 := Next(timeout, st, BeginInvalidate(t, u, rounds));
      Scheduled(st, BeginInvalidate(t, u, rounds)) && Scheduled(st1, ScanAnswer(t, keys, true))
      && var st2 := Next(timeout, st1, ScanAnswer(t, keys, true));
         Deleting(st2, t) && st2.tasks[t].batch == keys && st2.db == st.db
  {
    hide Next, GlobMatch, ScanPattern;
    keys := Listed(Matching(st.db, ScanPattern(u)));
    NextIs(timeout, st, BeginInvalidate(t, u, rounds));
    var st1 := Next(timeout, st, BeginInvalidate(t, u, rounds));
    assert st1.tasks.Keys == {t};
    NextIs(timeout, st1, ScanAnswer(t, keys, true));
    assert Next(timeout, st1, ScanAnswer(t, keys, true)).tasks.Keys == {t};
  }

  /** A bulk invalidation on its own, SCAN answering at once, removes all matching keys and the sessions they name. */
  lemma InvalidatesAlone(timeout: nat, st: State, t: nat, u: string, rounds: nat) returns (more: seq<Label>)
    requires st.tasks == map[] && Enabled(st, BeginInvalidate(t, u, rounds))
    ensures Clean(timeout, st, more) && Continue(timeout, st, more).tasks == map[]
    ensures Continue(timeout, st, more).db == Invalidated(st.db, u)
  {
    hide Next, GlobMatch, ScanPattern, Enabled, DeletesUnderExtend, Matching, DoomedBy;
    var begin := BeginInvalidate(t, u, rounds);
    var keys := BeginsAlone(timeout, st, t, u, rounds);
    var st2 := Next(timeout, Next(timeout, st, begin), ScanAnswer(t, keys, true));
    TwoSteps(timeout, st, begin, ScanAnswer(t, keys, true));
    more := DeletesAlone(timeout, st2, t);
    AfterBatchIs(st.db, keys);
    CleanSum(timeout, st, [begin, ScanAnswer(t, keys, true)], more);
    more := [begin, ScanAnswer(t, keys, true)] + more;
  }
}
