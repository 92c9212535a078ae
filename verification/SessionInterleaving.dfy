/**
 `SessionService` at the granularity of its awaits: any number of calls in flight, each Redis command a
 step of its own, the clock ticking in between. A run is a sequence of labels; which call moves next,
 what a SCAN answers and when time passes are all free.
 */
module SessionInterleaving {
  import opened Text
  import opened Redis
  import opened SessionKeys
  import opened Sessions

  /** A call in flight, named by what it will do next. */
  datatype Task =
    | Creating(s: string, dto: SessionDto)
      /** A creation or an extension between its two `setex`. */
    | Tracking(s: string, u: string)
      /** An extension that has read the session. */
    | Extending(s: string, data: SessionData)
      /** A destroy that has read the session. */
    | Destroying(s: string, u: string)
      /** A destroy between its two `del`. */
    | Untracking(s: string, u: string)
      /**
       The SCAN loop. `half` is between the two `del` of the first key of the batch; `last` after the
       reply with cursor "0"; `rounds` bounds the replies to come. Bookkeeping of the guarantee: `owed`
       are the keys present ever since the scan began and not returned yet, `targets` the sessions this
       invalidation answers for.
       */
    | Invalidating(u: string, batch: seq<string>, half: bool, last: bool, rounds: nat,
                   owed: set<string>, targets: set<string>)

  /** `used` maps each uuid handed out to its user; `born` are those whose session has been written. */
  datatype State = State(now: nat, db: Db, tasks: map<nat, Task>, used: map<string, string>, born: set<string>)

  datatype Label =
    | Tick(seconds: nat)
    | BeginCreate(t: nat, s: string, dto: SessionDto)
    | BeginExtend(t: nat, s: string)
    | BeginDestroy(t: nat, s: string)
    | BeginInvalidate(t: nat, u: string, rounds: nat)
    | ScanAnswer(t: nat, keys: seq<string>, last: bool)
    | Run(t: nat)

  // ---------- transitions ----------

  predicate Writes(task: Task, s: string) {
    (task.Creating? || task.Extending? || task.Tracking?) && task.s == s
  }

  predicate Extends(task: Task, s: string) {
    task.Extending? && task.s == s
  }

  predicate WriterInFlight(st: State, s: string) {
    exists t :: t in st.tasks && Writes(st.tasks[t], s)
  }

  predicate ExtendInFlight(st: State, s: string) {
    exists t :: t in st.tasks && Extends(st.tasks[t], s)
  }

  predicate Enabled(st: State, a: Label) {
    match a
    case Tick(_) => true
    case BeginCreate(t, s, dto) =>
      t !in st.tasks && s !in st.used && ColonFree(s) && ColonFree(dto.userId) && GlobFree(dto.userId)
    case BeginExtend(t, s) => t !in st.tasks
    case BeginDestroy(t, s) => t !in st.tasks
    case BeginInvalidate(t, u, rounds) => t !in st.tasks && ColonFree(u) && GlobFree(u) && rounds > 0
    case ScanAnswer(t, keys, last) =>
      && t in st.tasks && st.tasks[t].Invalidating? && st.tasks[t].batch == [] && !st.tasks[t].last
      && (forall k :: k in keys ==> k in st.db && GlobMatch(ScanPattern(st.tasks[t].u), k))
      && (last ==> forall k :: k in st.tasks[t].owed ==> k in keys)
      && (last || st.tasks[t].rounds > 1)
    case Run(t) =>
      && t in st.tasks
      && (st.tasks[t].Invalidating? ==> st.tasks[t].batch != [] || st.tasks[t].last)
  }

  /** The one assumption on schedules: a session key is not deleted between the read and the first write of an extension. */
  predicate DeletesUnderExtend(st: State, a: Label) {
    && a.Run? && a.t in st.tasks
    && match st.tasks[a.t]
       case Destroying(s, u) => ExtendInFlight(st, s)
       case Invalidating(u, batch, half, last, rounds, owed, targets) =>
         batch != [] && !half && ExtendInFlight(st, SessionIdOf(batch[0]))
       case _ => false
  }

  predicate Scheduled(st: State, a: Label) {
    Enabled(st, a) && !DeletesUnderExtend(st, a)
  }

  /** Keys that have left the store are not owed any more; an extended session is not answered for. */
  function Refresh(task: Task, db: Db, extended: set<string>): Task {
    if task.Invalidating? then task.(owed := task.owed * db.Keys, targets := task.targets - extended) else task
  }

  function OwnLive(st: State, u: string): set<string> {
    set s | s in st.used && Session(st.db, s).Some? && Session(st.db, s).value.dto.userId == u && !WriterInFlight(st, s)
  }

  /** What the moving call does next, if anything. */
  function NextTask(st: State, a: Label): Option<Task>
    requires Enabled(st, a) && !a.Tick?
  {
    match a
    case BeginCreate(t, s, dto) => Some(Creating(s, dto))
    case BeginExtend(t, s) =>
      if Session(st.db, s).None? then None
      else Some(Extending(s, Session(st.db, s).value.(lastActivity := st.now)))
    case BeginDestroy(t, s) =>
      if Session(st.db, s).None? then None else Some(Destroying(s, Session(st.db, s).value.dto.userId))
    case BeginInvalidate(t, u, rounds) =>
      Some(Invalidating(u, [], false, false, rounds, Matching(st.db, ScanPattern(u)), OwnLive(st, u)))
    case ScanAnswer(t, keys, last) =>
      var task := st.tasks[t];
      Some(task.(batch := keys, last := last, rounds := if task.rounds > 0 then task.rounds - 1 else 0,
                 owed := task.owed - set k | k in keys))
    case Run(t) =>
      match st.tasks[t]
      case Creating(s, dto) => Some(Tracking(s, dto.userId))
      case Extending(s, data) => Some(Tracking(s, data.dto.userId))
      case Tracking(s, u) => None
      case Destroying(s, u) => Some(Untracking(s, u))
      case Untracking(s, u) => None
      case Invalidating(u, batch, half, last, rounds, owed, targets) =>
        if batch == [] then None
        else if half then Some(st.tasks[t].(half := false, batch := batch[1..]))
        else Some(st.tasks[t].(half := true))
  }

  /** The one Redis command of the step. */
  function NextDb(timeout: nat, st: State, a: Label): Db
    requires Enabled(st, a)
  {
    if a.Tick? then Surviving(st.db, st.now + a.seconds)
    else if !a.Run? then st.db
    else
      match st.tasks[a.t]
      case Creating(s, dto) => Put(st.db, st.now, MainKey(s), SessionJson(SessionData(dto, st.now, st.now)), timeout)
      case Extending(s, data) => Put(st.db, st.now, MainKey(s), SessionJson(data), timeout)
      case Tracking(s, u) => Put(st.db, st.now, TrackKey(u, s), TrackFlag, timeout)
      case Destroying(s, u) => st.db - {MainKey(s)}
      case Untracking(s, u) => st.db - {TrackKey(u, s)}
      case Invalidating(u, batch, half, last, rounds, owed, targets) =>
        if batch == [] then st.db
        else if half then st.db - {batch[0]}
        else st.db - {MainKey(SessionIdOf(batch[0]))}
  }

  function WithTask(tasks: map<nat, Task>, t: nat, task: Option<Task>): map<nat, Task> {
    match task
    case None => tasks - {t}
    case Some(next) => tasks[t := next]
  }

  /** The session an extension has just read. */
  function NewlyExtended(st: State, a: Label): set<string> {
    if a.BeginExtend? && Session(st.db, a.s).Some? then {a.s} else {}
  }

  function Next(timeout: nat, st: State, a: Label): State
    requires Enabled(st, a)
  {
    var db := NextDb(timeout, st, a);
    var tasks := if a.Tick? then st.tasks else WithTask(st.tasks, a.t, NextTask(st, a));
    State(
      if a.Tick? then st.now + a.seconds else st.now,
      db,
      map t | t in tasks :: Refresh(tasks[t], db, NewlyExtended(st, a)),
      if a.BeginCreate? then st.used[a.s := a.dto.userId] else st.used,
      if a.Run? && st.tasks[a.t].Creating? then st.born + {st.tasks[a.t].s} else st.born)
  }

  const Initial := State(0, map[], map[], map[], {})

  /** The state after a run; a label that is not enabled does nothing. */
  function After(timeout: nat, run: seq<Label>): State {
    if run == [] then Initial
    else
      var p := After(timeout, run[..|run| - 1]);
      var a := run[|run| - 1];
      if Enabled(p, a) then Next(timeout, p, a) else p
  }

  ghost predicate ScheduledAt(timeout: nat, run: seq<Label>, i: nat)
    requires i < |run|
  {
    Scheduled(After(timeout, run[..i]), run[i])
  }

  ghost predicate ScheduledRun(timeout: nat, run: seq<Label>) {
    forall i {:trigger ScheduledAt(timeout, run, i)} :: 0 <= i < |run| ==> ScheduledAt(timeout, run, i)
  }

  // ---------- the invariant ----------

  /** The store: live entries, expiries within one timeout, only keys of written sessions, owners fixed. */
  ghost predicate StoreOk(timeout: nat, st: State) {
    && AllLive(st.db, st.now)
    && (forall k {:trigger st.db[k]} :: k in st.db ==> st.db[k].expiresAt <= st.now + timeout)
    && (forall k {:trigger OwnedKey(st, k)} :: k in st.db ==> OwnedKey(st, k))
    && (forall s :: s in st.born ==> s in st.used)
    && (forall s :: s in st.used ==> ColonFree(s) && ColonFree(st.used[s]) && GlobFree(st.used[s]))
    && (forall s :: Session(st.db, s).Some? ==> Known(st, s, Session(st.db, s).value.dto.userId))
  }

  ghost predicate OwnedKey(st: State, k: string) {
    exists s :: s in st.born && s in st.used && (k == MainKey(s) || k == TrackKey(st.used[s], s))
  }

  ghost predicate Known(st: State, s: string, u: string) {
    s in st.born && s in st.used && st.used[s] == u
  }

  /** No session and no extension that could write it back. */
  ghost predicate Quenched(st: State, s: string) {
    Session(st.db, s).None? && !ExtendInFlight(st, s)
  }

  ghost predicate TaskOk(st: State, task: Task) {
    match task
    case Creating(s, dto) => s in st.used && s !in st.born && st.used[s] == dto.userId
    case Extending(s, data) => Known(st, s, data.dto.userId)
    case Tracking(s, u) => Known(st, s, u)
    case Destroying(s, u) => Known(st, s, u)
    case Untracking(s, u) => Known(st, s, u) && Quenched(st, s)
    case Invalidating(u, batch, half, last, rounds, owed, targets) =>
      && (forall k {:trigger k in batch} :: k in batch ==> exists s :: Known(st, s, u) && k == TrackKey(u, s))
      && (half ==> batch != [] && Quenched(st, SessionIdOf(batch[0])))
      && ColonFree(u) && GlobFree(u)
      && owed <= st.db.Keys && (last ==> owed == {})
      && (forall k {:trigger k in owed} :: k in owed ==> GlobMatch(ScanPattern(u), k))
      && (!last ==> rounds > 0)
      && (forall s {:trigger s in targets} :: s in targets ==> Known(st, s, u) && !WriterInFlight(st, s) && Answered(st, task, s))
  }

  /** Where an invalidation stands with a session it answers for: done, or its key is still to come. */
  ghost predicate Answered(st: State, task: Task, s: string)
    requires task.Invalidating?
  {
    || (Session(st.db, s).None? && TrackKey(task.u, s) !in st.db)
    || TrackKey(task.u, s) in task.owed
    || TrackKey(task.u, s) in task.batch
  }

  /** A live session has a live tracking key that expires no earlier, or is between two `setex`. */
  ghost predicate Indexed(st: State, s: string) {
    Session(st.db, s).Some? ==>
      || (exists t :: t in st.tasks && st.tasks[t].Tracking? && st.tasks[t].s == s)
      || (var track := TrackKey(Session(st.db, s).value.dto.userId, s);
          track in st.db && st.db[MainKey(s)].expiresAt <= st.db[track].expiresAt)
  }

  ghost predicate Inv(timeout: nat, st: State) {
    && StoreOk(timeout, st)
    && (forall t {:trigger TaskOk(st, st.tasks[t])} :: t in st.tasks ==> TaskOk(st, st.tasks[t]))
    && (forall t, t' :: t in st.tasks && t' in st.tasks && t != t' && st.tasks[t].Creating? && st.tasks[t'].Creating? ==>
          st.tasks[t].s != st.tasks[t'].s)
    && (forall s :: Indexed(st, s))
  }

  // ---------- steps that concern one session ----------

  ghost predicate Same(db: Db, db': Db, k: string) {
    (k in db <==> k in db') && (k in db ==> db[k] == db'[k])
  }

  /** Only the two keys of `s` may have changed. */
  ghost predicate OnlyKeysOf(st: State, st': State, s: string) {
    && s in st.used
    && forall k {:trigger Same(st.db, st'.db, k)} ::
         k != MainKey(s) && k != TrackKey(st.used[s], s) ==> Same(st.db, st'.db, k)
  }

  /** Sessions and tracking keys of everyone but `s` are as before. */
  ghost predicate OthersKept(st: State, st': State, s: string) {
    && (forall x {:trigger Session(st'.db, x)} {:trigger Session(st.db, x)} :: x != s ==>
          Session(st'.db, x) == Session(st.db, x) && Same(st.db, st'.db, MainKey(x)))
    && (forall x {:trigger st.used[x]} :: x in st.used && x != s ==> Same(st.db, st'.db, TrackKey(st.used[x], x)))
  }

  lemma OnlyOneSession(st: State, st': State, s: string)
    requires forall x :: x in st.used ==> ColonFree(x) && ColonFree(st.used[x])
    requires OnlyKeysOf(st, st', s)
    ensures OthersKept(st, st', s)
  {
    forall x | x != s ensures Same(st.db, st'.db, MainKey(x)) && Session(st'.db, x) == Session(st.db, x) {
      NamespacesDisjoint(x, st.used[s], s, "");
      if MainKey(x) == MainKey(s) {
        MainKeyInjective(x, s);
      }
      assert Same(st.db, st'.db, MainKey(x));
    }
    forall x | x in st.used && x != s ensures Same(st.db, st'.db, TrackKey(st.used[x], x)) {
      NamespacesDisjoint(s, st.used[x], x, "");
      if TrackKey(st.used[x], x) == TrackKey(st.used[s], s) {
        TrackKeyInjective(st.used[x], x, st.used[s], s);
      }
      assert Same(st.db, st'.db, TrackKey(st.used[x], x));
    }
  }

  /** Every call but `t` is where it was. */
  ghost predicate Moved(st: State, st': State, t: nat, extended: set<string>) {
    && (forall i :: i in st'.tasks && i != t ==> i in st.tasks && st'.tasks[i] == Refresh(st.tasks[i], st'.db, extended))
    && (forall i :: i in st.tasks && i != t ==> i in st'.tasks)
    && st.born <= st'.born
    && (forall s :: s in st.used ==> s in st'.used && st'.used[s] == st.used[s])
  }

  /** A session nobody is writing: it may lose keys, but not the tracking key alone. */
  ghost predicate QuietStep(st: State, st': State, s: string)
    requires s in st.used
  {
    var track := TrackKey(st.used[s], s);
    && !WriterInFlight(st', s)
    && (Session(st.db, s).None? ==> Session(st'.db, s).None?)
    && (track in st'.db ==> track in st.db)
    && (track in st.db && track !in st'.db ==> Session(st'.db, s).None?)
  }

  /** A scanned key names a written session of the invalidated user. */
  lemma BatchSession(timeout: nat, st: State, task: Task, i: nat) returns (s: string)
    requires StoreOk(timeout, st) && TaskOk(st, task) && task.Invalidating? && i < |task.batch|
    ensures Known(st, s, task.u) && task.batch[i] == TrackKey(task.u, s) && SessionIdOf(task.batch[i]) == s
  {
    assert task.batch[i] in task.batch;
    s :| Known(st, s, task.u) && task.batch[i] == TrackKey(task.u, s);
    SessionIdRoundTrip(task.u, s);
  }

  lemma OtherTaskOk(timeout: nat, st: State, st': State, t: nat, extended: set<string>, i: nat)
    requires Inv(timeout, st) && Moved(st, st', t, extended)
    requires i in st'.tasks && i != t
    requires st'.tasks[i].Creating? ==> st'.tasks[i].s !in st'.born
    requires forall s :: s in st.born && Quenched(st, s) ==> Quenched(st', s)
    requires forall s :: s in st.born && !WriterInFlight(st, s) && s !in extended ==> QuietStep(st, st', s)
    ensures TaskOk(st', st'.tasks[i])
  {
    var task, task' := st.tasks[i], st'.tasks[i];
    assert TaskOk(st, task);
    if task.Invalidating? {
      forall k | k in task'.batch ensures exists s :: Known(st', s, task.u) && k == TrackKey(task.u, s) {
        var s :| Known(st, s, task.u) && k == TrackKey(task.u, s);
        assert Known(st', s, task.u);
      }
      if task.half {
        var s := BatchSession(timeout, st, task, 0);
      }
      forall s | s in task'.targets
        ensures Known(st', s, task.u) && !WriterInFlight(st', s) && Answered(st', task', s)
      {
        assert Known(st, s, task.u) && !WriterInFlight(st, s) && Answered(st, task, s);
        assert QuietStep(st, st', s);
      }
    }
  }

  lemma WritersKept(st: State, st': State, t: nat, extended: set<string>, s: string)
    requires Moved(st, st', t, extended)
    requires t in st'.tasks ==> !Writes(st'.tasks[t], s)
    ensures WriterInFlight(st', s) ==> WriterInFlight(st, s)
    ensures ExtendInFlight(st', s) ==> ExtendInFlight(st, s)
  {
    if WriterInFlight(st', s) {
      var i :| i in st'.tasks && Writes(st'.tasks[i], s);
      assert Writes(st.tasks[i], s);
    }
    if ExtendInFlight(st', s) {
      var i :| i in st'.tasks && Extends(st'.tasks[i], s);
      assert Extends(st.tasks[i], s);
    }
  }

  /** The store part of a step that touches one session only. */
  lemma StoreOkOne(timeout: nat, st: State, st': State, s: string)
    requires StoreOk(timeout, st) && OnlyKeysOf(st, st', s)
    requires st'.now == st.now && st'.used == st.used && st.born <= st'.born <= st.born + {s}
    requires forall k :: k in {MainKey(s), TrackKey(st.used[s], s)} && k in st'.db ==>
               s in st'.born && st'.now < st'.db[k].expiresAt <= st'.now + timeout
    requires Session(st'.db, s).Some? ==> s in st'.born && Session(st'.db, s).value.dto.userId == st.used[s]
    ensures StoreOk(timeout, st')
  {
    OnlyOneSession(st, st', s);
    forall k | k in st'.db
      ensures st'.now < st'.db[k].expiresAt <= st'.now + timeout && OwnedKey(st', k)
    {
      if k != MainKey(s) && k != TrackKey(st.used[s], s) {
        assert Same(st.db, st'.db, k);
        assert OwnedKey(st, k);
        var x :| x in st.born && x in st.used && (k == MainKey(x) || k == TrackKey(st.used[x], x));
        assert x in st'.born && x in st'.used;
      } else {
        assert k in {MainKey(s), TrackKey(st.used[s], s)};
      }
    }
    forall x | Session(st'.db, x).Some? ensures Known(st', x, Session(st'.db, x).value.dto.userId) {
      if x != s {
        assert Session(st.db, x).Some?;
      }
    }
  }

  /** What has to be checked of one step of one call on one session. */
  ghost predicate OnSession(timeout: nat, st: State, st': State, t: nat, s: string) {
    && Moved(st, st', t, {}) && t in st.tasks
    && OnlyKeysOf(st, st', s) && StoreOk(timeout, st')
    && st'.used == st.used && st'.born <= st.born + {s}
    && (s !in st.born && s in st'.born ==> st.tasks[t].Creating? && st.tasks[t].s == s)
    && (forall x :: x != s ==> !Writes(st.tasks[t], x) && (t in st'.tasks ==> !Writes(st'.tasks[t], x)))
    && (s in st.born && Quenched(st, s) ==> Quenched(st', s))
    && (s in st.born && !WriterInFlight(st, s) ==> QuietStep(st, st', s))
  }

  lemma StepOnSession(timeout: nat, st: State, st': State, t: nat, s: string)
    requires Inv(timeout, st) && OnSession(timeout, st, st', t, s)
    requires t in st'.tasks ==> TaskOk(st', st'.tasks[t]) && !st'.tasks[t].Creating?
    requires Indexed(st', s)
    ensures Inv(timeout, st')
  {
    hide MainKey, TrackKey, SessionIdOf, ScanPattern, GlobMatch;
    forall i | i in st'.tasks ensures TaskOk(st', st'.tasks[i]) {
      if i != t {
        OtherTaskOnSession(timeout, st, st', t, s, i);
      }
    }
    OnlyOneSession(st, st', s);
    forall x ensures Indexed(st', x) {
      if x != s {
        IndexedKept(st, st', t, s, x);
      }
    }
  }

  lemma OtherTaskOnSession(timeout: nat, st: State, st': State, t: nat, s: string, i: nat)
    requires Inv(timeout, st) && OnSession(timeout, st, st', t, s)
    requires i in st'.tasks && i != t
    ensures TaskOk(st', st'.tasks[i])
  {
    hide MainKey, TrackKey, SessionIdOf, ScanPattern, GlobMatch;
    assert TaskOk(st, st.tasks[i]);
    OnlyOneSession(st, st', s);
    forall x | x != s
      ensures WriterInFlight(st', x) ==> WriterInFlight(st, x)
      ensures ExtendInFlight(st', x) ==> ExtendInFlight(st, x)
    {
      WritersKept(st, st', t, {}, x);
    }
    OtherTaskOk(timeout, st, st', t, {}, i);
  }

  lemma IndexedKept(st: State, st': State, t: nat, s: string, x: string)
    requires Indexed(st, x) && x != s && Moved(st, st', t, {}) && OthersKept(st, st', s)
    requires Session(st.db, x).Some? ==> x in st.used && Session(st.db, x).value.dto.userId == st.used[x]
    requires t in st.tasks ==> !Writes(st.tasks[t], x)
    ensures Indexed(st', x)
  {
    assert Session(st'.db, x) == Session(st.db, x);
    if Session(st.db, x).Some? {
      if i :| i in st.tasks && st.tasks[i].Tracking? && st.tasks[i].s == x {
        assert Writes(st.tasks[i], x);
        assert i in st'.tasks && st'.tasks[i].Tracking? && st'.tasks[i].s == x;
      } else {
        assert Same(st.db, st'.db, TrackKey(st.used[x], x));
      }
    }
  }

  // ---------- every step keeps the invariant ----------

  /** The parts of the next state. */
  lemma NextIs(timeout: nat, st: State, a: Label)
    requires Enabled(st, a) && !a.Tick?
    ensures
      var st' := Next(timeout, st, a);
      && Moved(st, st', a.t, NewlyExtended(st, a))
      && st'.db == NextDb(timeout, st, a) && st'.now == st.now
      && st'.used == (if a.BeginCreate? then st.used[a.s := a.dto.userId] else st.used)
      && st'.born == (if a.Run? && st.tasks[a.t].Creating? then st.born + {st.tasks[a.t].s} else st.born)
      && (a.t in st'.tasks <==> NextTask(st, a).Some?)
      && (a.t in st'.tasks ==> st'.tasks[a.t] == Refresh(NextTask(st, a).value, st'.db, NewlyExtended(st, a)))
  {
  }

  lemma CreateWriteStep(timeout: nat, st: State, t: nat)
    requires timeout > 0 && Inv(timeout, st) && t in st.tasks && st.tasks[t].Creating?
    ensures Inv(timeout, Next(timeout, st, Run(t)))
  {
    hide Next, GlobMatch;
    NextIs(timeout, st, Run(t));
    var st' := Next(timeout, st, Run(t));
    var s := st.tasks[t].s;
    assert TaskOk(st, st.tasks[t]);
    NamespacesDisjoint(s, st.used[s], s, "");
    NoKeysBeforeBirth(timeout, st, s);
    assert st'.tasks[t].Tracking? && st'.tasks[t].s == s;
    StoreOkOne(timeout, st, st', s);
    forall i | i in st.tasks && st.tasks[i].Creating? && i != t ensures st.tasks[i].s != s {
    }
    StepOnSession(timeout, st, st', t, s);
  }

  lemma OwnerOf(timeout: nat, st: State, k: string) returns (x: string)
    requires StoreOk(timeout, st) && k in st.db
    ensures x in st.born && x in st.used && (k == MainKey(x) || k == TrackKey(st.used[x], x))
  {
    assert OwnedKey(st, k);
    x :| x in st.born && x in st.used && (k == MainKey(x) || k == TrackKey(st.used[x], x));
  }

  lemma NoKeysBeforeBirth(timeout: nat, st: State, s: string)
    requires StoreOk(timeout, st) && s in st.used && s !in st.born
    ensures MainKey(s) !in st.db && TrackKey(st.used[s], s) !in st.db
  {
    if MainKey(s) in st.db {
      var x := OwnerOf(timeout, st, MainKey(s));
      NamespacesDisjoint(s, st.used[x], x, "");
      MainKeyInjective(s, x);
    }
    if TrackKey(st.used[s], s) in st.db {
      var x := OwnerOf(timeout, st, TrackKey(st.used[s], s));
      NamespacesDisjoint(x, st.used[s], s, "");
      TrackKeyInjective(st.used[s], s, st.used[x], x);
    }
  }

  lemma ExtendWriteStep(timeout: nat, st: State, t: nat)
    requires timeout > 0 && Inv(timeout, st) && t in st.tasks && st.tasks[t].Extending?
    ensures Inv(timeout, Next(timeout, st, Run(t)))
  {
    hide Next, GlobMatch;
    NextIs(timeout, st, Run(t));
    var st' := Next(timeout, st, Run(t));
    var s := st.tasks[t].s;
    assert TaskOk(st, st.tasks[t]);
    assert Writes(st.tasks[t], s) && Extends(st.tasks[t], s);
    NamespacesDisjoint(s, st.used[s], s, "");
    assert st'.tasks[t].Tracking? && st'.tasks[t].s == s;
    KeepsExpiry(timeout, st, TrackKey(st.used[s], s));
    StoreOkOne(timeout, st, st', s);
    StepOnSession(timeout, st, st', t, s);
  }

  lemma KeepsExpiry(timeout: nat, st: State, k: string)
    requires StoreOk(timeout, st)
    ensures k in st.db ==> st.now < st.db[k].expiresAt <= st.now + timeout
  {
  }

  lemma TrackWriteStep(timeout: nat, st: State, t: nat)
    requires timeout > 0 && Inv(timeout, st) && t in st.tasks && st.tasks[t].Tracking?
    ensures Inv(timeout, Next(timeout, st, Run(t)))
  {
    hide Next, GlobMatch;
    NextIs(timeout, st, Run(t));
    var st' := Next(timeout, st, Run(t));
    var s := st.tasks[t].s;
    assert TaskOk(st, st.tasks[t]);
    assert Writes(st.tasks[t], s);
    NamespacesDisjoint(s, st.used[s], s, "");
    KeepsExpiry(timeout, st, MainKey(s));
    assert Session(st'.db, s) == Session(st.db, s);
    StoreOkOne(timeout, st, st', s);
    WritersKept(st, st', t, {}, s);
    StepOnSession(timeout, st, st', t, s);
  }

  lemma DestroyMainStep(timeout: nat, st: State, t: nat)
    requires timeout > 0 && Inv(timeout, st) && t in st.tasks && st.tasks[t].Destroying?
    requires !ExtendInFlight(st, st.tasks[t].s)
    ensures Inv(timeout, Next(timeout, st, Run(t)))
  {
    hide Next, GlobMatch;
    NextIs(timeout, st, Run(t));
    var st' := Next(timeout, st, Run(t));
    var s := st.tasks[t].s;
    assert TaskOk(st, st.tasks[t]);
    MainDeletedOnSession(timeout, st, st', t, s);
    StepOnSession(timeout, st, st', t, s);
  }

  lemma DestroyTrackStep(timeout: nat, st: State, t: nat)
    requires timeout > 0 && Inv(timeout, st) && t in st.tasks && st.tasks[t].Untracking?
    ensures Inv(timeout, Next(timeout, st, Run(t)))
  {
    hide Next, GlobMatch;
    NextIs(timeout, st, Run(t));
    var st' := Next(timeout, st, Run(t));
    var s := st.tasks[t].s;
    assert TaskOk(st, st.tasks[t]);
    TrackDeletedOnSession(timeout, st, st', t, s);
    StepOnSession(timeout, st, st', t, s);
  }

  lemma InvalidateMainStep(timeout: nat, st: State, t: nat)
    requires timeout > 0 && Inv(timeout, st) && t in st.tasks && st.tasks[t].Invalidating?
    requires st.tasks[t].batch != [] && !st.tasks[t].half
    requires !ExtendInFlight(st, SessionIdOf(st.tasks[t].batch[0]))
    ensures Inv(timeout, Next(timeout, st, Run(t)))
  {
    hide Next, GlobMatch;
    NextIs(timeout, st, Run(t));
    var st' := Next(timeout, st, Run(t));
    assert TaskOk(st, st.tasks[t]);
    var s := BatchSession(timeout, st, st.tasks[t], 0);
    MainDeletedOnSession(timeout, st, st', t, s);
    InvalidatorOk(timeout, st, st', t, s, st'.tasks[t].batch, st'.tasks[t].half);
    StepOnSession(timeout, st, st', t, s);
  }

  /** The first `del` of a destroy or of the SCAN loop. */
  lemma MainDeletedOnSession(timeout: nat, st: State, st': State, t: nat, s: string)
    requires Inv(timeout, st) && Moved(st, st', t, {}) && t in st.tasks && t in st'.tasks
    requires st'.db == st.db - {MainKey(s)} && st'.now == st.now && st'.used == st.used && st'.born == st.born
    requires s in st.born && s in st.used && !ExtendInFlight(st, s)
    requires forall x :: !Writes(st.tasks[t], x) && !Writes(st'.tasks[t], x)
    ensures OnSession(timeout, st, st', t, s) && Quenched(st', s) && Indexed(st', s)
  {
    NamespacesDisjoint(s, st.used[s], s, "");
    KeepsExpiry(timeout, st, TrackKey(st.used[s], s));
    StoreOkOne(timeout, st, st', s);
    WritersKept(st, st', t, {}, s);
  }

  /** The second `del`, after the first has been done. */
  lemma TrackDeletedOnSession(timeout: nat, st: State, st': State, t: nat, s: string)
    requires Inv(timeout, st) && Moved(st, st', t, {}) && t in st.tasks
    requires st'.now == st.now && st'.used == st.used && st'.born == st.born
    requires s in st.born && s in st.used && Quenched(st, s)
    requires st'.db == st.db - {TrackKey(st.used[s], s)}
    requires forall x :: !Writes(st.tasks[t], x) && (t in st'.tasks ==> !Writes(st'.tasks[t], x))
    ensures OnSession(timeout, st, st', t, s) && Quenched(st', s) && Indexed(st', s)
  {
    NamespacesDisjoint(s, st.used[s], s, "");
    KeepsExpiry(timeout, st, MainKey(s));
    assert Session(st'.db, s).None?;
    StoreOkOne(timeout, st, st', s);
    WritersKept(st, st', t, {}, s);
  }

  lemma InvalidateTrackStep(timeout: nat, st: State, t: nat)
    requires timeout > 0 && Inv(timeout, st) && t in st.tasks && st.tasks[t].Invalidating?
    requires st.tasks[t].batch != [] && st.tasks[t].half
    ensures Inv(timeout, Next(timeout, st, Run(t)))
  {
    hide Next, GlobMatch;
    NextIs(timeout, st, Run(t));
    var st' := Next(timeout, st, Run(t));
    assert TaskOk(st, st.tasks[t]);
    var s := BatchSession(timeout, st, st.tasks[t], 0);
    TrackDeletedOnSession(timeout, st, st', t, s);
    InvalidatorOk(timeout, st, st', t, s, st'.tasks[t].batch, st'.tasks[t].half);
    StepOnSession(timeout, st, st', t, s);
  }

  /** The moving invalidation itself: every session it answers for is still answered for. */
  lemma InvalidatorOk(timeout: nat, st: State, st': State, t: nat, s: string, batch: seq<string>, half: bool)
    requires Inv(timeout, st) && Moved(st, st', t, {}) && OnlyKeysOf(st, st', s) && st'.used == st.used
    requires t in st.tasks && st.tasks[t].Invalidating? && t in st'.tasks
    requires st'.tasks[t] == st.tasks[t].(owed := st.tasks[t].owed * st'.db.Keys, batch := batch, half := half)
    requires var task := st.tasks[t];
             && task.batch != [] && task.batch[0] == TrackKey(task.u, s) && SessionIdOf(task.batch[0]) == s
             && Known(st, s, task.u)
             && (if half then batch == task.batch else batch == task.batch[1..] && task.batch[0] !in st'.db)
    requires Quenched(st', s)
    ensures TaskOk(st', st'.tasks[t])
  {
    var task, task' := st.tasks[t], st'.tasks[t];
    assert TaskOk(st, task);
    assert forall k :: k in batch ==> k in task.batch;
    forall k | k in batch ensures exists x :: Known(st', x, task.u) && k == TrackKey(task.u, x) {
      var x :| Known(st, x, task.u) && k == TrackKey(task.u, x);
      assert Known(st', x, task.u);
    }
    forall x | x in task.targets ensures Known(st', x, task.u) && !WriterInFlight(st', x) && Answered(st', task', x) {
      assert Known(st, x, task.u) && !WriterInFlight(st, x) && Answered(st, task, x);
      WritersKept(st, st', t, {}, x);
      if x != s {
        AnsweredKept(timeout, st, st', task, task', s, x);
      }
    }
  }

  lemma AnsweredKept(timeout: nat, st: State, st': State, task: Task, task': Task, s: string, x: string)
    requires task.Invalidating? && task'.Invalidating? && task'.u == task.u && Answered(st, task, x)
    requires StoreOk(timeout, st) && OnlyKeysOf(st, st', s) && Known(st, s, task.u) && Known(st, x, task.u) && x != s
    requires task.owed <= st.db.Keys && task'.owed == task.owed * st'.db.Keys
    requires task.batch != [] && task.batch[0] == TrackKey(task.u, s)
    requires task'.batch == task.batch || task'.batch == task.batch[1..]
    ensures Answered(st', task', x)
  {
    OnlyOneSession(st, st', s);
    var track := TrackKey(task.u, x);
    assert Session(st'.db, x) == Session(st.db, x);
    assert Same(st.db, st'.db, TrackKey(st.used[x], x));
    if track == task.batch[0] {
      TrackKeyInjective(task.u, x, task.u, s);
    }
    if track in task.batch {
      var i :| 0 <= i < |task.batch| && task.batch[i] == track;
      assert task.batch[1..][i - 1] == track;
    }
  }

  /** Steps that read but do not write: calls that begin, SCAN answers, and the end of an invalidation. */
  ghost predicate InPlace(timeout: nat, st: State, st': State, t: nat, extended: set<string>) {
    && Moved(st, st', t, extended)
    && st'.db == st.db && st'.now == st.now && st'.born == st.born && StoreOk(timeout, st')
    && (t in st.tasks ==> st.tasks[t].Invalidating?)
    && (forall s :: s in st.born && t in st'.tasks && Writes(st'.tasks[t], s) ==> s in extended && Session(st.db, s).Some?)
    && (t in st'.tasks && st'.tasks[t].Creating? ==> st'.tasks[t].s !in st.used)
  }

  lemma StepInPlace(timeout: nat, st: State, st': State, t: nat, extended: set<string>)
    requires Inv(timeout, st) && InPlace(timeout, st, st', t, extended)
    requires t in st'.tasks ==> TaskOk(st', st'.tasks[t])
    ensures Inv(timeout, st')
  {
    forall i | i in st'.tasks ensures TaskOk(st', st'.tasks[i]) {
      if i != t {
        OtherTaskInPlace(timeout, st, st', t, extended, i);
      }
    }
    forall i, j | i in st'.tasks && j in st'.tasks && i != j && st'.tasks[i].Creating? && st'.tasks[j].Creating?
      ensures st'.tasks[i].s != st'.tasks[j].s
    {
      assert i != t ==> TaskOk(st, st.tasks[i]);
      assert j != t ==> TaskOk(st, st.tasks[j]);
    }
    forall s ensures Indexed(st', s) {
      IndexedInPlace(st, st', t, extended, s);
    }
  }

  lemma OtherTaskInPlace(timeout: nat, st: State, st': State, t: nat, extended: set<string>, i: nat)
    requires Inv(timeout, st) && InPlace(timeout, st, st', t, extended)
    requires i in st'.tasks && i != t
    ensures TaskOk(st', st'.tasks[i])
  {
    assert TaskOk(st, st.tasks[i]);
    forall s | s in st.born && Session(st.db, s).None?
      ensures ExtendInFlight(st', s) ==> ExtendInFlight(st, s)
    {
      WritersKept(st, st', t, extended, s);
    }
    forall s | s in st.born && s !in extended
      ensures WriterInFlight(st', s) ==> WriterInFlight(st, s)
    {
      WritersKept(st, st', t, extended, s);
    }
    OtherTaskOk(timeout, st, st', t, extended, i);
  }

  lemma IndexedInPlace(st: State, st': State, t: nat, extended: set<string>, s: string)
    requires Indexed(st, s) && Moved(st, st', t, extended) && st'.db == st.db
    requires t in st.tasks ==> st.tasks[t].Invalidating?
    ensures Indexed(st', s)
  {
    if i :| i in st.tasks && st.tasks[i].Tracking? && st.tasks[i].s == s {
      assert i in st'.tasks && st'.tasks[i].Tracking? && st'.tasks[i].s == s;
    }
  }

  lemma BeginCreateStep(timeout: nat, st: State, t: nat, s: string, dto: SessionDto)
    requires Inv(timeout, st) && Enabled(st, BeginCreate(t, s, dto))
    ensures Inv(timeout, Next(timeout, st, BeginCreate(t, s, dto)))
  {
    hide Next, GlobMatch;
    NextIs(timeout, st, BeginCreate(t, s, dto));
    var st' := Next(timeout, st, BeginCreate(t, s, dto));
    forall k | k in st'.db ensures OwnedKey(st', k) {
      var x := OwnerOf(timeout, st, k);
      assert x in st'.born && x in st'.used;
    }
    forall x | Session(st'.db, x).Some? ensures Known(st', x, Session(st'.db, x).value.dto.userId) {
      assert Known(st, x, Session(st.db, x).value.dto.userId);
    }
    StepInPlace(timeout, st, st', t, {});
  }

  lemma SameStoreOk(timeout: nat, st: State, st': State)
    requires StoreOk(timeout, st) && st'.db == st.db && st'.now == st.now && st'.born == st.born && st'.used == st.used
    ensures StoreOk(timeout, st')
  {
    forall k | k in st'.db ensures OwnedKey(st', k) {
      var x := OwnerOf(timeout, st, k);
      assert x in st'.born && x in st'.used;
    }
    forall x | Session(st'.db, x).Some? ensures Known(st', x, Session(st'.db, x).value.dto.userId) {
      assert Known(st, x, Session(st.db, x).value.dto.userId);
    }
  }

  lemma BeginExtendStep(timeout: nat, st: State, t: nat, s: string)
    requires Inv(timeout, st) && Enabled(st, BeginExtend(t, s))
    ensures Inv(timeout, Next(timeout, st, BeginExtend(t, s)))
  {
    hide Next, GlobMatch;
    NextIs(timeout, st, BeginExtend(t, s));
    var st' := Next(timeout, st, BeginExtend(t, s));
    SameStoreOk(timeout, st, st');
    if Session(st.db, s).Some? {
      assert Known(st', s, Session(st.db, s).value.dto.userId);
    }
    StepInPlace(timeout, st, st', t, NewlyExtended(st, BeginExtend(t, s)));
  }

  lemma BeginDestroyStep(timeout: nat, st: State, t: nat, s: string)
    requires Inv(timeout, st) && Enabled(st, BeginDestroy(t, s))
    ensures Inv(timeout, Next(timeout, st, BeginDestroy(t, s)))
  {
    hide Next, GlobMatch;
    NextIs(timeout, st, BeginDestroy(t, s));
    var st' := Next(timeout, st, BeginDestroy(t, s));
    SameStoreOk(timeout, st, st');
    if Session(st.db, s).Some? {
      assert Known(st', s, Session(st.db, s).value.dto.userId);
    }
    StepInPlace(timeout, st, st', t, {});
  }

  lemma BeginInvalidateStep(timeout: nat, st: State, t: nat, u: string, rounds: nat)
    requires Inv(timeout, st) && Enabled(st, BeginInvalidate(t, u, rounds))
    ensures Inv(timeout, Next(timeout, st, BeginInvalidate(t, u, rounds)))
  {
    hide Next, GlobMatch;
    NextIs(timeout, st, BeginInvalidate(t, u, rounds));
    var st' := Next(timeout, st, BeginInvalidate(t, u, rounds));
    var task := st'.tasks[t];
    SameStoreOk(timeout, st, st');
    forall s | s in task.targets ensures Known(st', s, u) && !WriterInFlight(st', s) && Answered(st', task, s) {
      assert Known(st, s, u);
      WritersKept(st, st', t, {}, s);
      assert Indexed(st, s);
      assert forall i :: i in st.tasks ==> !Writes(st.tasks[i], s);
      PatternMatchesExactly(u, TrackKey(u, s));
    }
    StepInPlace(timeout, st, st', t, {});
  }

  lemma ScanAnswerStep(timeout: nat, st: State, t: nat, keys: seq<string>, last: bool)
    requires Inv(timeout, st) && Enabled(st, ScanAnswer(t, keys, last))
    ensures Inv(timeout, Next(timeout, st, ScanAnswer(t, keys, last)))
  {
    hide Next, GlobMatch;
    NextIs(timeout, st, ScanAnswer(t, keys, last));
    var st' := Next(timeout, st, ScanAnswer(t, keys, last));
    var task, task' := st.tasks[t], st'.tasks[t];
    assert TaskOk(st, task);
    SameStoreOk(timeout, st, st');
    forall k | k in keys ensures exists s :: Known(st', s, task.u) && k == TrackKey(task.u, s) {
      var s := MatchedSession(timeout, st, task.u, k);
      assert Known(st', s, task.u);
    }
    forall s | s in task'.targets ensures Known(st', s, task.u) && !WriterInFlight(st', s) && Answered(st', task', s) {
      assert Known(st, s, task.u) && !WriterInFlight(st, s) && Answered(st, task, s);
      WritersKept(st, st', t, {}, s);
    }
    StepInPlace(timeout, st, st', t, {});
  }

  /** A stored key that the pattern matches is the tracking key of a written session of that user. */
  lemma MatchedSession(timeout: nat, st: State, u: string, k: string) returns (s: string)
    requires StoreOk(timeout, st) && k in st.db && GlobMatch(ScanPattern(u), k)
    requires ColonFree(u) && GlobFree(u)
    ensures Known(st, s, u) && k == TrackKey(u, s)
  {
    PatternMatchesExactly(u, k);
    var x :| k == TrackKey(u, x);
    s := OwnerOf(timeout, st, k);
    NamespacesDisjoint(s, u, x, "");
    TrackKeyInjective(u, x, st.used[s], s);
  }

  lemma FinishStep(timeout: nat, st: State, t: nat)
    requires Inv(timeout, st) && t in st.tasks && st.tasks[t].Invalidating? && st.tasks[t].batch == [] && st.tasks[t].last
    ensures Inv(timeout, Next(timeout, st, Run(t)))
  {
    hide Next, GlobMatch;
    NextIs(timeout, st, Run(t));
    var st' := Next(timeout, st, Run(t));
    SameStoreOk(timeout, st, st');
    StepInPlace(timeout, st, st', t, {});
  }

  /** Passing time: entries expire, nothing else moves. */
  ghost predicate Later(st: State, st': State) {
    && st.now <= st'.now && st'.db == Surviving(st.db, st'.now) && st'.used == st.used && st'.born == st.born
    && st'.tasks.Keys == st.tasks.Keys
    && (forall i :: i in st.tasks ==> st'.tasks[i] == Refresh(st.tasks[i], st'.db, {}))
  }

  lemma TickStep(timeout: nat, st: State, d: nat)
    requires Inv(timeout, st)
    ensures Inv(timeout, Next(timeout, st, Tick(d)))
  {
    var st' := Next(timeout, st, Tick(d));
    TickStore(timeout, st, st');
    forall i | i in st'.tasks ensures TaskOk(st', st'.tasks[i]) {
      TickTask(timeout, st, st', i);
    }
    forall s ensures Indexed(st', s) {
      TickIndexed(timeout, st, st', s);
    }
  }

  lemma TickStore(timeout: nat, st: State, st': State)
    requires StoreOk(timeout, st) && Later(st, st')
    ensures StoreOk(timeout, st')
  {
    forall k | k in st'.db ensures OwnedKey(st', k) {
      var x := OwnerOf(timeout, st, k);
      assert x in st'.born && x in st'.used;
    }
    forall x | Session(st'.db, x).Some? ensures Known(st', x, Session(st'.db, x).value.dto.userId) {
      assert Known(st, x, Session(st.db, x).value.dto.userId);
    }
  }

  lemma TickIndexed(timeout: nat, st: State, st': State, s: string)
    requires StoreOk(timeout, st) && Later(st, st') && Indexed(st, s)
    ensures Indexed(st', s)
  {
    if i :| i in st.tasks && st.tasks[i].Tracking? && st.tasks[i].s == s {
      assert i in st'.tasks && st'.tasks[i].Tracking? && st'.tasks[i].s == s;
    }
  }

  /** A session nobody writes cannot lose its tracking key to the clock before its main key. */
  lemma TickQuiet(timeout: nat, st: State, st': State, s: string)
    requires Inv(timeout, st) && Later(st, st') && s in st.born && s in st.used
    ensures Quenched(st, s) ==> Quenched(st', s)
    ensures !WriterInFlight(st, s) ==> QuietStep(st, st', s)
  {
    if i :| i in st'.tasks && Extends(st'.tasks[i], s) {
      assert Extends(st.tasks[i], s);
    }
    if i :| i in st'.tasks && Writes(st'.tasks[i], s) {
      assert Writes(st.tasks[i], s);
    }
    assert Indexed(st, s);
    if i :| i in st.tasks && st.tasks[i].Tracking? && st.tasks[i].s == s {
      assert Writes(st.tasks[i], s);
    }
  }

  lemma TickTask(timeout: nat, st: State, st': State, i: nat)
    requires Inv(timeout, st) && Later(st, st') && i in st'.tasks
    ensures TaskOk(st', st'.tasks[i])
  {
    assert TaskOk(st, st.tasks[i]);
    forall s | s in st.born
      ensures Quenched(st, s) ==> Quenched(st', s)
      ensures !WriterInFlight(st, s) ==> QuietStep(st, st', s)
    {
      TickQuiet(timeout, st, st', s);
    }
    OtherTaskOk(timeout, st, st', i + 1, {}, i);
  }

  lemma StepKeepsInv(timeout: nat, st: State, a: Label)
    requires timeout > 0 && Inv(timeout, st) && Scheduled(st, a)
    ensures Inv(timeout, Next(timeout, st, a))
  {
    match a {
      case Tick(d) => TickStep(timeout, st, d);
      case BeginCreate(t, s, dto) => BeginCreateStep(timeout, st, t, s, dto);
      case BeginExtend(t, s) => BeginExtendStep(timeout, st, t, s);
      case BeginDestroy(t, s) => BeginDestroyStep(timeout, st, t, s);
      case BeginInvalidate(t, u, rounds) => BeginInvalidateStep(timeout, st, t, u, rounds);
      case ScanAnswer(t, keys, last) => ScanAnswerStep(timeout, st, t, keys, last);
      case Run(t) => RunStep(timeout, st, t);
    }
  }

  lemma RunStep(timeout: nat, st: State, t: nat)
    requires timeout > 0 && Inv(timeout, st) && Scheduled(st, Run(t))
    ensures Inv(timeout, Next(timeout, st, Run(t)))
  {
    match st.tasks[t] {
      case Creating(_, _) => CreateWriteStep(timeout, st, t);
      case Extending(_, _) => ExtendWriteStep(timeout, st, t);
      case Tracking(_, _) => TrackWriteStep(timeout, st, t);
      case Destroying(_, _) => DestroyMainStep(timeout, st, t);
      case Untracking(_, _) => DestroyTrackStep(timeout, st, t);
      case Invalidating(_, batch, half, _, _, _, _) =>
        if batch == [] {
          FinishStep(timeout, st, t);
        } else if half {
          InvalidateTrackStep(timeout, st, t);
        } else {
          InvalidateMainStep(timeout, st, t);
        }
    }
  }

  lemma {:induction false} RunInv(timeout: nat, run: seq<Label>)
    requires timeout > 0 && ScheduledRun(timeout, run)
    ensures Inv(timeout, After(timeout, run))
    decreases |run|
  {
    if run == [] {
      assert Inv(timeout, Initial);
    } else {
      var n := |run| - 1;
      PrefixScheduled(timeout, run, n);
      RunInv(timeout, run[..n]);
      assert ScheduledAt(timeout, run, n);
      StepKeepsInv(timeout, After(timeout, run[..n]), run[n]);
    }
  }

  lemma PrefixScheduled(timeout: nat, run: seq<Label>, n: nat)
    requires ScheduledRun(timeout, run) && n <= |run|
    ensures ScheduledRun(timeout, run[..n])
  {
    forall i | 0 <= i < n ensures ScheduledAt(timeout, run[..n], i) {
      assert run[..n][..i] == run[..i];
      assert ScheduledAt(timeout, run, i);
    }
  }
}
