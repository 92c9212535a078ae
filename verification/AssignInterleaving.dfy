/**
 Assignment at the granularity of its awaits: the check of the capabilities and the update that follows
 are separate steps, with any number of calls in flight between them.
 */
module AssignInterleaving {
  import opened Text
  import opened DeviceFlow
  import opened DeviceLifecycle

  datatype Task =
      /** An assignment whose capabilities check has passed. */
    | Assigning(deviceId: string, functionality: seq<string>)
      /** A discovery that has looked the device up and found no record. */
    | Discovering(data: Sensor)

  datatype State = State(sensors: seq<Sensor>, tasks: map<nat, Task>)

  datatype Label =
    | Check(t: nat, deviceId: string, functionality: seq<string>)
    | LookUp(t: nat, data: Sensor)
    | Proceed(t: nat)
    | Touch(deviceId: string, change: Change)

  predicate Enabled(st: State, a: Label) {
    match a
    case Check(t, d, f) => t !in st.tasks && CheckTypes(st.sensors, d, f).None?
    case LookUp(t, data) => t !in st.tasks && FindAny(st.sensors, data.deviceId).None?
    case Proceed(t) => t in st.tasks
    case Touch(d, c) => !c.ToAssigned?
  }

  function Next(st: State, a: Label): State
    requires Enabled(st, a)
  {
    match a
    case Check(t, d, f) => st.(tasks := st.tasks[t := Assigning(d, f)])
    case LookUp(t, data) => st.(tasks := st.tasks[t := Discovering(data)])
    case Touch(d, c) => st.(sensors := Update(st.sensors, d, c))
    case Proceed(t) =>
      var sensors := match st.tasks[t]
        case Assigning(d, f) => Update(st.sensors, d, ToAssigned(f))
        case Discovering(data) => st.sensors + [NewRecord(data)];
      State(sensors, st.tasks - {t})
  }

  /** What the second half of a call writes, by field: the assignment to every record of its device, or its new record. */
  lemma ProceedWrites(st: State, t: nat)
    requires t in st.tasks
    ensures
      var after := Next(st, Proceed(t)).sensors;
      match st.tasks[t]
      case Assigning(d, f) =>
        |after| == |st.sensors| && forall i :: 0 <= i < |after| ==>
          after[i] == if st.sensors[i].deviceId == d
                      then st.sensors[i].(provisionState := Assigned, assignedFunctionality := Some(f)) else st.sensors[i]
      case Discovering(data) =>
        && |after| == |st.sensors| + 1 && after[..|st.sensors|] == st.sensors
        && after[|st.sensors|] == data.(provisionState := Discovered, isActuator := false, isDeleted := false)
  {
    hide Update;
  }

  predicate SameCapabilities(a: Sensor, b: Sensor) {
    Within(a.capabilities, b.capabilities) && Within(b.capabilities, a.capabilities)
  }

  /** A look-up that overlaps another discovery of the device with other capabilities. */
  predicate Conflicts(st: State, a: Label) {
    && a.LookUp?
    && exists t :: t in st.tasks && st.tasks[t].Discovering? && st.tasks[t].data.deviceId == a.data.deviceId
                   && !SameCapabilities(st.tasks[t].data, a.data)
  }

  /** The assumption on schedules: overlapping discoveries of one device report the same set of capabilities. */
  predicate Scheduled(st: State, a: Label) {
    Enabled(st, a) && !Conflicts(st, a)
  }

  const Initial := State([], map[])

  function After(run: seq<Label>): State {
    if run == [] then Initial
    else
      var p := After(run[..|run| - 1]);
      if Enabled(p, run[|run| - 1]) then Next(p, run[|run| - 1]) else p
  }

  ghost predicate ScheduledAt(run: seq<Label>, i: nat)
    requires i < |run|
  {
    Scheduled(After(run[..i]), run[i])
  }

  ghost predicate ScheduledRun(run: seq<Label>) {
    forall i {:trigger ScheduledAt(run, i)} :: 0 <= i < |run| ==> ScheduledAt(run, i)
  }

  // ---------- the invariant ----------

  /** Records of one device agree on its capabilities, and every assigned record is assigned within its own. */
  ghost predicate Consistent(sensors: seq<Sensor>) {
    && AllOk(sensors)
    && forall i, j :: 0 <= i < |sensors| && 0 <= j < |sensors| && sensors[i].deviceId == sensors[j].deviceId ==>
         SameCapabilities(sensors[i], sensors[j])
  }

  ghost predicate AllOk(sensors: seq<Sensor>) {
    forall i :: 0 <= i < |sensors| ==> SensorOk(sensors[i])
  }

  ghost predicate TaskOk(sensors: seq<Sensor>, task: Task) {
    match task
    case Assigning(d, f) =>
      && (exists i :: 0 <= i < |sensors| && sensors[i].deviceId == d)
      && (forall i :: 0 <= i < |sensors| && sensors[i].deviceId == d ==> Within(f, sensors[i].capabilities))
    case Discovering(data) =>
      forall i :: 0 <= i < |sensors| && sensors[i].deviceId == data.deviceId ==> SameCapabilities(sensors[i], data)
  }

  ghost predicate Inv(st: State) {
    && Consistent(st.sensors)
    && (forall t {:trigger st.tasks[t]} :: t in st.tasks ==> TaskOk(st.sensors, st.tasks[t]))
    && (forall t, t' {:trigger st.tasks[t], st.tasks[t']} ::
          t in st.tasks && t' in st.tasks ==> Compatible(st.tasks[t], st.tasks[t']))
  }

  predicate Compatible(a: Task, b: Task) {
    a.Discovering? && b.Discovering? && a.data.deviceId == b.data.deviceId ==> SameCapabilities(a.data, b.data)
  }

  /** No update changes ids or capabilities, so a check that has passed stays passed. */
  lemma UpdateKeepsTask(sensors: seq<Sensor>, d: string, c: Change, task: Task)
    requires TaskOk(sensors, task)
    ensures TaskOk(Update(sensors, d, c), task)
  {
    hide Update, Within;
    var after := Update(sensors, d, c);
    assert forall i :: 0 <= i < |sensors| ==>
        after[i].deviceId == sensors[i].deviceId && after[i].capabilities == sensors[i].capabilities;
    if task.Assigning? {
      var i :| 0 <= i < |sensors| && sensors[i].deviceId == task.deviceId;
      assert after[i].deviceId == task.deviceId;
    }
  }

  /** A new record of a device with the capabilities the device is known by leaves every other call as it was. */
  lemma AddKeepsTask(sensors: seq<Sensor>, data: Sensor, task: Task)
    requires TaskOk(sensors, task) && TaskOk(sensors, Discovering(data)) && Compatible(task, Discovering(data))
    ensures TaskOk(sensors + [NewRecord(data)], task)
  {
    var after := sensors + [NewRecord(data)];
    if task.Assigning? {
      var i :| 0 <= i < |sensors| && sensors[i].deviceId == task.deviceId;
      assert after[i].deviceId == task.deviceId;
      if task.deviceId == data.deviceId {
        assert Within(task.functionality, sensors[i].capabilities) && SameCapabilities(sensors[i], data);
      }
    }
  }

  lemma AddKeepsConsistent(sensors: seq<Sensor>, data: Sensor)
    requires Consistent(sensors) && TaskOk(sensors, Discovering(data))
    ensures Consistent(sensors + [NewRecord(data)])
  {
  }

  lemma UpdateKeepsConsistent(sensors: seq<Sensor>, d: string, c: Change)
    requires Consistent(sensors) && (c.ToAssigned? ==> TaskOk(sensors, Assigning(d, c.functionality)))
    ensures Consistent(Update(sensors, d, c))
  {
    hide Update, Within;
    var after := Update(sensors, d, c);
    assert forall i :: 0 <= i < |sensors| ==>
        after[i].deviceId == sensors[i].deviceId && after[i].capabilities == sensors[i].capabilities;
    forall i | 0 <= i < |after| ensures SensorOk(after[i]) {
      assert SensorOk(sensors[i]);
    }
  }

  /** The check looks at one record; the others of the device have the same capabilities. */
  lemma CheckGivesTask(sensors: seq<Sensor>, d: string, f: seq<string>)
    requires Consistent(sensors) && CheckTypes(sensors, d, f).None?
    ensures TaskOk(sensors, Assigning(d, f))
  {
    FindFinds(sensors, d);
    var s := FindLive(sensors, d).value;
    var k :| 0 <= k < |sensors| && sensors[k] == s;
    forall i | 0 <= i < |sensors| && sensors[i].deviceId == d ensures Within(f, sensors[i].capabilities) {
      assert SameCapabilities(sensors[k], sensors[i]);
    }
  }

  lemma StepKeepsInv(st: State, a: Label)
    requires Inv(st) && Scheduled(st, a)
    ensures Inv(Next(st, a))
  {
    hide Update, Within, CheckTypes, FindAny;
    var st' := Next(st, a);
    match a {
      case Check(t, d, f) => CheckGivesTask(st.sensors, d, f);
      case LookUp(t, data) => LookUpKeepsInv(st, t, data);
      case Touch(d, c) =>
        UpdateKeepsConsistent(st.sensors, d, c);
        forall i | i in st'.tasks ensures TaskOk(st'.sensors, st'.tasks[i]) {
          UpdateKeepsTask(st.sensors, d, c, st.tasks[i]);
        }
      case Proceed(t) => ProceedKeepsInv(st, t);
    }
  }

  lemma LookUpKeepsInv(st: State, t: nat, data: Sensor)
    requires Inv(st) && Scheduled(st, LookUp(t, data))
    ensures Inv(Next(st, LookUp(t, data)))
  {
    hide FindAny, Within;
    FindFinds(st.sensors, data.deviceId);
    assert TaskOk(st.sensors, Discovering(data));
    forall i | i in st.tasks
      ensures Compatible(st.tasks[i], Discovering(data)) && Compatible(Discovering(data), st.tasks[i])
    {
      assert !Conflicts(st, LookUp(t, data));
    }
    SameAsItself(data);
  }

  lemma SameAsItself(data: Sensor)
    ensures SameCapabilities(data, data)
  {
  }

  lemma ProceedKeepsInv(st: State, t: nat)
    requires Inv(st) && t in st.tasks
    ensures Inv(Next(st, Proceed(t)))
  {
    hide Update, Within, Consistent;
    var st' := Next(st, Proceed(t));
    assert TaskOk(st.sensors, st.tasks[t]);
    match st.tasks[t] {
      case Assigning(d, f) =>
        UpdateKeepsConsistent(st.sensors, d, ToAssigned(f));
        forall i | i in st'.tasks ensures TaskOk(st'.sensors, st'.tasks[i]) {
          UpdateKeepsTask(st.sensors, d, ToAssigned(f), st.tasks[i]);
        }
      case Discovering(data) =>
        AddKeepsConsistent(st.sensors, data);
        forall i | i in st'.tasks ensures TaskOk(st'.sensors, st'.tasks[i]) {
          AddKeepsTask(st.sensors, data, st.tasks[i]);
        }
    }
  }

  lemma PrefixScheduled(run: seq<Label>, n: nat)
    requires ScheduledRun(run) && n <= |run|
    ensures ScheduledRun(run[..n])
  {
    hide Next, Scheduled;
    forall i | 0 <= i < n ensures ScheduledAt(run[..n], i) {
      assert run[..n][..i] == run[..i];
      assert ScheduledAt(run, i);
    }
  }

  lemma {:induction false} RunInv(run: seq<Label>)
    requires ScheduledRun(run)
    ensures Inv(After(run))
    decreases |run|
  {
    hide Next, Enabled, Conflicts;
    if run != [] {
      var n := |run| - 1;
      PrefixScheduled(run, n);
      RunInv(run[..n]);
      assert ScheduledAt(run, n);
      StepKeepsInv(After(run[..n]), run[n]);
    }
  }

  /**
   Whatever runs between the check and the update of an assignment, an assigned record is assigned within
   its capabilities: they never change, and all records of a device have the same.
   */
  lemma AssignedWithinDespiteInterleaving(run: seq<Label>, s: Sensor)
    requires ScheduledRun(run) && s in After(run).sensors && s.provisionState == Assigned
    ensures s.assignedFunctionality.Some? && forall f :: f in s.assignedFunctionality.value ==> f in s.capabilities
  {
    hide Next, Scheduled;
    RunInv(run);
  }

  // ---------- the assumption is exact ----------

  /** A continuation that obeys the assumption. */
  ghost predicate Clean(st: State, more: seq<Label>)
    decreases |more|
  {
    more != [] ==> Scheduled(st, more[0]) && Clean(Next(st, more[0]), more[1..])
  }

  ghost function Continue(st: State, more: seq<Label>): State
    requires Clean(st, more)
    decreases |more|
  {
    if more == [] then st else Continue(Next(st, more[0]), more[1..])
  }

  /** Whatever still happens under the assumption, every assigned record is assigned within its capabilities. */
  ghost predicate StaysOk(st: State) {
    forall more {:trigger Clean(st, more)} :: Clean(st, more) ==> AllOk(Continue(st, more).sensors)
  }

  lemma {:induction false} CleanKeepsInv(st: State, more: seq<Label>)
    requires Inv(st) && Clean(st, more)
    ensures Inv(Continue(st, more))
    decreases |more|
  {
    hide Next, Enabled, Conflicts, Inv;
    if more != [] {
      StepKeepsInv(st, more[0]);
      CleanKeepsInv(Next(st, more[0]), more[1..]);
    }
  }

  lemma InvStaysOk(st: State)
    requires Inv(st)
    ensures StaysOk(st)
  {
    hide Next, Scheduled, Clean, Continue;
    forall more | Clean(st, more) ensures AllOk(Continue(st, more).sensors) {
      CleanKeepsInv(st, more);
    }
  }

  lemma CleanFour(st: State, a: Label, b: Label, c: Label, d: Label)
    requires Scheduled(st, a) && Scheduled(Next(st, a), b) && Scheduled(Next(Next(st, a), b), c)
    requires Scheduled(Next(Next(Next(st, a), b), c), d)
    ensures Clean(st, [a, b, c, d]) && Continue(st, [a, b, c, d]) == Next(Next(Next(Next(st, a), b), c), d)
  {
    hide Next, Enabled, Conflicts;
    var st1 := Next(st, a);
    var st2 := Next(st1, b);
    var st3 := Next(st2, c);
    assert [d][1..] == [] && Clean(Next(st3, d), []);
    assert Clean(st3, [d]) && Continue(st3, [d]) == Next(st3, d);
    assert [c, d][1..] == [d];
    assert Clean(st2, [c, d]) && Continue(st2, [c, d]) == Next(st3, d);
    assert [b, c, d][1..] == [c, d];
    assert Clean(st1, [b, c, d]) && Continue(st1, [b, c, d]) == Next(st3, d);
    assert [a, b, c, d][1..] == [b, c, d];
  }

  /**
   Two discoveries of an unknown device in flight, one of them alone with capability `f`: it stores its
   record, the other stores its own, an assignment of `f` is checked against the first and reaches both.
   */
  lemma TwoRecordsBreak(st: State, first: nat, second: nat, f: string) returns (more: seq<Label>)
    requires first != second && first in st.tasks && second in st.tasks
    requires st.tasks[first].Discovering? && st.tasks[second].Discovering?
    requires
      var a, b := st.tasks[first].data, st.tasks[second].data;
      a.deviceId == b.deviceId && FindAny(st.sensors, a.deviceId).None? && f in a.capabilities && f !in b.capabilities
    ensures Clean(st, more) && !AllOk(Continue(st, more).sensors)
  {
    hide FindAny, FindLive, Update;
    var a, b := st.tasks[first].data, st.tasks[second].data;
    var d, n := a.deviceId, |st.sensors|;
    more := [Proceed(first), Proceed(second), Check(first, d, [f]), Proceed(first)];
    var st1 := Next(st, Proceed(first));
    var st2 := Next(st1, Proceed(second));
    FirstRecordFound(st.sensors, a, b);
    assert st2.sensors == st.sensors + [NewRecord(a), NewRecord(b)];
    var st3 := Next(st2, Check(first, d, [f]));
    var st4 := Next(st3, Proceed(first));
    assert st4.sensors == Update(st2.sensors, d, ToAssigned([f]));
    assert st4.sensors[n + 1] == Changed(NewRecord(b), ToAssigned([f]));
    assert f in [f] && !SensorOk(st4.sensors[n + 1]);
    CleanFour(st, Proceed(first), Proceed(second), Check(first, d, [f]), Proceed(first));
  }

  lemma FirstRecordFound(sensors: seq<Sensor>, a: Sensor, b: Sensor)
    requires FindAny(sensors, a.deviceId).None?
    ensures FindLive(sensors + [NewRecord(a), NewRecord(b)], a.deviceId) == Some(NewRecord(a))
  {
    FindFinds(sensors, a.deviceId);
    FoundAfter(sensors, NewRecord(a), [NewRecord(b)]);
    assert sensors + [NewRecord(a)] + [NewRecord(b)] == sensors + [NewRecord(a), NewRecord(b)];
  }

  lemma {:induction false} FoundAfter(sensors: seq<Sensor>, r: Sensor, rest: seq<Sensor>)
    requires !r.isDeleted && forall i :: 0 <= i < |sensors| ==> sensors[i].deviceId != r.deviceId
    ensures FindLive(sensors + [r] + rest, r.deviceId) == Some(r)
  {
    if sensors != [] {
      FoundAfter(sensors[1..], r, rest);
      assert (sensors + [r] + rest)[1..] == sensors[1..] + [r] + rest;
    }
  }

  /** Exact, step by step: a look-up that breaks the assumption, and no other step, can be continued to a broken record. */
  lemma ConflictBreaksIff(st: State, a: Label)
    requires Inv(st) && Enabled(st, a)
    ensures Conflicts(st, a) <==> !StaysOk(Next(st, a))
  {
    hide Inv, Enabled, Conflicts, AllOk, Clean, Continue;
    if Conflicts(st, a) {
      var more := ConflictBreaks(st, a);
      assert !AllOk(Continue(Next(st, a), more).sensors);
    } else {
      StepKeepsInv(st, a);
      InvStaysOk(Next(st, a));
    }
  }

  lemma ConflictBreaks(st: State, a: Label) returns (more: seq<Label>)
    requires Enabled(st, a) && Conflicts(st, a)
    ensures Clean(Next(st, a), more) && !AllOk(Continue(Next(st, a), more).sensors)
  {
    hide AllOk, Clean, Continue, FindAny;
    var t :| t in st.tasks && st.tasks[t].Discovering? && st.tasks[t].data.deviceId == a.data.deviceId
             && !SameCapabilities(st.tasks[t].data, a.data);
    var st' := Next(st, a);
    var other := st.tasks[t].data;
    if f :| f in other.capabilities && f !in a.data.capabilities {
      more := TwoRecordsBreak(st', t, a.t, f);
    } else {
      var f :| f in a.data.capabilities && f !in other.capabilities;
      more := TwoRecordsBreak(st', a.t, t, f);
    }
  }

  /** Such look-ups do come up: nothing keeps two discoveries of a new device from overlapping. */
  lemma ConflictReachable(a: Sensor, b: Sensor)
    requires a.deviceId == b.deviceId && !SameCapabilities(a, b)
    ensures
      var run := [LookUp(1, a)];
      RawRun(run + [LookUp(2, b)]) && ScheduledRun(run) && Conflicts(After(run), LookUp(2, b))
  {
    var run := [LookUp(1, a)];
    var all := run + [LookUp(2, b)];
    assert all[..0] == [] && all[..1] == run && run[..0] == [];
    assert ScheduledAt(run, 0);
    assert After(run).tasks == map[1 := Discovering(a)] && After(run).sensors == [];
    assert After(run).tasks[1] == Discovering(a);
  }

  /** Every label can happen, whatever overlaps. */
  ghost predicate RawRun(run: seq<Label>) {
    forall i :: 0 <= i < |run| ==> Enabled(After(run[..i]), run[i])
  }

  /**
   Exact for runs: a run obeys the assumption if and only if at every moment of the run no continuation that
   obeys it leaves a record assigned to what it cannot do.
   */
  lemma ScheduledIff(run: seq<Label>)
    requires RawRun(run)
    ensures ScheduledRun(run) <==> forall n :: 0 <= n <= |run| ==> StaysOk(After(run[..n]))
  {
    hide Next, Inv, StaysOk, Enabled;
    if ScheduledRun(run) {
      forall n | 0 <= n <= |run| ensures StaysOk(After(run[..n])) {
        PrefixScheduled(run, n);
        RunInv(run[..n]);
        InvStaysOk(After(run[..n]));
      }
    } else {
      var n := FirstConflict(run);
      RunInv(run[..n]);
      ConflictBreaksIff(After(run[..n]), run[n]);
      assert run[..n + 1][..n] == run[..n];
    }
  }

  lemma {:induction false} FirstConflict(run: seq<Label>) returns (n: nat)
    requires RawRun(run) && !ScheduledRun(run)
    ensures n < |run| && ScheduledRun(run[..n])
    ensures Enabled(After(run[..n]), run[n]) && Conflicts(After(run[..n]), run[n])
    decreases |run|
  {
    hide Next, Enabled, Conflicts, After;
    var m := |run| - 1;
    forall i | 0 <= i < m ensures Enabled(After(run[..m][..i]), run[..m][i]) {
      assert run[..m][..i] == run[..i];
    }
    if ScheduledRun(run[..m]) {
      n := m;
      forall i | 0 <= i < m ensures ScheduledAt(run, i) {
        assert ScheduledAt(run[..m], i) && run[..m][..i] == run[..i];
      }
    } else {
      n := FirstConflict(run[..m]);
      assert run[..m][..n] == run[..n];
    }
  }
}
