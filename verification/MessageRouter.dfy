/**
 `MqttMessageRouter`: an insertion-ordered map of handlers; routing sorts a copy by priority and takes
 the first handler whose suffix ends the topic.
 */
module MessageRouter {
  import opened Text

  /** `PNull` also stands for `undefined`. */
  datatype Payload = PNull | PScalar | PObject

  /** A handler is its class name, suffix, priority and event; handling refuses payloads that are no object. */
  datatype Handler = Handler(name: string, suffix: string, priority: int, event: string)

  datatype HandlerError = PayloadMissing | PayloadNotObject

  const UNKNOWN_EVENT := "mqtt/message/unknown"

  predicate CanHandle(h: Handler, topic: string) {
    EndsWith(topic, h.suffix)
  }

  function Handle(h: Handler, payload: Payload): Result<string, HandlerError> {
    match payload
    case PNull => Err(PayloadMissing)
    case PScalar => Err(PayloadNotObject)
    case PObject => Ok(h.event)
  }

  // ---------- the insertion-ordered map ----------

  ghost predicate DistinctNames(hs: seq<Handler>) {
    forall i, j :: 0 <= i < j < |hs| ==> hs[i].name != hs[j].name
  }

  /** `Map.set`: an existing key keeps its position. */
  function MapSet(hs: seq<Handler>, h: Handler): seq<Handler> {
    if hs == [] then [h]
    else if hs[0].name == h.name then [h] + hs[1..]
    else [hs[0]] + MapSet(hs[1..], h)
  }

  function MapDelete(hs: seq<Handler>, name: string): seq<Handler> {
    if hs == [] then []
    else if hs[0].name == name then hs[1..]
    else [hs[0]] + MapDelete(hs[1..], name)
  }

  lemma {:induction false} MapSetAt(hs: seq<Handler>, h: Handler, i: nat)
    requires DistinctNames(hs) && i < |hs| && hs[i].name == h.name
    ensures MapSet(hs, h) == hs[i := h] && DistinctNames(MapSet(hs, h))
  {
    if i > 0 {
      MapSetAt(hs[1..], h, i - 1);
    }
  }

  lemma {:induction false} MapSetNew(hs: seq<Handler>, h: Handler)
    requires DistinctNames(hs) && forall x :: x in hs ==> x.name != h.name
    ensures MapSet(hs, h) == hs + [h] && DistinctNames(MapSet(hs, h))
  {
    if hs != [] {
      MapSetNew(hs[1..], h);
    }
  }

  lemma {:induction false} MapDeleteAt(hs: seq<Handler>, name: string, i: nat)
    requires DistinctNames(hs) && i < |hs| && hs[i].name == name
    ensures MapDelete(hs, name) == hs[..i] + hs[i + 1..]
  {
    if i == 0 {
      assert hs[..0] + hs[1..] == hs[1..];
    } else {
      MapDeleteAt(hs[1..], name, i - 1);
      CutTail(hs, i);
    }
  }

  lemma CutTail(hs: seq<Handler>, i: nat)
    requires 0 < i < |hs|
    ensures [hs[0]] + (hs[1..][..i - 1] + hs[1..][i..]) == hs[..i] + hs[i + 1..]
  {
    assert hs[1..][..i - 1] == hs[1..i] && hs[1..][i..] == hs[i + 1..];
    assert [hs[0]] + hs[1..i] == hs[..i];
  }

  lemma {:induction false} MapDeleteAbsent(hs: seq<Handler>, name: string)
    requires forall x :: x in hs ==> x.name != name
    ensures MapDelete(hs, name) == hs
  {
    if hs != [] {
      MapDeleteAbsent(hs[1..], name);
    }
  }

  lemma MapKeepsDistinct(hs: seq<Handler>, h: Handler, name: string)
    requires DistinctNames(hs)
    ensures DistinctNames(MapSet(hs, h)) && DistinctNames(MapDelete(hs, name))
  {
    if i :| 0 <= i < |hs| && hs[i].name == h.name {
      MapSetAt(hs, h, i);
    } else {
      MapSetNew(hs, h);
    }
    if i :| 0 <= i < |hs| && hs[i].name == name {
      MapDeleteAt(hs, name, i);
      CutDistinct(hs, i);
    } else {
      MapDeleteAbsent(hs, name);
    }
  }

  lemma CutDistinct(hs: seq<Handler>, i: nat)
    requires DistinctNames(hs) && i < |hs|
    ensures DistinctNames(hs[..i] + hs[i + 1..])
  {
  }

  // ---------- the stable sort ----------

  /** Inserts before the first element of strictly lower priority. */
  function Insert(h: Handler, sorted: seq<Handler>): seq<Handler> {
    if sorted == [] || sorted[0].priority < h.priority then [h] + sorted
    else [sorted[0]] + Insert(h, sorted[1..])
  }

  /** `sort((a, b) => b.priority - a.priority)`, which JavaScript keeps stable. */
  function SortByPriority(hs: seq<Handler>): seq<Handler> {
    if hs == [] then [] else Insert(hs[|hs| - 1], SortByPriority(hs[..|hs| - 1]))
  }

  function FirstMatch(hs: seq<Handler>, topic: string): Option<Handler> {
    if hs == [] then None
    else if CanHandle(hs[0], topic) then Some(hs[0])
    else FirstMatch(hs[1..], topic)
  }

  class MqttMessageRouter {
    var handlers: seq<Handler>

    ghost predicate Valid()
      reads this
    {
      DistinctNames(handlers)
    }

    constructor ()
      ensures Valid() && handlers == []
    {
      handlers := [];
    }

    method Register(handler: Handler)
      requires Valid()
      modifies this
      ensures Valid() && handlers == MapSet(old(handlers), handler)
    {
      MapKeepsDistinct(handlers, handler, "");
      handlers := MapSet(handlers, handler);
    }

    method Unregister(name: string) returns (removed: bool)
      requires Valid()
      modifies this
      ensures Valid() && handlers == MapDelete(old(handlers), name)
      ensures removed <==> exists h :: h in old(handlers) && h.name == name
    {
      removed := exists h | h in handlers :: h.name == name;
      MapKeepsDistinct(handlers, Handler("", "", 0, ""), name);
      handlers := MapDelete(handlers, name);
    }

    method Clear()
      modifies this
      ensures Valid() && handlers == []
    {
      handlers := [];
    }

    /** The event of a matching handler of maximal priority, first registered among equals; unknown if none. */
    method Route(topic: string, payload: Payload) returns (r: Result<string, HandlerError>)
      ensures (forall h :: h in handlers ==> !CanHandle(h, topic)) ==> r == Ok(UNKNOWN_EVENT)
      ensures forall i :: Chosen(handlers, topic, i) ==> r == Handle(handlers[i], payload)
    {
      var sortedHandlers := SortByPriority(handlers);
      for j := 0 to |sortedHandlers|
        invariant FirstMatch(sortedHandlers[j..], topic) == FirstMatch(sortedHandlers, topic)
      {
        if CanHandle(sortedHandlers[j], topic) {
          ChosenIsFirst(handlers, topic);
          return Handle(sortedHandlers[j], payload);
        }
      }
      ChosenIsFirst(handlers, topic);
      return Ok(UNKNOWN_EVENT);
    }
  }

  // ---------- sort and first match against the simple specification ----------

  /** Handler `i` matches, no matching handler has higher priority, and none of equal priority comes earlier. */
  ghost predicate Chosen(hs: seq<Handler>, topic: string, i: int) {
    && 0 <= i < |hs| && CanHandle(hs[i], topic)
    && (forall j :: 0 <= j < |hs| && CanHandle(hs[j], topic) ==>
          hs[j].priority < hs[i].priority || (hs[j].priority == hs[i].priority && i <= j))
  }

  lemma {:induction false} InsertSorted(h: Handler, sorted: seq<Handler>)
    requires Descending(sorted)
    ensures Descending(Insert(h, sorted))
    ensures forall x :: x in Insert(h, sorted) <==> x == h || x in sorted
  {
    if sorted != [] && sorted[0].priority >= h.priority {
      InsertSorted(h, sorted[1..]);
      var tail := Insert(h, sorted[1..]);
      forall i | 0 <= i < |tail| ensures tail[i].priority <= sorted[0].priority {
        assert tail[i] in tail;
        if tail[i] != h {
          assert tail[i] in sorted[1..];
        }
      }
      assert sorted == [sorted[0]] + sorted[1..];
    }
  }

  lemma {:induction false} InsertFirstMatch(h: Handler, sorted: seq<Handler>, topic: string)
    requires Descending(sorted)
    ensures
      var best := FirstMatch(sorted, topic);
      FirstMatch(Insert(h, sorted), topic) ==
      if CanHandle(h, topic) && (best.None? || best.value.priority < h.priority) then Some(h) else best
  {
    if FirstMatch(sorted, topic).Some? {
      FirstMatchIn(sorted, topic);
    }
    if sorted == [] || sorted[0].priority < h.priority {
      assert ([h] + sorted)[1..] == sorted;
    } else {
      InsertFirstMatch(h, sorted[1..], topic);
      assert ([sorted[0]] + Insert(h, sorted[1..]))[1..] == Insert(h, sorted[1..]);
    }
  }

  ghost predicate Descending(hs: seq<Handler>) {
    forall i, j :: 0 <= i < j < |hs| ==> hs[j].priority <= hs[i].priority
  }

  lemma {:induction false} FirstMatchIn(hs: seq<Handler>, topic: string)
    ensures FirstMatch(hs, topic).Some? ==> FirstMatch(hs, topic).value in hs && CanHandle(FirstMatch(hs, topic).value, topic)
    ensures FirstMatch(hs, topic).None? ==> forall h :: h in hs ==> !CanHandle(h, topic)
  {
    if hs != [] {
      FirstMatchIn(hs[1..], topic);
    }
  }

  /** The sort keeps exactly the handlers, in descending priority. */
  lemma {:induction false} SortIsSorted(hs: seq<Handler>)
    ensures Descending(SortByPriority(hs))
    ensures forall x :: x in SortByPriority(hs) <==> x in hs
    decreases |hs|
  {
    if hs != [] {
      var n := |hs| - 1;
      SortIsSorted(hs[..n]);
      InsertSorted(hs[n], SortByPriority(hs[..n]));
      assert hs == hs[..n] + [hs[n]];
    }
  }

  /** Sorting by priority and taking the first match finds the chosen handler, or nothing when nothing matches. */
  lemma {:induction false} SortedFirstMatchIsChosen(hs: seq<Handler>, topic: string) returns (i: int)
    ensures FirstMatch(SortByPriority(hs), topic).None? ==> forall h :: h in hs ==> !CanHandle(h, topic)
    ensures FirstMatch(SortByPriority(hs), topic).Some? ==>
              Chosen(hs, topic, i) && FirstMatch(SortByPriority(hs), topic) == Some(hs[i])
    decreases |hs|
  {
    i := -1;
    if hs != [] {
      var n := |hs| - 1;
      var p := hs[..n];
      i := SortedFirstMatchIsChosen(p, topic);
      SortIsSorted(p);
      InsertFirstMatch(hs[n], SortByPriority(p), topic);
      assert hs == p + [hs[n]];
      if FirstMatch(SortByPriority(p), topic).None? {
        assert forall j :: 0 <= j < n ==> hs[j] == p[j] && !CanHandle(p[j], topic);
        i := n;
      } else if CanHandle(hs[n], topic) && hs[i].priority < hs[n].priority {
        i := n;
      }
    }
  }

  lemma ChosenUnique(hs: seq<Handler>, topic: string, i: int, j: int)
    requires Chosen(hs, topic, i) && Chosen(hs, topic, j)
    ensures i == j
  {
  }

  lemma ChosenIsFirst(hs: seq<Handler>, topic: string)
    ensures FirstMatch(SortByPriority(hs), topic).None? <==> forall h :: h in hs ==> !CanHandle(h, topic)
    ensures forall i :: Chosen(hs, topic, i) ==> FirstMatch(SortByPriority(hs), topic) == Some(hs[i])
  {
    var i := SortedFirstMatchIsChosen(hs, topic);
    forall j | Chosen(hs, topic, j) ensures FirstMatch(SortByPriority(hs), topic) == Some(hs[j]) {
      if FirstMatch(SortByPriority(hs), topic).Some? {
        ChosenUnique(hs, topic, i, j);
      }
    }
  }

  // ---------- any history of registrations ----------

  datatype Op = Set(handler: Handler) | Delete(name: string) | ClearAll

  function Run(ops: seq<Op>): seq<Handler> {
    if ops == [] then []
    else
      match ops[|ops| - 1]
      case Set(h) => MapSet(Run(ops[..|ops| - 1]), h)
      case Delete(name) => MapDelete(Run(ops[..|ops| - 1]), name)
      case ClearAll => []
  }

  predicate Removes(op: Op, name: string) {
    op == Delete(name) || op == ClearAll
  }

  predicate Sets(op: Op, name: string) {
    op.Set? && op.handler.name == name
  }

  /** The registration a name's position comes from: the first one with no removal after it. */
  ghost predicate BornAt(ops: seq<Op>, name: string, b: int) {
    && 0 <= b < |ops| && Sets(ops[b], name)
    && (forall i :: b < i < |ops| ==> !Removes(ops[i], name))
    && (forall i :: 0 <= i < b && Sets(ops[i], name) ==> exists j :: i < j < b && Removes(ops[j], name))
  }

  /** The registration a name's handler comes from: the last one, not removed since. */
  ghost predicate LatestAt(ops: seq<Op>, name: string, l: int) {
    && 0 <= l < |ops| && Sets(ops[l], name)
    && (forall i :: l < i < |ops| ==> !Removes(ops[i], name) && !Sets(ops[i], name))
  }

  /** One entry of the map: the handler last registered under a name brought in at `b`. */
  ghost predicate Entered(ops: seq<Op>, h: Handler, b: int, l: int) {
    BornAt(ops, h.name, b) && LatestAt(ops, h.name, l) && h == ops[l].handler
  }

  ghost predicate Present(hs: seq<Handler>, name: string) {
    exists i :: 0 <= i < |hs| && hs[i].name == name
  }

  /** What the map is, told from the history of its operations. */
  ghost predicate Tells(ops: seq<Op>, hs: seq<Handler>, born: seq<int>, latest: seq<int>) {
    && |born| == |latest| == |hs| && DistinctNames(hs)
    && (forall i {:trigger Entered(ops, hs[i], born[i], latest[i])} ::
          0 <= i < |hs| ==> Entered(ops, hs[i], born[i], latest[i]))
    && (forall i, j :: 0 <= i < j < |hs| ==> born[i] < born[j])
    && AllPresent(ops, hs)
  }

  ghost predicate AllPresent(ops: seq<Op>, hs: seq<Handler>) {
    forall name, l :: LatestAt(ops, name, l) ==> Present(hs, name)
  }

  /** An operation on another name moves neither birth nor latest registration. */
  lemma OtherName(ops: seq<Op>, op: Op, name: string)
    requires !Removes(op, name) && !Sets(op, name)
    ensures forall b :: BornAt(ops, name, b) ==> BornAt(ops + [op], name, b)
    ensures forall l :: LatestAt(ops, name, l) <==> LatestAt(ops + [op], name, l)
  {
    var all := ops + [op];
    forall b | BornAt(ops, name, b) ensures BornAt(all, name, b) {
      forall i | 0 <= i < b && Sets(all[i], name) ensures exists j :: i < j < b && Removes(all[j], name) {
        assert Sets(ops[i], name);
        var j :| i < j < b && Removes(ops[j], name);
        assert Removes(all[j], name);
      }
    }
    forall l | LatestAt(all, name, l) ensures LatestAt(ops, name, l) {
      assert forall i :: 0 <= i < |ops| ==> ops[i] == all[i];
    }
  }

  lemma SetAgain(ops: seq<Op>, h: Handler, b: int)
    requires BornAt(ops, h.name, b)
    ensures BornAt(ops + [Set(h)], h.name, b) && LatestAt(ops + [Set(h)], h.name, |ops|)
  {
    var all := ops + [Set(h)];
    forall i | 0 <= i < b && Sets(all[i], h.name) ensures exists j :: i < j < b && Removes(all[j], h.name) {
      assert Sets(ops[i], h.name);
      var j :| i < j < b && Removes(ops[j], h.name);
      assert Removes(all[j], h.name);
    }
  }

  lemma {:induction false} LastSetOrRemove(ops: seq<Op>, name: string)
    ensures (exists l :: LatestAt(ops, name, l))
         || (forall i :: 0 <= i < |ops| && Sets(ops[i], name) ==> exists j :: i < j < |ops| && Removes(ops[j], name))
    decreases |ops|
  {
    if ops != [] {
      var n := |ops| - 1;
      var p := ops[..n];
      LastSetOrRemove(p, name);
      if Sets(ops[n], name) {
        assert LatestAt(ops, name, n);
      } else if Removes(ops[n], name) {
      } else {
        assert ops == p + [ops[n]];
        OtherName(p, ops[n], name);
        if !exists l :: LatestAt(p, name, l) {
          forall i | 0 <= i < |ops| && Sets(ops[i], name) ensures exists j :: i < j < |ops| && Removes(ops[j], name) {
            assert Sets(p[i], name);
            var j :| i < j < n && Removes(p[j], name);
            assert Removes(ops[j], name);
          }
        }
      }
    }
  }

  lemma SetFresh(ops: seq<Op>, h: Handler)
    requires !exists l :: LatestAt(ops, h.name, l)
    ensures BornAt(ops + [Set(h)], h.name, |ops|) && LatestAt(ops + [Set(h)], h.name, |ops|)
  {
    var all := ops + [Set(h)];
    LastSetOrRemove(ops, h.name);
    forall i | 0 <= i < |ops| && Sets(all[i], h.name) ensures exists j :: i < j < |ops| && Removes(all[j], h.name) {
      assert Sets(ops[i], h.name);
      var j :| i < j < |ops| && Removes(ops[j], h.name);
      assert Removes(all[j], h.name);
    }
  }

  /**
   For every history of register, unregister and clear, the map holds each name's latest handler, in
   the order of the registrations that brought the names in; registering again keeps the old place.
   */
  lemma {:induction false} MapTellsHistory(ops: seq<Op>) returns (born: seq<int>, latest: seq<int>)
    ensures Tells(ops, Run(ops), born, latest)
    decreases |ops|
  {
    if ops == [] {
      born, latest := [], [];
    } else {
      var n := |ops| - 1;
      var p := ops[..n];
      assert ops == p + [ops[n]];
      born, latest := MapTellsHistory(p);
      match ops[n] {
        case Set(h) => born, latest := SetTells(p, Run(p), born, latest, h);
        case Delete(name) => born, latest := DeleteTells(p, Run(p), born, latest, name);
        case ClearAll =>
          born, latest := [], [];
          forall name, l ensures !LatestAt(ops, name, l) {
            assert Removes(ops[n], name) && !Sets(ops[n], name);
          }
      }
    }
  }

  lemma OtherEntry(ops: seq<Op>, op: Op, h: Handler, b: int, l: int)
    requires Entered(ops, h, b, l) && !Removes(op, h.name) && !Sets(op, h.name)
    ensures Entered(ops + [op], h, b, l)
  {
    OtherName(ops, op, h.name);
  }

  lemma RemovedIsNotLatest(ops: seq<Op>, op: Op, name: string)
    requires Removes(op, name)
    ensures forall l :: !LatestAt(ops + [op], name, l)
  {
    assert (ops + [op])[|ops|] == op && !Sets(op, name);
  }

  lemma StillPresent(ops: seq<Op>, op: Op, hs: seq<Handler>, hs': seq<Handler>, changed: string)
    requires AllPresent(ops, hs)
    requires forall name :: name != changed ==> !Removes(op, name) && !Sets(op, name)
    requires forall h :: h in hs && h.name != changed ==> h in hs'
    requires Present(hs', changed) || Removes(op, changed)
    ensures AllPresent(ops + [op], hs')
  {
    if Removes(op, changed) {
      RemovedIsNotLatest(ops, op, changed);
    }
    forall name, l | LatestAt(ops + [op], name, l) ensures Present(hs', name) {
      if name != changed {
        OtherName(ops, op, name);
        assert Present(hs, name);
        var i :| 0 <= i < |hs| && hs[i].name == name;
        assert hs[i] in hs';
      }
    }
  }

  lemma SetTells(ops: seq<Op>, hs: seq<Handler>, born: seq<int>, latest: seq<int>, h: Handler)
    returns (born': seq<int>, latest': seq<int>)
    requires Tells(ops, hs, born, latest)
    ensures Tells(ops + [Set(h)], MapSet(hs, h), born', latest')
  {
    if i :| 0 <= i < |hs| && hs[i].name == h.name {
      MapSetAt(hs, h, i);
      SetAtTells(ops, hs, born, latest, h, i);
      born', latest' := born, latest[i := |ops|];
    } else {
      MapSetNew(hs, h);
      SetNewTells(ops, hs, born, latest, h);
      born', latest' := born + [|ops|], latest + [|ops|];
    }
  }

  lemma SetAtTells(ops: seq<Op>, hs: seq<Handler>, born: seq<int>, latest: seq<int>, h: Handler, i: nat)
    requires Tells(ops, hs, born, latest) && i < |hs| && hs[i].name == h.name && DistinctNames(hs[i := h])
    ensures Tells(ops + [Set(h)], hs[i := h], born, latest[i := |ops|])
  {
    var hs', latest' := hs[i := h], latest[i := |ops|];
    assert Entered(ops, hs[i], born[i], latest[i]);
    SetAgain(ops, h, born[i]);
    forall j | 0 <= j < |hs'| ensures Entered(ops + [Set(h)], hs'[j], born[j], latest'[j]) {
      if j != i {
        assert Entered(ops, hs[j], born[j], latest[j]);
        OtherEntry(ops, Set(h), hs[j], born[j], latest[j]);
      }
    }
    UpdateKeeps(hs, h, i);
    StillPresent(ops, Set(h), hs, hs', h.name);
  }

  lemma UpdateKeeps(hs: seq<Handler>, h: Handler, i: nat)
    requires i < |hs| && hs[i].name == h.name
    ensures forall x :: x in hs && x.name != h.name ==> x in hs[i := h]
    ensures Present(hs[i := h], h.name)
  {
    forall x | x in hs && x.name != h.name ensures x in hs[i := h] {
      var j :| 0 <= j < |hs| && hs[j] == x;
      assert hs[i := h][j] == x;
    }
    assert hs[i := h][i].name == h.name;
  }

  lemma SetNewTells(ops: seq<Op>, hs: seq<Handler>, born: seq<int>, latest: seq<int>, h: Handler)
    requires Tells(ops, hs, born, latest) && !Present(hs, h.name) && DistinctNames(hs + [h])
    ensures Tells(ops + [Set(h)], hs + [h], born + [|ops|], latest + [|ops|])
  {
    var hs', born', latest' := hs + [h], born + [|ops|], latest + [|ops|];
    SetFresh(ops, h);
    forall j | 0 <= j < |hs'| ensures Entered(ops + [Set(h)], hs'[j], born'[j], latest'[j]) {
      if j < |hs| {
        assert Entered(ops, hs[j], born[j], latest[j]);
        OtherEntry(ops, Set(h), hs[j], born[j], latest[j]);
      }
    }
    forall j | 0 <= j < |hs| ensures born[j] < |ops| {
      assert Entered(ops, hs[j], born[j], latest[j]);
    }
    assert hs'[|hs|].name == h.name;
    StillPresent(ops, Set(h), hs, hs', h.name);
  }

  lemma DeleteTells(ops: seq<Op>, hs: seq<Handler>, born: seq<int>, latest: seq<int>, name: string)
    returns (born': seq<int>, latest': seq<int>)
    requires Tells(ops, hs, born, latest)
    ensures Tells(ops + [Delete(name)], MapDelete(hs, name), born', latest')
  {
    if i :| 0 <= i < |hs| && hs[i].name == name {
      MapDeleteAt(hs, name, i);
      CutDistinct(hs, i);
      DeleteAtTells(ops, hs, born, latest, name, i);
      born', latest' := born[..i] + born[i + 1..], latest[..i] + latest[i + 1..];
    } else {
      MapDeleteAbsent(hs, name);
      DeleteAbsentTells(ops, hs, born, latest, name);
      born', latest' := born, latest;
    }
  }

  lemma DeleteAtTells(ops: seq<Op>, hs: seq<Handler>, born: seq<int>, latest: seq<int>, name: string, i: nat)
    requires Tells(ops, hs, born, latest) && i < |hs| && hs[i].name == name && DistinctNames(hs[..i] + hs[i + 1..])
    ensures Tells(ops + [Delete(name)], hs[..i] + hs[i + 1..], born[..i] + born[i + 1..], latest[..i] + latest[i + 1..])
  {
    var hs', born', latest' := hs[..i] + hs[i + 1..], born[..i] + born[i + 1..], latest[..i] + latest[i + 1..];
    forall j | 0 <= j < |hs'| ensures Entered(ops + [Delete(name)], hs'[j], born'[j], latest'[j]) {
      var k := if j < i then j else j + 1;
      assert Entered(ops, hs[k], born[k], latest[k]);
      OtherEntry(ops, Delete(name), hs[k], born[k], latest[k]);
    }
    CutKeeps(hs, i);
    StillPresent(ops, Delete(name), hs, hs', name);
  }

  lemma CutKeeps(hs: seq<Handler>, i: nat)
    requires i < |hs|
    ensures forall x :: x in hs && x != hs[i] ==> x in hs[..i] + hs[i + 1..]
  {
    assert hs == hs[..i] + [hs[i]] + hs[i + 1..];
  }

  lemma DeleteAbsentTells(ops: seq<Op>, hs: seq<Handler>, born: seq<int>, latest: seq<int>, name: string)
    requires Tells(ops, hs, born, latest) && !Present(hs, name)
    ensures Tells(ops + [Delete(name)], hs, born, latest)
  {
    forall j | 0 <= j < |hs| ensures Entered(ops + [Delete(name)], hs[j], born[j], latest[j]) {
      assert Entered(ops, hs[j], born[j], latest[j]);
      OtherEntry(ops, Delete(name), hs[j], born[j], latest[j]);
    }
    StillPresent(ops, Delete(name), hs, hs, name);
  }

  /** The registered handler of highest priority that matches; among equals the one whose name has been in longest. */
  ghost predicate ChosenByHistory(ops: seq<Op>, topic: string, name: string, l: int, b: int) {
    && LatestAt(ops, name, l) && BornAt(ops, name, b) && CanHandle(ops[l].handler, topic)
    && forall name', l', b' :: LatestAt(ops, name', l') && BornAt(ops, name', b') && CanHandle(ops[l'].handler, topic) ==>
         || ops[l'].handler.priority < ops[l].handler.priority
         || (ops[l'].handler.priority == ops[l].handler.priority && b <= b')
  }

  lemma LatestUnique(ops: seq<Op>, name: string, l: int, l': int)
    requires LatestAt(ops, name, l) && LatestAt(ops, name, l')
    ensures l == l'
  {
  }

  lemma BornUnique(ops: seq<Op>, name: string, b: int, b': int)
    requires BornAt(ops, name, b) && BornAt(ops, name, b')
    ensures b == b'
  {
  }

  /** Routing, told from the history alone: which registration answers, that there is one, and when there is none. */
  lemma RoutingByHistory(ops: seq<Op>, topic: string)
    ensures FirstMatch(SortByPriority(Run(ops)), topic).None? <==>
              forall name, l :: LatestAt(ops, name, l) ==> !CanHandle(ops[l].handler, topic)
    ensures forall name, l, b :: ChosenByHistory(ops, topic, name, l, b) ==>
              FirstMatch(SortByPriority(Run(ops)), topic) == Some(ops[l].handler)
    ensures FirstMatch(SortByPriority(Run(ops)), topic).Some? ==> exists name, l, b :: ChosenByHistory(ops, topic, name, l, b)
  {
    var hs := Run(ops);
    var born, latest := MapTellsHistory(ops);
    ChosenIsFirst(hs, topic);
    if FirstMatch(SortByPriority(hs), topic).Some? {
      var i := SortedFirstMatchIsChosen(hs, topic);
      IndexChoosesHistory(ops, hs, born, latest, topic, i);
    }
    forall name, l | LatestAt(ops, name, l) ensures ops[l].handler in hs {
      var i := IndexOfName(ops, hs, born, latest, name, l);
    }
    forall h | h in hs ensures exists name, l :: LatestAt(ops, name, l) && h == ops[l].handler {
      var i :| 0 <= i < |hs| && hs[i] == h;
      assert Entered(ops, hs[i], born[i], latest[i]);
    }
    forall name, l, b | ChosenByHistory(ops, topic, name, l, b)
      ensures FirstMatch(SortByPriority(hs), topic) == Some(ops[l].handler)
    {
      var i := HistoryChoosesIndex(ops, hs, born, latest, topic, name, l, b);
    }
  }

  lemma HistoryChoosesIndex(ops: seq<Op>, hs: seq<Handler>, born: seq<int>, latest: seq<int>, topic: string,
                            name: string, l: int, b: int) returns (i: int)
    requires Tells(ops, hs, born, latest) && ChosenByHistory(ops, topic, name, l, b)
    ensures Chosen(hs, topic, i) && hs[i] == ops[l].handler
  {
    i := IndexOfName(ops, hs, born, latest, name, l);
    BornUnique(ops, name, b, born[i]);
    forall j | 0 <= j < |hs| && CanHandle(hs[j], topic)
      ensures hs[j].priority < hs[i].priority || (hs[j].priority == hs[i].priority && i <= j)
    {
      assert Entered(ops, hs[j], born[j], latest[j]);
    }
  }

  lemma IndexChoosesHistory(ops: seq<Op>, hs: seq<Handler>, born: seq<int>, latest: seq<int>, topic: string, i: int)
    requires Tells(ops, hs, born, latest) && Chosen(hs, topic, i)
    ensures ChosenByHistory(ops, topic, hs[i].name, latest[i], born[i])
  {
    assert Entered(ops, hs[i], born[i], latest[i]);
    forall name, l, b | LatestAt(ops, name, l) && BornAt(ops, name, b) && CanHandle(ops[l].handler, topic)
      ensures ops[l].handler.priority < hs[i].priority || (ops[l].handler.priority == hs[i].priority && born[i] <= b)
    {
      var j := IndexOfName(ops, hs, born, latest, name, l);
      BornUnique(ops, name, b, born[j]);
    }
  }

  lemma IndexOfName(ops: seq<Op>, hs: seq<Handler>, born: seq<int>, latest: seq<int>, name: string, l: int) returns (i: int)
    requires Tells(ops, hs, born, latest) && LatestAt(ops, name, l)
    ensures 0 <= i < |hs| && hs[i].name == name && hs[i] == ops[l].handler && BornAt(ops, name, born[i])
  {
    assert Present(hs, name);
    i :| 0 <= i < |hs| && hs[i].name == name;
    assert Entered(ops, hs[i], born[i], latest[i]);
    LatestUnique(ops, name, l, latest[i]);
  }
}
