/** The dynamic watcher's delivery path (internal/dynamicwatch/watcher.go):
    any number of concurrent enqueue calls, one flusher and one consumer. */
module EventQueue {
  import opened Text
  import Runs

  /** The fields copied into the event object. */
  datatype Identity = Identity(group: string, version: string, kind: string, namespace: string, name: string)

  function PendingKey(o: Identity): string {
    o.group + "/" + o.version + "/" + o.kind + "/" + o.namespace + "/" + o.name
  }

  /** Kubernetes allows no slash in these components; the name is unrestricted here. */
  predicate SlashFree(o: Identity) {
    '/' !in o.group && '/' !in o.version && '/' !in o.kind && '/' !in o.namespace
  }

  lemma PendingKeyInjective(a: Identity, b: Identity)
    requires SlashFree(a) && SlashFree(b)
    ensures PendingKey(a) == PendingKey(b) <==> a == b
  {
    var xs := [a.group, a.version, a.kind, a.namespace, a.name];
    var ys := [b.group, b.version, b.kind, b.namespace, b.name];
    PendingKeyIsJoin(a);
    PendingKeyIsJoin(b);
    if PendingKey(a) == PendingKey(b) {
      JoinInjective('/', xs, ys);
      assert a.group == xs[0] == ys[0] == b.group && a.version == xs[1] == ys[1] == b.version;
      assert a.kind == xs[2] == ys[2] == b.kind && a.namespace == xs[3] == ys[3] == b.namespace;
      assert a.name == xs[4] == ys[4] == b.name;
    }
  }

  lemma PendingKeyIsJoin(o: Identity)
    ensures PendingKey(o) == Join('/', [o.group, o.version, o.kind, o.namespace, o.name])
  {
    var p := [o.group, o.version, o.kind, o.namespace, o.name];
    assert p[1..] == [o.version, o.kind, o.namespace, o.name];
    assert p[1..][1..] == [o.kind, o.namespace, o.name];
    assert p[1..][1..][1..] == [o.namespace, o.name];
    assert p[1..][1..][1..][1..] == [o.name];
    assert Join('/', p[1..][1..][1..]) == o.namespace + "/" + o.name;
    assert Join('/', p[1..][1..]) == o.kind + "/" + (o.namespace + "/" + o.name);
    assert Join('/', p[1..]) == o.version + "/" + (o.kind + "/" + (o.namespace + "/" + o.name));
    assert Join('/', p) == o.group + "/" + (o.version + "/" + (o.kind + "/" + (o.namespace + "/" + o.name)));
  }

  /** With slashes in the earlier components two different objects would share a key. */
  lemma PendingKeyCollidesWithSlashes()
    ensures exists a, b :: a != b && PendingKey(a) == PendingKey(b)
  {
    var a := Identity("g", "v", "K/x", "ns", "n");
    var b := Identity("g", "v", "K", "x/ns", "n");
    assert PendingKey(a) == "g/v/K/x/ns/n" == PendingKey(b);
  }

  /** A fresh *unstructured.Unstructured: pointer comparison is comparison of ids. */
  datatype Ref = Ref(id: nat, obj: Identity)

  /** The channel, as everything ever sent and the number already received, and the coalescing map. */
  datatype Memory = Memory(capacity: nat, sent: seq<Ref>, taken: nat, pending: map<string, Ref>) {
    ghost predicate Valid() { taken <= |sent| <= taken + capacity }
    predicate HasRoom() { |sent| < taken + capacity }
    function Send(r: Ref): Memory { this.(sent := sent + [r]) }
    function Store(r: Ref): Memory { this.(pending := pending[PendingKey(r.obj) := r]) }
    function DropIfCurrent(key: string, r: Ref): Memory {
      if key in pending && pending[key] == r then this.(pending := pending - {key}) else this
    }
  }

  datatype CallPc = AtSend | AtStore | Returned

  /** One enqueue call; `begun` is the number of events sent when it started. */
  datatype Call = Call(ref: Ref, begun: nat, pc: CallPc)

  datatype Flusher = Waiting | Picked(key: string, ref: Ref) | Delivered(key: string, ref: Ref)

  datatype State = State(mem: Memory, calls: seq<Call>, flusher: Flusher)

  datatype Step =
    | Begin(obj: Identity)   // enqueue allocates its copy
    | TrySend(call: nat)        // non-blocking send of an enqueue
    | StorePending(call: nat)   // locked map update of an enqueue
    | Pick(key: string)         // flusher takes some entry of the map, under the lock
    | Flush                     // flusher's non-blocking send
    | CompareAndDelete          // flusher's locked compare-and-delete
    | Receive                   // consumer takes the oldest event

  ghost predicate Next(s: State, step: Step, t: State) {
    match step
    case Begin(o) =>
      SlashFree(o) && o.namespace != "" &&
      t == s.(calls := s.calls + [Call(Ref(|s.calls|, o), |s.mem.sent|, AtSend)])
    case TrySend(i) =>
      i < |s.calls| && s.calls[i].pc == AtSend &&
      if s.mem.HasRoom()
      then t == s.(mem := s.mem.Send(s.calls[i].ref), calls := s.calls[i := s.calls[i].(pc := Returned)])
      else t == s.(calls := s.calls[i := s.calls[i].(pc := AtStore)])
    case StorePending(i) =>
      i < |s.calls| && s.calls[i].pc == AtStore &&
      t == s.(mem := s.mem.Store(s.calls[i].ref), calls := s.calls[i := s.calls[i].(pc := Returned)])
    case Pick(key) =>
      s.flusher == Waiting && key in s.mem.pending &&
      t == s.(flusher := Picked(key, s.mem.pending[key]))
    case Flush =>
      s.flusher.Picked? &&
      if s.mem.HasRoom()
      then t == s.(mem := s.mem.Send(s.flusher.ref), flusher := Delivered(s.flusher.key, s.flusher.ref))
      else t == s.(flusher := Waiting)
    case CompareAndDelete =>
      s.flusher.Delivered? &&
      t == s.(mem := s.mem.DropIfCurrent(s.flusher.key, s.flusher.ref), flusher := Waiting)
    case Receive =>
      s.mem.taken < |s.mem.sent| &&
      t == s.(mem := s.mem.(taken := s.mem.taken + 1))
  }

  ghost predicate Init(s: State) {
    s.mem.sent == [] && s.mem.taken == 0 && s.mem.pending == map[] && s.calls == [] && s.flusher == Waiting
  }

  /** An event for the object was sent at or after position `since` of the history. */
  ghost predicate SentSince(m: Memory, o: Identity, since: nat) {
    exists i :: since <= i < |m.sent| && m.sent[i].obj == o
  }

  ghost predicate IsPending(m: Memory, o: Identity) {
    PendingKey(o) in m.pending && m.pending[PendingKey(o)].obj == o
  }

  /** The promise an enqueue call makes once it has returned. */
  ghost predicate Kept(m: Memory, c: Call) {
    SentSince(m, c.ref.obj, c.begun) || IsPending(m, c.ref.obj)
  }

  /** The reference was published by a call that has returned. */
  ghost predicate Published(s: State, key: string, r: Ref) {
    r.id < |s.calls| && s.calls[r.id].ref == r && s.calls[r.id].pc == Returned && key == PendingKey(r.obj)
  }

  ghost predicate Inv(s: State) {
    && s.mem.Valid()
    && (forall i :: 0 <= i < |s.calls| ==>
          s.calls[i].ref.id == i && s.calls[i].begun <= |s.mem.sent| && SlashFree(s.calls[i].ref.obj))
    && (forall k :: k in s.mem.pending ==> Published(s, k, s.mem.pending[k]))
    && (!s.flusher.Waiting? ==> Published(s, s.flusher.key, s.flusher.ref))
    && (forall i :: 0 <= i < |s.mem.sent| ==>
          s.mem.sent[i].id < |s.calls| && s.calls[s.mem.sent[i].id].ref == s.mem.sent[i])
    && (forall i :: 0 <= i < |s.calls| && s.calls[i].pc == Returned ==> Kept(s.mem, s.calls[i]))
    // While the flusher may still delete an entry, every returned call for that
    // object already has its event in the history.
    && (s.flusher.Delivered? && s.flusher.key in s.mem.pending && s.mem.pending[s.flusher.key] == s.flusher.ref ==>
          forall i :: 0 <= i < |s.calls| && s.calls[i].pc == Returned && s.calls[i].ref.obj == s.flusher.ref.obj ==>
            SentSince(s.mem, s.calls[i].ref.obj, s.calls[i].begun))
  }

  lemma SendKeeps(m: Memory, r: Ref, o: Identity, since: nat)
    ensures SentSince(m, o, since) ==> SentSince(m.Send(r), o, since)
    ensures since <= |m.sent| && r.obj == o ==> SentSince(m.Send(r), o, since)
    ensures IsPending(m, o) ==> IsPending(m.Send(r), o)
  {
    var n := m.Send(r);
    if SentSince(m, o, since) {
      var i :| since <= i < |m.sent| && m.sent[i].obj == o;
      assert n.sent[i].obj == o;
    }
    if since <= |m.sent| && r.obj == o {
      assert n.sent[|m.sent|].obj == o;
    }
  }

  lemma TrySendKeepsInv(s: State, i: nat, t: State)
    requires Inv(s) && Next(s, TrySend(i), t)
    ensures Inv(t)
  {
    forall j | 0 <= j < |t.calls| && t.calls[j].pc == Returned
      ensures Kept(t.mem, t.calls[j])
    {
      SendKeeps(s.mem, s.calls[i].ref, s.calls[j].ref.obj, s.calls[j].begun);
    }
    if t.flusher.Delivered? && t.flusher.key in t.mem.pending && t.mem.pending[t.flusher.key] == t.flusher.ref {
      forall j | 0 <= j < |t.calls| && t.calls[j].pc == Returned && t.calls[j].ref.obj == t.flusher.ref.obj
        ensures SentSince(t.mem, t.calls[j].ref.obj, t.calls[j].begun)
      {
        SendKeeps(s.mem, s.calls[i].ref, s.calls[j].ref.obj, s.calls[j].begun);
      }
    }
  }

  lemma StoreKeepsInv(s: State, i: nat, t: State)
    requires Inv(s) && Next(s, StorePending(i), t)
    ensures Inv(t)
  {
    var r := s.calls[i].ref;
    forall j | 0 <= j < |t.calls| && t.calls[j].pc == Returned
      ensures Kept(t.mem, t.calls[j])
    {
      var o := t.calls[j].ref.obj;
      if !SentSince(s.mem, o, t.calls[j].begun) {
        if PendingKey(o) == PendingKey(r.obj) {
          PendingKeyInjective(o, r.obj);
        }
        assert IsPending(t.mem, o);
      } else {
        assert SentSince(t.mem, o, t.calls[j].begun);
      }
    }
    if t.flusher.Delivered? && t.flusher.key in t.mem.pending && t.mem.pending[t.flusher.key] == t.flusher.ref {
      assert t.flusher.ref != r;  // r is only now being published
      forall j | 0 <= j < |t.calls| && t.calls[j].pc == Returned && t.calls[j].ref.obj == t.flusher.ref.obj
        ensures SentSince(t.mem, t.calls[j].ref.obj, t.calls[j].begun)
      {
        assert j != i;
        assert SentSince(s.mem, s.calls[j].ref.obj, s.calls[j].begun);
      }
    }
  }

  lemma FlushKeepsInv(s: State, t: State)
    requires Inv(s) && Next(s, Flush, t)
    ensures Inv(t)
  {
    forall j | 0 <= j < |t.calls| && t.calls[j].pc == Returned
      ensures Kept(t.mem, t.calls[j])
      ensures t.flusher.Delivered? && t.calls[j].ref.obj == t.flusher.ref.obj ==>
                SentSince(t.mem, t.calls[j].ref.obj, t.calls[j].begun)
    {
      SendKeeps(s.mem, s.flusher.ref, s.calls[j].ref.obj, s.calls[j].begun);
    }
  }

  lemma CompareAndDeleteKeepsInv(s: State, t: State)
    requires Inv(s) && Next(s, CompareAndDelete, t)
    ensures Inv(t)
  {
    var key := s.flusher.key;
    forall j | 0 <= j < |t.calls| && t.calls[j].pc == Returned
      ensures Kept(t.mem, t.calls[j])
    {
      var o := t.calls[j].ref.obj;
      if SentSince(s.mem, o, t.calls[j].begun) {
        assert SentSince(t.mem, o, t.calls[j].begun);
      } else {
        assert IsPending(s.mem, o);
        if PendingKey(o) == key && s.mem.pending[key] == s.flusher.ref {
          assert false;
        }
        assert IsPending(t.mem, o);
      }
    }
  }

  lemma NextKeepsInv(s: State, step: Step, t: State)
    requires Inv(s) && Next(s, step, t)
    ensures Inv(t)
  {
    match step
    case TrySend(i) => TrySendKeepsInv(s, i, t);
    case StorePending(i) => StoreKeepsInv(s, i, t);
    case Flush => FlushKeepsInv(s, t);
    case CompareAndDelete => CompareAndDeleteKeepsInv(s, t);
    case Pick(_) =>
    case Begin(o) => BeginKeepsInv(s, o, t);
    case Receive => ReceiveKeepsInv(s, t);
  }

  lemma BeginKeepsInv(s: State, o: Identity, t: State)
    requires Inv(s) && Next(s, Begin(o), t)
    ensures Inv(t)
  {
    KeptWithSameHistory(s, t);
  }

  lemma ReceiveKeepsInv(s: State, t: State)
    requires Inv(s) && Next(s, Receive, t)
    ensures Inv(t)
  {
    KeptWithSameHistory(s, t);
  }

  /** Steps that neither send nor touch the map break no promise. */
  lemma KeptWithSameHistory(s: State, t: State)
    requires s.mem.sent == t.mem.sent && s.mem.pending == t.mem.pending
    ensures forall o, since :: SentSince(s.mem, o, since) == SentSince(t.mem, o, since)
    ensures forall c: Call :: Kept(s.mem, c) == Kept(t.mem, c)
  {
    forall o, since | true
      ensures SentSince(s.mem, o, since) == SentSince(t.mem, o, since)
    {
      SameHistory(s.mem, t.mem, o, since);
    }
  }

  lemma SameHistory(m: Memory, n: Memory, o: Identity, since: nat)
    requires m.sent == n.sent
    ensures SentSince(m, o, since) == SentSince(n, o, since)
  {
  }

  /** A run: any interleaving of the steps above. */
  ghost predicate IsRun(run: seq<State>, steps: seq<Step>) { Runs.IsLabelled(Init, Next, run, steps) }

  lemma {:induction false} RunInv(run: seq<State>, steps: seq<Step>, i: nat)
    requires IsRun(run, steps) && i < |run|
    ensures Inv(run[i])
  {
    if i > 0 {
      RunInv(run, steps, i - 1);
      assert Runs.LabelledAt(Next, run, steps, i - 1);
      NextKeepsInv(run[i - 1], steps[i - 1], run[i]);
    }
  }

  lemma {:induction false} ReturnedForever(run: seq<State>, steps: seq<Step>, i: nat, j: nat, c: nat)
    requires IsRun(run, steps) && i <= j < |run|
    requires c < |run[i].calls| && run[i].calls[c].pc == Returned
    ensures c < |run[j].calls| && run[j].calls[c] == run[i].calls[c]
    ensures run[i].mem.sent <= run[j].mem.sent
  {
    if i < j {
      ReturnedForever(run, steps, i, j - 1, c);
      var a, b := run[j - 1], run[j];
      assert Runs.LabelledAt(Next, run, steps, j - 1);
      assert a.mem.sent <= b.mem.sent;
    }
  }

  /** No event is lost: once an enqueue call has returned, in every later state an
      event for its object was sent since the call began, or is still pending. */
  lemma NoEventLost(run: seq<State>, steps: seq<Step>, i: nat, j: nat, c: nat)
    requires IsRun(run, steps) && i <= j < |run|
    requires c < |run[i].calls| && run[i].calls[c].pc == Returned
    ensures Kept(run[j].mem, run[i].calls[c])
  {
    ReturnedForever(run, steps, i, j, c);
    RunInv(run, steps, j);
  }

  /** No event is invented, and the channel never holds more than its capacity. */
  lemma OnlyEnqueuedObjectsAreSent(run: seq<State>, steps: seq<Step>, i: nat, k: nat)
    requires IsRun(run, steps) && i < |run| && k < |run[i].mem.sent|
    ensures exists c :: 0 <= c < |run[i].calls| && run[i].calls[c].ref == run[i].mem.sent[k]
    ensures run[i].mem.taken <= |run[i].mem.sent| <= run[i].mem.taken + run[i].mem.capacity
  {
    RunInv(run, steps, i);
    assert run[i].calls[run[i].mem.sent[k].id].ref == run[i].mem.sent[k];
  }

  /** No event is sent twice: each enqueue call contributes at most one. */
  ghost predicate AtMostOnce(s: State) {
    && (forall i, j :: 0 <= i < j < |s.mem.sent| ==> s.mem.sent[i] != s.mem.sent[j])
    && (forall i :: 0 <= i < |s.calls| && s.calls[i].pc != Returned ==> s.calls[i].ref !in s.mem.sent)
    && (s.flusher.Picked? ==> s.flusher.ref !in s.mem.sent)
    && (forall k :: k in s.mem.pending && s.mem.pending[k] in s.mem.sent ==>
          s.flusher == Delivered(k, s.mem.pending[k]))
  }

  lemma TrySendKeepsAtMostOnce(s: State, i: nat, t: State)
    requires Inv(s) && AtMostOnce(s) && Next(s, TrySend(i), t)
    ensures AtMostOnce(t)
  {
    assert forall k :: k in s.mem.pending ==> s.mem.pending[k] != s.calls[i].ref;
    assert forall r :: r in t.mem.sent ==> r in s.mem.sent || r == s.calls[i].ref;
  }

  lemma StoreKeepsAtMostOnce(s: State, i: nat, t: State)
    requires Inv(s) && AtMostOnce(s) && Next(s, StorePending(i), t)
    ensures AtMostOnce(t)
  {
    assert s.calls[i].ref !in s.mem.sent;
  }

  lemma FlushKeepsAtMostOnce(s: State, t: State)
    requires Inv(s) && AtMostOnce(s) && Next(s, Flush, t)
    ensures AtMostOnce(t)
  {
    assert forall r :: r in t.mem.sent ==> r in s.mem.sent || r == s.flusher.ref;
    assert forall k :: k in s.mem.pending && s.mem.pending[k] == s.flusher.ref ==> k == s.flusher.key;
  }

  lemma CompareAndDeleteKeepsAtMostOnce(s: State, t: State)
    requires Inv(s) && AtMostOnce(s) && Next(s, CompareAndDelete, t)
    ensures AtMostOnce(t)
  {
    assert forall k :: k in s.mem.pending && s.mem.pending[k] == s.flusher.ref ==> k == s.flusher.key;
  }

  lemma BeginKeepsAtMostOnce(s: State, o: Identity, t: State)
    requires Inv(s) && AtMostOnce(s) && Next(s, Begin(o), t)
    ensures AtMostOnce(t)
  {
    assert forall k :: 0 <= k < |s.mem.sent| ==> s.mem.sent[k].id < |s.calls|;
  }

  lemma NextKeepsAtMostOnce(s: State, step: Step, t: State)
    requires Inv(s) && AtMostOnce(s) && Next(s, step, t)
    ensures AtMostOnce(t)
  {
    match step
    case TrySend(i) => TrySendKeepsAtMostOnce(s, i, t);
    case StorePending(i) => StoreKeepsAtMostOnce(s, i, t);
    case Flush => FlushKeepsAtMostOnce(s, t);
    case CompareAndDelete => CompareAndDeleteKeepsAtMostOnce(s, t);
    case Begin(o) => BeginKeepsAtMostOnce(s, o, t);
    case Pick(key) =>
    case Receive =>
  }

  lemma {:induction false} NoEventSentTwice(run: seq<State>, steps: seq<Step>, i: nat)
    requires IsRun(run, steps) && i < |run|
    ensures AtMostOnce(run[i])
  {
    if i > 0 {
      NoEventSentTwice(run, steps, i - 1);
      RunInv(run, steps, i - 1);
      assert Runs.LabelledAt(Next, run, steps, i - 1);
      NextKeepsAtMostOnce(run[i - 1], steps[i - 1], run[i]);
    }
  }

  // ---- why the flusher compares before it deletes ----

  ghost predicate SomeStep(s: State, t: State) { exists step :: Next(s, step, t) }

  ghost predicate Reachable(s: State) { Runs.Reachable(Init, SomeStep, s) }

  lemma Extend(s: State, step: Step, t: State)
    requires Reachable(s) && Next(s, step, t)
    ensures Reachable(t)
  {
    Runs.ReachableNext(Init, SomeStep, s, t);
  }

  /** An enqueue call that finds room. */
  lemma EnqueueSends(s: State, o: Identity) returns (t: State)
    requires Reachable(s) && SlashFree(o) && o.namespace != "" && s.mem.HasRoom()
    ensures Reachable(t)
    ensures var r := Ref(|s.calls|, o);
            t == State(s.mem.Send(r), s.calls + [Call(r, |s.mem.sent|, Returned)], s.flusher)
  {
    var r := Ref(|s.calls|, o);
    var begun := s.(calls := s.calls + [Call(r, |s.mem.sent|, AtSend)]);
    Extend(s, Begin(o), begun);
    t := State(s.mem.Send(r), s.calls + [Call(r, |s.mem.sent|, Returned)], s.flusher);
    assert begun.calls[|s.calls| := Call(r, |s.mem.sent|, Returned)] == t.calls;
    Extend(begun, TrySend(|s.calls|), t);
  }

  /** An enqueue call that finds the channel full. */
  lemma EnqueueStores(s: State, o: Identity) returns (t: State)
    requires Reachable(s) && SlashFree(o) && o.namespace != "" && !s.mem.HasRoom()
    ensures Reachable(t)
    ensures var r := Ref(|s.calls|, o);
            t == State(s.mem.Store(r), s.calls + [Call(r, |s.mem.sent|, Returned)], s.flusher)
  {
    var i := |s.calls|;
    var r := Ref(i, o);
    var begun := s.(calls := s.calls + [Call(r, |s.mem.sent|, AtSend)]);
    Extend(s, Begin(o), begun);
    var full := s.(calls := s.calls + [Call(r, |s.mem.sent|, AtStore)]);
    assert begun.calls[i := Call(r, |s.mem.sent|, AtStore)] == full.calls;
    Extend(begun, TrySend(i), full);
    t := State(s.mem.Store(r), s.calls + [Call(r, |s.mem.sent|, Returned)], s.flusher);
    assert full.calls[i := Call(r, |s.mem.sent|, Returned)] == t.calls;
    Extend(full, StorePending(i), t);
  }

  /** The flusher picks an entry, the consumer makes room, and the flusher sends. */
  lemma FlushAfterReceive(s: State, key: string) returns (t: State)
    requires Reachable(s) && s.flusher == Waiting && key in s.mem.pending
    requires s.mem.taken < |s.mem.sent| <= s.mem.taken + s.mem.capacity
    ensures Reachable(t)
    ensures var r := s.mem.pending[key];
            t == State(s.mem.(sent := s.mem.sent + [r], taken := s.mem.taken + 1), s.calls, Delivered(key, r))
  {
    var r := s.mem.pending[key];
    var picked := s.(flusher := Picked(key, r));
    Extend(s, Pick(key), picked);
    var received := picked.(mem := s.mem.(taken := s.mem.taken + 1));
    Extend(picked, Receive, received);
    t := State(received.mem.Send(r), s.calls, Delivered(key, r));
    Extend(received, Flush, t);
  }

  /** A flusher that deleted without comparing would lose an event: three calls for one object
      lead to a state in which that delete leaves a returned call neither sent nor pending. */
  lemma PlainDeleteLosesAnEvent(o: Identity)
    requires SlashFree(o) && o.namespace != ""
    ensures exists s: State, c: nat ::
              && Reachable(s) && s.flusher.Delivered? && c < |s.calls| && s.calls[c].pc == Returned
              && !Kept(s.mem.(pending := s.mem.pending - {s.flusher.key}), s.calls[c])
  {
    var start := State(Memory(1, [], 0, map[]), [], Waiting);
    Runs.ReachableInit(Init, SomeStep, start);
    var s := EnqueueSends(start, o);
    s := EnqueueStores(s, o);
    s := FlushAfterReceive(s, PendingKey(o));
    assert s.mem.sent == [Ref(0, o), Ref(1, o)];
    // The third call began after both events were sent; its copy is stored over the delivered one.
    s := EnqueueStores(s, o);
    assert s.calls[2] == Call(Ref(2, o), 2, Returned) && s.flusher == Delivered(PendingKey(o), Ref(1, o));
    assert !SentSince(s.mem.(pending := s.mem.pending - {s.flusher.key}), o, 2);
  }

  /** The watcher object: its fields are updated in place, one critical section or
      channel operation per method. */
  class Watcher {
    const capacity: nat
    var events: seq<Ref>
    var pending: map<string, Ref>
    var nextRef: nat
    ghost var sent: seq<Ref>

    constructor (capacity: nat)
      ensures this.capacity == capacity && Valid()
      ensures View() == Memory(capacity, [], 0, map[])
    {
      this.capacity := capacity;
      events, pending, nextRef, sent := [], map[], 0, [];
    }

    ghost predicate Valid()
      reads this
    {
      |events| <= |sent| && events == sent[Taken()..] && |events| <= capacity
    }

    /** What the consumer has received: everything sent that the channel no longer holds. */
    ghost function Taken(): nat
      reads this
      requires |events| <= |sent|
    {
      |sent| - |events|
    }

    ghost function View(): Memory
      reads this
      requires |events| <= |sent|
    {
      Memory(capacity, sent, Taken(), pending)
    }

    /** The select with a default branch. */
    method TrySendEvent(r: Ref) returns (ok: bool)
      requires Valid()
      modifies this
      ensures Valid() && nextRef == old(nextRef)
      ensures ok == old(View()).HasRoom()
      ensures View() == if ok then old(View()).Send(r) else old(View())
    {
      ok := |events| < capacity;
      if ok {
        events := events + [r];
        sent := sent + [r];
      }
    }

    method EnqueuePending(r: Ref)
      requires Valid()
      modifies this
      ensures Valid() && nextRef == old(nextRef)
      ensures View() == old(View()).Store(r)
    {
      pending := pending[PendingKey(r.obj) := r];
    }

    /** Objects without a namespace are ignored; otherwise the event is in the channel or in the map. */
    method Enqueue(o: Identity)
      requires Valid()
      modifies this
      ensures Valid()
      ensures o.namespace == "" ==> View() == old(View())
      ensures o.namespace != "" ==>
                var r := Ref(old(nextRef), o);
                nextRef == old(nextRef) + 1 &&
                View() == if old(View()).HasRoom() then old(View()).Send(r) else old(View()).Store(r)
    {
      if o.namespace == "" {
        return;
      }
      var r := Ref(nextRef, o);
      nextRef := nextRef + 1;
      var ok := TrySendEvent(r);
      if !ok {
        EnqueuePending(r);
      }
    }

    method DeleteIfCurrent(key: string, r: Ref)
      requires Valid()
      modifies this
      ensures Valid() && nextRef == old(nextRef)
      ensures View() == old(View()).DropIfCurrent(key, r)
    {
      if key in pending && pending[key] == r {
        pending := pending - {key};
      }
    }

    /** The entries that left the map since `before` are what was sent since `was`, each once. */
    ghost predicate Moved(before: map<string, Ref>, was: seq<Ref>)
      reads this
    {
      && was <= sent
      && (forall k :: k in pending ==> k in before && pending[k] == before[k])
      && (forall k :: k in before && k !in pending ==> before[k] in sent[|was|..])
      && |sent| - |was| == |before| - |pending|
      && (forall i :: |was| <= i < |sent| ==> sent[i] in before.Values)
    }

    /** One round of the flush: an entry is sent and removed, unless the channel is full. */
    method FlushOne(ghost before: map<string, Ref>, ghost was: seq<Ref>) returns (ok: bool)
      requires Valid() && pending != map[] && Moved(before, was)
      modifies this
      ensures Valid() && Taken() == old(Taken()) && Moved(before, was)
      ensures ok ==> |pending| < |old(pending)|
      ensures !ok ==> |events| == capacity
    {
      var key :| key in pending;
      var r := pending[key];
      ok := TrySendEvent(r);
      if ok {
        assert sent[|was|..] == old(sent)[|was|..] + [r];
        assert r in before.Values;
        ghost var entries := pending;
        DeleteIfCurrent(key, r);
        assert pending.Keys == entries.Keys - {key};
        assert |pending.Keys| == |entries.Keys| - 1;
      }
    }

    /** A flush that nothing interrupts stops with the map empty or the channel full,
        and sends exactly the entries it removes, each once, after all earlier events. */
    method FlushPending()
      requires Valid()
      modifies this
      ensures Valid() && Taken() == old(Taken())
      ensures pending == map[] || |events| == capacity
      ensures Moved(old(pending), old(sent))
    {
      while pending != map[]
        invariant Valid() && Taken() == old(Taken())
        invariant Moved(old(pending), old(sent))
        decreases |pending|
      {
        var ok := FlushOne(old(pending), old(sent));
        if !ok {
          return;
        }
      }
    }
  }
}
