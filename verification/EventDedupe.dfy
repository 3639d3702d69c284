/** The event dedupe cache (internal/controller/plugin/eks/event_dedupe.go), related to
    the whole history of calls. Times are nanoseconds. */
module EventDedupe {
  import opened Options
  import opened Text

  datatype Subject = Subject(controller: string, namespace: string, name: string)

  datatype Notice = Notice(eventType: string, reason: string, message: string)

  datatype Call = Call(subject: Subject, notice: Notice, time: int)

  datatype Entry = Entry(call: Call, emitted: bool)

  datatype Signature = Signature(value: string, recordedAt: int)

  function KeyOf(s: Subject): string { s.controller + "/" + s.namespace + "/" + s.name }

  function TextOf(n: Notice): string { n.eventType + "|" + n.reason + "|" + n.message }

  /** What the callers pass: controller names, namespaces, types and reasons are plain tokens. */
  predicate WellFormed(c: Call) {
    '/' !in c.subject.controller && '/' !in c.subject.namespace && '|' !in c.notice.eventType && '|' !in c.notice.reason
  }

  lemma ThreePartJoin(sep: char, a: string, b: string, c: string)
    ensures Join(sep, [a, b, c]) == a + [sep] + b + [sep] + c
  {
    assert [a, b, c][1..] == [b, c] && [b, c][1..] == [c];
    assert Join(sep, [b, c]) == b + [sep] + c;
  }

  lemma KeysAndTextsAreInjective(a: Call, b: Call)
    requires WellFormed(a) && WellFormed(b)
    ensures KeyOf(a.subject) == KeyOf(b.subject) <==> a.subject == b.subject
    ensures TextOf(a.notice) == TextOf(b.notice) <==> a.notice == b.notice
  {
    var s, t := a.subject, b.subject;
    ThreePartJoin('/', s.controller, s.namespace, s.name);
    ThreePartJoin('/', t.controller, t.namespace, t.name);
    if KeyOf(s) == KeyOf(t) {
      var xs, ys := [s.controller, s.namespace, s.name], [t.controller, t.namespace, t.name];
      JoinInjective('/', xs, ys);
      assert xs[0] == ys[0] && xs[1] == ys[1] && xs[2] == ys[2];
    }
    var m, n := a.notice, b.notice;
    ThreePartJoin('|', m.eventType, m.reason, m.message);
    ThreePartJoin('|', n.eventType, n.reason, n.message);
    if TextOf(m) == TextOf(n) {
      var xs, ys := [m.eventType, m.reason, m.message], [n.eventType, n.reason, n.message];
      JoinInjective('|', xs, ys);
      assert xs[0] == ys[0] && xs[1] == ys[1] && xs[2] == ys[2];
    }
  }

  /** The latest emission about a subject in a history. */
  function Latest(h: seq<Entry>, s: Subject): Option<Call> {
    if h == [] then None
    else if h[|h| - 1].emitted && h[|h| - 1].call.subject == s then Some(h[|h| - 1].call)
    else Latest(h[..|h| - 1], s)
  }

  predicate Expired(ttl: int, now: int, recordedAt: int) { ttl > 0 && now - recordedAt > ttl }

  /** The history alone says the call repeats the latest emission, and that one is fresh. */
  predicate Repeats(h: seq<Entry>, c: Call, ttl: int) {
    var e := Latest(h, c.subject);
    e.Some? && e.value.notice == c.notice && !Expired(ttl, c.time, e.value.time)
  }

  ghost predicate AllWellFormed(h: seq<Entry>) {
    forall i :: 0 <= i < |h| ==> WellFormed(h[i].call)
  }

  lemma {:induction false} LatestIsInHistory(h: seq<Entry>, s: Subject)
    requires Latest(h, s).Some?
    ensures exists i :: 0 <= i < |h| && h[i] == Entry(Latest(h, s).value, true) && h[i].call.subject == s &&
                        forall j :: i < j < |h| ==> !(h[j].emitted && h[j].call.subject == s)
  {
    var n := |h| - 1;
    if h[n].emitted && h[n].call.subject == s {
      assert h[n] == Entry(Latest(h, s).value, true);
    } else {
      LatestIsInHistory(h[..n], s);
      var i :| 0 <= i < n && h[..n][i] == Entry(Latest(h, s).value, true) && h[..n][i].call.subject == s &&
               forall j :: i < j < n ==> !(h[..n][j].emitted && h[..n][j].call.subject == s);
      assert h[i] == h[..n][i];
      assert forall j :: i < j < n ==> h[j] == h[..n][j];
    }
  }

  /** The decisions of a history agree with the specification, call by call. */
  ghost predicate Faithful(h: seq<Entry>, ttl: int) {
    forall i :: 0 <= i < |h| ==> (h[i].emitted <==> !Repeats(h[..i], h[i].call, ttl))
  }

  /** In a faithful history a call is suppressed exactly when the same notice about the
      same subject was emitted within the time to live, with no other emission about
      that subject in between. */
  lemma SuppressedExactlyWhenAlreadyTold(h: seq<Entry>, ttl: int, j: nat)
    requires Faithful(h, ttl) && j < |h|
    ensures !h[j].emitted <==>
            exists i :: 0 <= i < j && h[i].emitted && h[i].call.subject == h[j].call.subject &&
                        h[i].call.notice == h[j].call.notice && !Expired(ttl, h[j].call.time, h[i].call.time) &&
                        forall k :: i < k < j ==> !(h[k].emitted && h[k].call.subject == h[j].call.subject)
  {
    var s := h[j].call.subject;
    if !h[j].emitted {
      LatestIsInHistory(h[..j], s);
      var i :| 0 <= i < j && h[..j][i] == Entry(Latest(h[..j], s).value, true) && h[..j][i].call.subject == s &&
               forall k :: i < k < j ==> !(h[..j][k].emitted && h[..j][k].call.subject == s);
      assert h[i] == h[..j][i];
      assert forall k :: i < k < j ==> h[k] == h[..j][k];
    }
    if i :| 0 <= i < j && h[i].emitted && h[i].call.subject == s &&
            h[i].call.notice == h[j].call.notice && !Expired(ttl, h[j].call.time, h[i].call.time) &&
            forall k :: i < k < j ==> !(h[k].emitted && h[k].call.subject == s)
    {
      LatestAt(h, s, i, j);
    }
  }

  lemma {:induction false} LatestAt(h: seq<Entry>, s: Subject, i: nat, j: nat)
    requires i < j <= |h| && h[i].emitted && h[i].call.subject == s
    requires forall k :: i < k < j ==> !(h[k].emitted && h[k].call.subject == s)
    ensures Latest(h[..j], s) == Some(h[i].call)
    decreases j
  {
    assert h[..j][..j - 1] == h[..j - 1];
    if i < j - 1 {
      LatestAt(h, s, i, j - 1);
    }
  }

  /** What eviction may do: nothing within the bound, otherwise delete exactly the
      excess, and never an entry younger than a survivor. */
  ghost predicate Evicted(before: map<string, Signature>, after: map<string, Signature>, maxEntries: int) {
    && after.Keys <= before.Keys
    && (forall k :: k in after ==> after[k] == before[k])
    && |after| == (if maxEntries > 0 && |before| > maxEntries then maxEntries else |before|)
    && (forall kept, gone :: kept in after && gone in before && gone !in after ==>
          before[gone].recordedAt <= before[kept].recordedAt)
  }

  class EventStateCache {
    var last: map<string, Signature>
    const ttl: int
    const maxEntries: int
    ghost var history: seq<Entry>
    ghost var clock: int  // the latest time seen

    constructor (ttl: int, maxEntries: int)
      ensures this.ttl == ttl && this.maxEntries == maxEntries
      ensures Valid() && Complete() && history == []
    {
      this.ttl := ttl;
      this.maxEntries := maxEntries;
      last, history, clock := map[], [], 0;
    }

    /** Every cached entry is the latest emission about its subject. */
    ghost predicate Valid()
      reads this
    {
      && AllWellFormed(history)
      && (maxEntries > 0 ==> |last| <= maxEntries)
      && CachesLatest(last, history)
    }

    /** Every emission that is not expired is cached, and all past decisions were exact. */
    ghost predicate Complete()
      reads this
    {
      && AllCached(last, history, ttl, clock)
      && Timely(history, clock)
      && Faithful(history, ttl)
    }

    predicate IsExpired(now: int, recordedAt: int) {
      if ttl <= 0 then false else now - recordedAt > ttl
    }

    method Compact(now: int)
      modifies this`last
      ensures last == map k | k in old(last) && !Expired(ttl, now, old(last)[k].recordedAt) :: old(last)[k]
    {
      if ttl <= 0 {
        return;
      }
      var keys := last.Keys;
      while keys != {}
        invariant keys <= old(last).Keys
        invariant forall k :: k in last <==> k in old(last) && (k in keys || !Expired(ttl, now, old(last)[k].recordedAt))
        invariant forall k :: k in last ==> last[k] == old(last)[k]
      {
        var key :| key in keys;
        keys := keys - {key};
        if IsExpired(now, last[key].recordedAt) {
          last := last - {key};
        }
      }
    }

    /** One scan of the map for the oldest entry. */
    method FindOldest() returns (oldestKey: string)
      requires "" !in last
      ensures oldestKey == "" <==> last == map[]
      ensures oldestKey != "" ==>
                oldestKey in last && forall k :: k in last ==> last[oldestKey].recordedAt <= last[k].recordedAt
    {
      oldestKey := "";
      var oldestAt := 0;
      var keys := last.Keys;
      while keys != {}
        invariant keys <= last.Keys
        invariant oldestKey == "" <==> keys == last.Keys
        invariant oldestKey != "" ==> oldestKey in last && oldestAt == last[oldestKey].recordedAt
        invariant oldestKey != "" ==> forall k :: k in last && k !in keys ==> oldestAt <= last[k].recordedAt
      {
        var key :| key in keys;
        keys := keys - {key};
        if oldestKey == "" || last[key].recordedAt < oldestAt {
          oldestKey := key;
          oldestAt := last[key].recordedAt;
        }
      }
      if last == map[] {
        assert last.Keys == {};
      }
    }

    method EnforceSize()
      requires "" !in last
      modifies this`last
      ensures Evicted(old(last), last, maxEntries)
    {
      if maxEntries <= 0 || |last| <= maxEntries {
        return;
      }
      var excess := |last| - maxEntries;
      for i := 0 to excess
        invariant last.Keys <= old(last).Keys && |last| == |old(last)| - i
        invariant forall k :: k in last ==> last[k] == old(last)[k]
        invariant forall kept, gone :: kept in last && gone in old(last) && gone !in last ==>
                    old(last)[gone].recordedAt <= old(last)[kept].recordedAt
      {
        var oldestKey := FindOldest();
        if oldestKey == "" {
          return;
        }
        ghost var before := last;
        last := last - {oldestKey};
        assert last.Keys == before.Keys - {oldestKey};
      }
    }

    /** Stores the emission and enforces the bound. */
    method Record(c: Call)
      requires AllWellFormed(history) && WellFormed(c) && CachesLatest(last, history)
      modifies this`last
      ensures Evicted(old(last)[KeyOf(c.subject) := Signature(TextOf(c.notice), c.time)], last, maxEntries)
      ensures CachesLatest(last, history + [Entry(c, true)])
    {
      ghost var was := last;
      last := last[KeyOf(c.subject) := Signature(TextOf(c.notice), c.time)];
      FewerStillCache(was, last - {KeyOf(c.subject)}, history);
      RecordKeeps(last, history, c, true);
      NoEmptyKey(last, history + [Entry(c, true)]);
      ghost var before := last;
      EnforceSize();
      FewerStillCache(before, last, history + [Entry(c, true)]);
    }

    /** Compaction, lookup and, if need be, recording; the part of shouldEmit that changes the map. */
    method Decide(c: Call) returns (emit: bool)
      requires Valid() && WellFormed(c)
      modifies this`last
      ensures CachesLatest(last, history + [Entry(c, emit)])
      ensures maxEntries > 0 ==> |last| <= maxEntries
      ensures !emit ==> Repeats(history, c, ttl)
      ensures emit && old(AllCached(last, history, ttl, c.time)) ==> !Repeats(history, c, ttl)
      ensures maxEntries <= 0 ==>
                forall k :: k in old(last) && !Expired(ttl, c.time, old(last)[k].recordedAt) ==> k in last
      ensures emit && (maxEntries <= 0 || (forall k :: k in old(last) ==> old(last)[k].recordedAt < c.time)) ==>
                KeyOf(c.subject) in last && last[KeyOf(c.subject)] == Signature(TextOf(c.notice), c.time)
    {
      var key := KeyOf(c.subject);
      ghost var cached := last;
      Compact(c.time);
      FewerStillCache(cached, last, history);
      FewerEntries(cached, last);
      FreshIsCached(history, cached, c, ttl);
      if key in last {
        CachedUnderKey(last, history, c);
        if last[key].value == TextOf(c.notice) && !IsExpired(c.time, last[key].recordedAt) {
          RecordKeeps(last, history, c, false);
          return false;
        }
      }
      ghost var compacted := last;
      Record(c);
      NewestSurvives(compacted, last, key, Signature(TextOf(c.notice), c.time), maxEntries);
      return true;
    }

    /** shouldEmit. A suppressed call always repeats a fresh latest emission; without a
        size bound and with a clock that never goes back, that is exactly when a call is
        suppressed. The bound holds after every call, and with a strictly advancing
        clock the entry just recorded survives eviction. */
    method ShouldEmit(c: Call) returns (emit: bool)
      requires Valid() && WellFormed(c)
      modifies this
      ensures Valid() && history == old(history) + [Entry(c, emit)] && clock == c.time
      ensures !emit ==> Repeats(old(history), c, ttl)
      ensures maxEntries <= 0 && old(Complete()) && c.time >= old(clock) ==>
                Complete() && (emit <==> !Repeats(old(history), c, ttl))
      ensures maxEntries > 0 ==> |last| <= maxEntries
      ensures old(Timely(history, clock)) && c.time >= old(clock) ==> Timely(history, clock)
      ensures emit && (maxEntries <= 0 || (old(Timely(history, clock)) && old(clock) < c.time)) ==>
                KeyOf(c.subject) in last && last[KeyOf(c.subject)] == Signature(TextOf(c.notice), c.time)
    {
      ghost var cached := last;
      ghost var complete := maxEntries <= 0 && Complete() && c.time >= clock;
      if complete {
        AllCachedLater(last, history, ttl, clock, c.time);
      }
      if Timely(history, clock) {
        CachedTimes(cached, history, clock);
        TimelyAppend(history, Entry(c, true), clock);
        TimelyAppend(history, Entry(c, false), clock);
      }
      emit := Decide(c);
      if complete {
        FaithfulAppend(history, c, emit, ttl);
        CompleteKept(cached, last, history, c, emit, ttl);
      }
      WellFormedAppend(history, Entry(c, emit));
      history, clock := history + [Entry(c, emit)], c.time;
    }
  }

  /** Every emission that is not expired at the given time is cached. */
  ghost predicate AllCached(last: map<string, Signature>, h: seq<Entry>, ttl: int, now: int) {
    forall s :: Latest(h, s).Some? && KeyOf(s) !in last ==> Expired(ttl, now, Latest(h, s).value.time)
  }

  ghost predicate Timely(h: seq<Entry>, clock: int) {
    forall i :: 0 <= i < |h| ==> h[i].call.time <= clock
  }

  lemma AllCachedLater(last: map<string, Signature>, h: seq<Entry>, ttl: int, now: int, later: int)
    requires AllCached(last, h, ttl, now) && now <= later
    ensures AllCached(last, h, ttl, later)
  {
  }

  lemma TimelyAppend(h: seq<Entry>, e: Entry, clock: int)
    requires Timely(h, clock)
    ensures clock <= e.call.time ==> Timely(h + [e], e.call.time)
  {
  }

  lemma WellFormedAppend(h: seq<Entry>, e: Entry)
    requires AllWellFormed(h) && WellFormed(e.call)
    ensures AllWellFormed(h + [e])
  {
  }

  lemma FewerEntries(m: map<string, Signature>, fewer: map<string, Signature>)
    requires fewer.Keys <= m.Keys
    ensures |fewer| <= |m|
  {
    CardinalityMonotone(fewer.Keys, m.Keys);
  }

  lemma {:induction false} CardinalityMonotone(a: set<string>, b: set<string>)
    requires a <= b
    ensures |a| <= |b|
  {
    assert |b| == |a| + |b - a| by { assert b == a + (b - a); }
  }

  /** The newest entry is never the one evicted. */
  lemma NewestSurvives(m: map<string, Signature>, after: map<string, Signature>, key: string, s: Signature, maxEntries: int)
    requires Evicted(m[key := s], after, maxEntries)
    ensures maxEntries <= 0 || (forall k :: k in m ==> m[k].recordedAt < s.recordedAt) ==> key in after && after[key] == s
    ensures maxEntries <= 0 ==> after == m[key := s]
  {
    var before := m[key := s];
    if maxEntries <= 0 {
      SubsetOfSameSize(after.Keys, before.Keys);
    } else if forall k :: k in m ==> m[k].recordedAt < s.recordedAt {
      assert |after| > 0;
      var kept :| kept in after;
      assert kept != key ==> before[kept].recordedAt < before[key].recordedAt;
      assert key in after;
    }
  }

  lemma SubsetOfSameSize(a: set<string>, b: set<string>)
    requires a <= b && |a| == |b|
    ensures a == b
  {
    assert |b| == |a| + |b - a| by { assert b == a + (b - a); }
  }

  lemma CachedTimes(last: map<string, Signature>, h: seq<Entry>, clock: int)
    requires CachesLatest(last, h)
    requires Timely(h, clock)
    ensures forall k :: k in last ==> last[k].recordedAt <= clock
  {
    forall k | k in last ensures last[k].recordedAt <= clock {
      var s :| Caches(last, h, k, s);
      LatestIsInHistory(h, s);
    }
  }

  ghost predicate Caches(last: map<string, Signature>, h: seq<Entry>, k: string, s: Subject)
    requires k in last
  {
    k == KeyOf(s) && Latest(h, s).Some? &&
    last[k] == Signature(TextOf(Latest(h, s).value.notice), Latest(h, s).value.time)
  }

  ghost predicate CachesLatest(last: map<string, Signature>, h: seq<Entry>) {
    forall k :: k in last ==> exists s :: Caches(last, h, k, s)
  }

  lemma FewerStillCache(last: map<string, Signature>, fewer: map<string, Signature>, h: seq<Entry>)
    requires CachesLatest(last, h)
    requires forall k :: k in fewer ==> k in last && fewer[k] == last[k]
    ensures CachesLatest(fewer, h)
  {
    forall k | k in fewer ensures exists s :: Caches(fewer, h, k, s) {
      var s :| Caches(last, h, k, s);
      assert Caches(fewer, h, k, s);
    }
  }

  lemma LatestAppend(h: seq<Entry>, e: Entry, s: Subject)
    ensures Latest(h + [e], s) == if e.emitted && e.call.subject == s then Some(e.call) else Latest(h, s)
  {
    assert (h + [e])[..|h|] == h;
  }

  lemma {:induction false} LatestIsWellFormed(h: seq<Entry>, s: Subject)
    requires AllWellFormed(h) && Latest(h, s).Some?
    ensures WellFormed(Latest(h, s).value) && Latest(h, s).value.subject == s
  {
    LatestIsInHistory(h, s);
  }

  lemma NoEmptyKey(last: map<string, Signature>, h: seq<Entry>)
    requires CachesLatest(last, h)
    ensures "" !in last
  {
    forall k | k in last ensures |k| >= 2 {
      var s :| Caches(last, h, k, s);
    }
  }

  /** An entry under the call's key is about the call's subject, and carries its text
      exactly when the notices agree. */
  lemma CachedUnderKey(last: map<string, Signature>, h: seq<Entry>, c: Call)
    requires AllWellFormed(h) && CachesLatest(last, h) && WellFormed(c) && KeyOf(c.subject) in last
    ensures var e := Latest(h, c.subject);
            e.Some? && last[KeyOf(c.subject)].recordedAt == e.value.time &&
            (last[KeyOf(c.subject)].value == TextOf(c.notice) <==> e.value.notice == c.notice)
  {
    var s :| Caches(last, h, KeyOf(c.subject), s);
    LatestIsWellFormed(h, s);
    KeysAndTextsAreInjective(Latest(h, s).value, c);
  }

  /** When every unexpired emission is cached, a repeating call finds its entry. */
  lemma FreshIsCached(h: seq<Entry>, last: map<string, Signature>, c: Call, ttl: int)
    requires AllWellFormed(h) && CachesLatest(last, h) && WellFormed(c)
    ensures Repeats(h, c, ttl) && AllCached(last, h, ttl, c.time) ==>
              KeyOf(c.subject) in last && last[KeyOf(c.subject)].value == TextOf(c.notice) &&
              !Expired(ttl, c.time, last[KeyOf(c.subject)].recordedAt)
  {
    if KeyOf(c.subject) in last {
      CachedUnderKey(last, h, c);
    }
  }

  /** Recording a decision keeps the cache in step with the history. */
  lemma RecordKeeps(last: map<string, Signature>, h: seq<Entry>, c: Call, emit: bool)
    requires AllWellFormed(h) && WellFormed(c)
    requires CachesLatest(if emit then last - {KeyOf(c.subject)} else last, h)
    requires emit ==> KeyOf(c.subject) in last && last[KeyOf(c.subject)] == Signature(TextOf(c.notice), c.time)
    ensures CachesLatest(last, h + [Entry(c, emit)])
  {
    var t := h + [Entry(c, emit)];
    forall k | k in last ensures exists s :: Caches(last, t, k, s) {
      LatestAppend(h, Entry(c, emit), c.subject);
      if emit && k == KeyOf(c.subject) {
        assert Caches(last, t, k, c.subject);
      } else {
        var rest := if emit then last - {KeyOf(c.subject)} else last;
        assert k in rest && rest[k] == last[k];
        var s :| Caches(rest, h, k, s);
        LatestAppend(h, Entry(c, emit), s);
        assert Caches(last, t, k, s);
      }
    }
  }

  lemma FaithfulAppend(h: seq<Entry>, c: Call, emit: bool, ttl: int)
    requires Faithful(h, ttl) && (emit <==> !Repeats(h, c, ttl))
    ensures Faithful(h + [Entry(c, emit)], ttl)
  {
    var t := h + [Entry(c, emit)];
    assert t[..|h|] == h;
    forall i | 0 <= i < |t| ensures t[i].emitted <==> !Repeats(t[..i], t[i].call, ttl) {
      if i < |h| {
        assert t[..i] == h[..i];
      }
    }
  }

  /** After a call every unexpired emission is still cached. */
  lemma CompleteKept(cached: map<string, Signature>, last: map<string, Signature>, h: seq<Entry>, c: Call, emit: bool, ttl: int)
    requires AllWellFormed(h) && WellFormed(c) && CachesLatest(cached, h)
    requires AllCached(cached, h, ttl, c.time)
    requires forall k :: k in cached && !Expired(ttl, c.time, cached[k].recordedAt) ==> k in last
    requires emit ==> KeyOf(c.subject) in last
    ensures AllCached(last, h + [Entry(c, emit)], ttl, c.time)
  {
    forall s | Latest(h + [Entry(c, emit)], s).Some? && KeyOf(s) !in last
      ensures Expired(ttl, c.time, Latest(h + [Entry(c, emit)], s).value.time)
    {
      LatestAppend(h, Entry(c, emit), s);
      if KeyOf(s) in cached {
        LatestIsWellFormed(h, s);
        CachedUnderKey(cached, h, Latest(h, s).value);
      }
    }
  }
}
