/** What the timer store's helpers compute: who is armed, who is due, who may be forgotten. */
module TimerStore {
  import opened Basics
  import opened OrderedDicts
  import opened Schedules

  ghost predicate Keyed(store: Store) {
    store.Valid() && forall id :: id in store.entries ==> store.entries[id].id == id
  }

  ghost predicate DistinctIds(s: seq<Schedule>) {
    forall i, j :: 0 <= i < j < |s| ==> s[i].id != s[j].id
  }

  lemma {:induction false} ArmedExactly(order: seq<Id>, entries: map<Id, Schedule>)
    requires forall id :: id in entries ==> entries[id].id == id
    ensures forall t :: t in ArmedAmong(order, entries)
              <==> t.id in order && t.id in entries && entries[t.id] == t && t.status == ARMED
    ensures NoDup(order) ==> DistinctIds(ArmedAmong(order, entries))
  {
    if order != [] {
      ArmedExactly(order[1..], entries);
      assert order == [order[0]] + order[1..];
    }
  }

  lemma {:induction false} OnDeviceExactly(s: seq<Schedule>, device: Device)
    ensures forall t :: t in OnDevice(s, device) <==> t in s && t.device == device
    ensures DistinctIds(s) ==> DistinctIds(OnDevice(s, device))
  {
    if s != [] {
      OnDeviceExactly(s[1..], device);
      assert s == [s[0]] + s[1..];
      var rest := OnDevice(s[1..], device);
      assert forall i :: 0 <= i < |rest| ==> rest[i] in rest;
    }
  }

  lemma {:induction false} DueExactly(s: seq<Schedule>, now: Time)
    ensures forall t :: t in DueAmong(s, now) <==> t in s && t.dueAt <= now
    ensures DistinctIds(s) ==> DistinctIds(DueAmong(s, now))
  {
    if s != [] {
      DueExactly(s[1..], now);
      assert s == [s[0]] + s[1..];
      var rest := DueAmong(s[1..], now);
      assert forall i :: 0 <= i < |rest| ==> rest[i] in rest;
    }
  }

  ghost predicate SortedByDue(s: seq<Schedule>) {
    forall i, j :: 0 <= i < j < |s| ==> s[i].dueAt <= s[j].dueAt
  }

  lemma InsertContents(t: Schedule, s: seq<Schedule>)
    ensures forall x :: x in InsertByDue(t, s) <==> x == t || x in s
  {
    assert forall x :: x in InsertByDue(t, s) <==> x in multiset(InsertByDue(t, s));
  }

  lemma {:induction false} InsertSorted(t: Schedule, s: seq<Schedule>)
    requires SortedByDue(s)
    ensures SortedByDue(InsertByDue(t, s))
  {
    if s != [] && s[0].dueAt <= t.dueAt {
      InsertSorted(t, s[1..]);
      InsertContents(t, s[1..]);
      var rest := InsertByDue(t, s[1..]);
      assert forall i :: 0 <= i < |rest| ==> rest[i] in rest;
      assert forall x :: x in s[1..] ==> s[0].dueAt <= x.dueAt;
    }
  }

  lemma {:induction false} InsertDistinct(t: Schedule, s: seq<Schedule>)
    requires DistinctIds(s) && forall x :: x in s ==> x.id != t.id
    ensures DistinctIds(InsertByDue(t, s))
  {
    if s != [] && s[0].dueAt <= t.dueAt {
      InsertDistinct(t, s[1..]);
      InsertContents(t, s[1..]);
      var rest := InsertByDue(t, s[1..]);
      assert forall i :: 0 <= i < |rest| ==> rest[i] in rest;
    }
  }

  lemma SortContents(s: seq<Schedule>)
    ensures forall x :: x in SortByDue(s) <==> x in s
  {
    assert forall x :: x in SortByDue(s) <==> x in multiset(SortByDue(s));
  }

  lemma {:induction false} SortSorted(s: seq<Schedule>)
    ensures SortedByDue(SortByDue(s))
  {
    if s != [] {
      SortSorted(s[..|s| - 1]);
      InsertSorted(s[|s| - 1], SortByDue(s[..|s| - 1]));
    }
  }

  lemma {:induction false} SortDistinct(s: seq<Schedule>)
    requires DistinctIds(s)
    ensures DistinctIds(SortByDue(s))
  {
    if s != [] {
      SortDistinct(s[..|s| - 1]);
      SortContents(s[..|s| - 1]);
      InsertDistinct(s[|s| - 1], SortByDue(s[..|s| - 1]));
    }
  }

  /** `for_device` lists exactly the armed timers of the device, each once, soonest first. */
  lemma ForDeviceExactly(store: Store, device: Device)
    requires Keyed(store)
    ensures forall t :: t in ForDevice(store, device)
              <==> Armed(store, t.id) && store.entries[t.id] == t && t.device == device
    ensures DistinctIds(ForDevice(store, device)) && SortedByDue(ForDevice(store, device))
  {
    ArmedExactly(store.order, store.entries);
    OnDeviceExactly(ArmedAmong(store.order, store.entries), device);
    SortContents(OnDevice(ArmedAmong(store.order, store.entries), device));
    SortSorted(OnDevice(ArmedAmong(store.order, store.entries), device));
    SortDistinct(OnDevice(ArmedAmong(store.order, store.entries), device));
    assert forall id :: id in store.order <==> id in Elems(store.order);
  }

  /** The loop's snapshot is exactly the armed timers whose moment has come, each once. */
  lemma DueListExactly(s: Service)
    requires Keyed(s.schedules)
    ensures forall t :: t in Due(s)
              <==> Armed(s.schedules, t.id) && s.schedules.entries[t.id] == t && t.dueAt <= s.now
    ensures DistinctIds(Due(s))
  {
    ArmedExactly(s.schedules.order, s.schedules.entries);
    DueExactly(ArmedAmong(s.schedules.order, s.schedules.entries), s.now);
    assert forall id :: id in s.schedules.order <==> id in Elems(s.schedules.order);
  }

  /** Forgetting never touches an armed timer, keeps every survivor's record, never goes below the
      bound, and stops above it only when nothing settled is left. */
  lemma {:induction false} EvictExactly(store: Store)
    requires store.Valid()
    ensures var r := Evict(store);
            && r.Valid()
            && r.entries.Keys <= store.entries.Keys
            && (forall id :: id in r.entries ==> r.entries[id] == store.entries[id])
            && (forall id :: Armed(store, id) ==> id in r.entries)
            && (|r.order| > MAX_TRACKED ==> forall id :: id in r.entries ==> r.entries[id].status == ARMED)
            && |r.order| >= Min(|store.order|, MAX_TRACKED)
    decreases |store.order|
  {
    if |store.order| > MAX_TRACKED {
      assert forall id :: id in store.order <==> id in Elems(store.order);
      var oldest := OldestSettled(store.order, store.entries);
      if oldest.Some? {
        EvictExactly(store.Remove(oldest.value));
      } else {
        assert forall id :: id in store.entries ==> id in Elems(store.order);
      }
    }
  }

  /** `a` comes before `b`. */
  ghost predicate Before(order: seq<Id>, a: Id, b: Id) {
    exists i, j :: 0 <= i < j < |order| && order[i] == a && order[j] == b
  }

  /** The settled records forgotten are the oldest ones. */
  lemma {:induction false} EvictOldestFirst(store: Store, a: Id, b: Id)
    requires store.Valid() && Before(store.order, a, b)
    requires a in store.entries && store.entries[a].status != ARMED
    requires b in store.entries && store.entries[b].status != ARMED
    requires b !in Evict(store).entries
    ensures a !in Evict(store).entries
    decreases |store.order|
  {
    EvictExactly(store);
    var oldest := OldestSettled(store.order, store.entries);
    if |store.order| > MAX_TRACKED && oldest.Some? {
      var gone := oldest.value;
      assert gone in Elems(store.order);
      NotBeforeOldest(store.order, store.entries, a, b);
      EvictExactly(store.Remove(gone));
      if gone != a {
        WithoutBefore(store.order, gone, a, b);
        EvictOldestFirst(store.Remove(gone), a, b);
      }
    }
  }

  lemma {:induction false} NotBeforeOldest(order: seq<Id>, entries: map<Id, Schedule>, a: Id, b: Id)
    requires NoDup(order) && Before(order, a, b)
    requires a in entries && entries[a].status != ARMED
    ensures OldestSettled(order, entries) != Some(b)
  {
    var i, j :| 0 <= i < j < |order| && order[i] == a && order[j] == b;
    if i > 0 {
      assert order[1..][i - 1] == a && order[1..][j - 1] == b;
      NotBeforeOldest(order[1..], entries, a, b);
      assert order[0] != b;
    }
  }

  lemma {:induction false} WithoutBefore(order: seq<Id>, gone: Id, a: Id, b: Id)
    requires Before(order, a, b) && gone != a && gone != b
    ensures Before(Without(order, gone), a, b)
  {
    var i, j :| 0 <= i < j < |order| && order[i] == a && order[j] == b;
    assert order == order[..j] + order[j..];
    WithoutAppend(order[..j], order[j..], gone);
    assert order[..j][i] == a && order[j..][0] == b;
    OtherStays(order[..j], gone, a);
    OtherStays(order[j..], gone, b);
    ApartBefore(Without(order[..j], gone), Without(order[j..], gone), a, b);
  }

  lemma OtherStays(order: seq<Id>, gone: Id, a: Id)
    requires a in order && a != gone
    ensures a in Without(order, gone)
  {
    WithoutExactly(order, gone);
    assert a in Elems(Without(order, gone));
  }

  lemma ApartBefore(front: seq<Id>, back: seq<Id>, a: Id, b: Id)
    requires a in front && b in back
    ensures Before(front + back, a, b)
  {
    var p :| 0 <= p < |front| && front[p] == a;
    var q :| 0 <= q < |back| && back[q] == b;
    assert (front + back)[p] == a && (front + back)[|front| + q] == b;
  }

  // -- the order of firing

  ghost predicate Follows(order: seq<Id>, s: seq<Schedule>) {
    forall i, j :: 0 <= i < j < |s| ==> Before(order, s[i].id, s[j].id)
  }

  lemma BeforeCons(x: Id, order: seq<Id>, a: Id, b: Id)
    requires Before(order, a, b)
    ensures Before([x] + order, a, b)
  {
    var i, j :| 0 <= i < j < |order| && order[i] == a && order[j] == b;
    assert ([x] + order)[i + 1] == a && ([x] + order)[j + 1] == b;
  }

  lemma HeadBefore(order: seq<Id>, b: Id)
    requires order != [] && b in order[1..]
    ensures Before(order, order[0], b)
  {
    var j :| 0 <= j < |order[1..]| && order[1..][j] == b;
    assert order[j + 1] == b;
  }

  lemma {:induction false} ArmedInOrder(order: seq<Id>, entries: map<Id, Schedule>)
    requires forall id :: id in entries ==> entries[id].id == id
    ensures Follows(order, ArmedAmong(order, entries))
  {
    if order != [] {
      var all, rest := ArmedAmong(order, entries), ArmedAmong(order[1..], entries);
      ArmedInOrder(order[1..], entries);
      ArmedExactly(order[1..], entries);
      assert order == [order[0]] + order[1..];
      forall i, j | 0 <= i < j < |all| ensures Before(order, all[i].id, all[j].id) {
        var shift := |all| - |rest|;
        assert j >= shift ==> all[j] == rest[j - shift] && rest[j - shift] in rest;
        if i >= shift {
          assert all[i] == rest[i - shift];
          BeforeCons(order[0], order[1..], all[i].id, all[j].id);
        } else {
          HeadBefore(order, all[j].id);
        }
      }
    }
  }

  lemma {:induction false} DueInOrder(order: seq<Id>, s: seq<Schedule>, now: Time)
    requires Follows(order, s)
    ensures Follows(order, DueAmong(s, now))
  {
    if s != [] {
      assert forall i :: 0 <= i < |s[1..]| ==> s[1..][i] == s[i + 1];
      DueInOrder(order, s[1..], now);
      DueExactly(s[1..], now);
      var rest := DueAmong(s[1..], now);
      forall t | t in rest ensures Before(order, s[0].id, t.id) {
        var j :| 0 <= j < |s[1..]| && s[1..][j] == t;
        assert s[j + 1] == t;
      }
      assert forall j :: 0 <= j < |rest| ==> rest[j] in rest;
    }
  }

  /** The loop fires timers in the order they were asked for. */
  lemma DueFollowsStore(s: Service)
    requires Keyed(s.schedules)
    ensures Follows(s.schedules.order, Due(s))
  {
    ArmedInOrder(s.schedules.order, s.schedules.entries);
    DueInOrder(s.schedules.order, ArmedAmong(s.schedules.order, s.schedules.entries), s.now);
  }
}
