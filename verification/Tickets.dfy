/** Single-use WebSocket tickets in a bounded store (auth/tickets.py). Digests are taken to be distinct, so
    the ticket issued by operation number `i` of a history is simply called `i`. */
module Tickets {
  import opened Basics
  import opened OrderedDicts

  const MAX_OUTSTANDING: nat := 64

  type Principal = nat

  datatype Issued = Issued(principal: Principal, expiresAt: real)

  type Store = OrderedDict<nat, Issued>

  predicate Alive(e: map<nat, Issued>, id: nat, now: real) { id in e && now < e[id].expiresAt }

  function Unexpired(order: seq<nat>, e: map<nat, Issued>, now: real): seq<nat> {
    if order == [] then []
    else (if Alive(e, order[0], now) then [order[0]] else []) + Unexpired(order[1..], e, now)
  }

  lemma {:induction false} UnexpiredMembers(order: seq<nat>, e: map<nat, Issued>, now: real)
    ensures forall id :: id in Unexpired(order, e, now) <==> id in order && Alive(e, id, now)
    ensures |Unexpired(order, e, now)| <= |order|
  {
    if order != [] {
      UnexpiredMembers(order[1..], e, now);
      assert order == [order[0]] + order[1..];
    }
  }

  /** `_prune`. */
  function Pruned(d: Store, now: real): Store {
    OrderedDict(Unexpired(d.order, d.entries, now),
                map id | id in d.entries && Alive(d.entries, id, now) :: d.entries[id])
  }

  /** A pruned store with room made in it: the oldest goes if there are 64. */
  function Roomy(kept: Store): (r: Store)
    ensures forall id :: id in r.entries ==> id in kept.entries && r.entries[id] == kept.entries[id]
  {
    if |kept.entries| >= MAX_OUTSTANDING && kept.order != [] then kept.PopOldest() else kept
  }

  /** `issue`. */
  function Issue(ttl: real, d: Store, id: nat, principal: Principal, now: real): Store {
    var kept := Pruned(d, now);
    Roomy(kept).Put(id, Issued(principal, now + ttl))
  }

  datatype Outcome = Granted(principal: Principal) | Refused | ExpiredAfterAll

  /** What presenting a ticket leaves of a pruned store. */
  function Left(kept: Store, presented: Option<nat>): Store {
    if presented.Some? && presented.value in kept.entries then kept.Remove(presented.value) else kept
  }

  /** `redeem`; a missing or empty ticket is `None`. */
  function Redeem(d: Store, presented: Option<nat>, now: real): (Outcome, Store) {
    var kept := Pruned(d, now);
    (Judged(kept, presented, now), Left(kept, presented))
  }

  function Judged(kept: Store, presented: Option<nat>, now: real): Outcome {
    if presented.None? || presented.value !in kept.entries then Refused
    else if kept.entries[presented.value].expiresAt <= now then ExpiredAfterAll
    else Granted(kept.entries[presented.value].principal)
  }

  /** The second expiry check, after the ticket was removed, never fires. */
  lemma GuardIsUnreachable(d: Store, presented: Option<nat>, now: real)
    ensures Redeem(d, presented, now).0 != ExpiredAfterAll
    ensures Redeem(d, presented, now).0.Granted? ==>
              presented.Some? && presented.value !in Redeem(d, presented, now).1.entries
  {
  }

  // -- runs

  datatype Op = Ask(principal: Principal, now: real) | Present(ticket: Option<nat>, now: real)

  function After(ttl: real, d: Store, id: nat, op: Op): Store {
    match op
    case Ask(principal, now) => Issue(ttl, d, id, principal, now)
    case Present(ticket, now) => Redeem(d, ticket, now).1
  }

  function Run(ttl: real, h: seq<Op>): Store {
    if h == [] then OrderedDict([], map[]) else After(ttl, Run(ttl, h[..|h| - 1]), |h| - 1, h[|h| - 1])
  }

  ghost predicate Monotone(h: seq<Op>) {
    forall i, j :: 0 <= i < j < |h| ==> h[i].now <= h[j].now
  }

  // -- what should be in the store, said without it

  /** Operation `k` presents ticket `i` after it was issued. */
  predicate Presents(h: seq<Op>, i: nat, k: nat) {
    i < k < |h| && h[k].Present? && h[k].ticket == Some(i)
  }

  /** Ticket `i` was issued, has not been presented since, and has not expired at `now`. */
  ghost predicate Fresh(ttl: real, h: seq<Op>, i: nat, now: real) {
    && i < |h| && h[i].Ask? && now < h[i].now + ttl
    && forall k: nat :: !Presents(h, i, k)
  }

  /** The fresh tickets issued after `i`. */
  ghost function Newer(ttl: real, h: seq<Op>, i: nat, now: real): set<nat> {
    set m: nat | i < m < |h| && Fresh(ttl, h, m, now)
  }

  /** Operation `j` issues a ticket when 63 fresh tickets newer than `i` are out, which with `i` itself make
      the store full. */
  ghost predicate Pushes(ttl: real, h: seq<Op>, i: nat, j: nat) {
    i < j < |h| && h[j].Ask? && |Newer(ttl, h[..j], i, h[j].now)| >= MAX_OUTSTANDING - 1
  }

  ghost predicate NotPushedOut(ttl: real, h: seq<Op>, i: nat) {
    forall j: nat :: !Pushes(ttl, h, i, j)
  }

  ghost predicate Live(ttl: real, h: seq<Op>, i: nat, now: real) {
    Fresh(ttl, h, i, now) && NotPushedOut(ttl, h, i)
  }

  // -- the store is in issue order, within bounds, and holds exactly the live tickets

  ghost predicate Increasing(s: seq<nat>) {
    forall i, j :: 0 <= i < j < |s| ==> s[i] < s[j]
  }

  lemma {:induction false} UnexpiredIncreases(order: seq<nat>, e: map<nat, Issued>, now: real)
    requires Increasing(order)
    ensures Increasing(Unexpired(order, e, now))
  {
    if order != [] {
      UnexpiredIncreases(order[1..], e, now);
      UnexpiredMembers(order[1..], e, now);
      var rest := Unexpired(order[1..], e, now);
      forall p | 0 <= p < |rest| ensures order[0] < rest[p] {
        assert rest[p] in rest;
        var q :| 0 <= q < |order[1..]| && order[1..][q] == rest[p];
        assert order[q + 1] == rest[p];
      }
    }
  }

  lemma {:induction false} WithoutIncreases(s: seq<nat>, x: nat)
    requires Increasing(s)
    ensures Increasing(Without(s, x))
  {
    if s != [] {
      WithoutIncreases(s[1..], x);
      WithoutExactly(s[1..], x);
      var rest := Without(s[1..], x);
      forall p | 0 <= p < |rest| ensures s[0] < rest[p] {
        assert rest[p] in Elems(rest);
        var q :| 0 <= q < |s[1..]| && s[1..][q] == rest[p];
        assert s[q + 1] == rest[p];
      }
    }
  }

  ghost predicate Tidy(d: Store) { d.Valid() && Increasing(d.order) && |d.order| <= MAX_OUTSTANDING }

  ghost predicate Recorded(ttl: real, h: seq<Op>, d: Store) {
    forall id :: id in d.entries ==> id < |h| && h[id].Ask? && d.entries[id] == Issued(h[id].principal, h[id].now + ttl)
  }

  ghost predicate HoldsLive(ttl: real, h: seq<Op>, d: Store, now: real) {
    forall id: nat :: id in d.entries <==> Live(ttl, h, id, now)
  }

  /** The store after `h`, described. */
  ghost predicate Described(ttl: real, h: seq<Op>, d: Store) {
    Tidy(d) && Recorded(ttl, h, d) && HoldsLive(ttl, h, d, if h == [] then 0.0 else h[|h| - 1].now)
  }

  predicate NotBefore(h: seq<Op>, now: real) { h != [] ==> h[|h| - 1].now <= now }

  lemma OrderIsKeys(d: Store)
    requires d.Valid()
    ensures forall id: nat :: id in d.order <==> id in d.entries
  {
    forall id: nat ensures id in d.order <==> id in d.entries {
      assert id in d.order <==> id in Elems(d.order);
    }
  }

  lemma PruneTidy(d: Store, now: real)
    requires Tidy(d)
    ensures Tidy(Pruned(d, now))
  {
    UnexpiredIncreases(d.order, d.entries, now);
    UnexpiredMembers(d.order, d.entries, now);
    OrderIsKeys(d);
    var kept := Pruned(d, now);
    assert Elems(kept.order) == kept.entries.Keys;
  }

  /** A pruned store: in order, within bounds, and holding exactly the tickets live at `now`. */
  ghost predicate Kept(ttl: real, h: seq<Op>, d: Store, now: real) {
    Tidy(d) && Recorded(ttl, h, d) && HoldsLive(ttl, h, d, now)
  }

  lemma PruneKept(ttl: real, h: seq<Op>, d: Store, now: real)
    requires Described(ttl, h, d) && NotBefore(h, now)
    ensures Kept(ttl, h, Pruned(d, now), now)
  {
    PruneTidy(d, now);
    PruneHoldsLive(ttl, h, d, now);
  }

  /** Pruning at a later time leaves exactly the tickets live then. */
  lemma PruneHoldsLive(ttl: real, h: seq<Op>, d: Store, now: real)
    requires Described(ttl, h, d) && NotBefore(h, now)
    ensures HoldsLive(ttl, h, Pruned(d, now), now) && Recorded(ttl, h, Pruned(d, now))
  {
    forall id: nat ensures id in Pruned(d, now).entries <==> Live(ttl, h, id, now) {
      if h != [] && Live(ttl, h, id, now) { assert Live(ttl, h, id, h[|h| - 1].now); }
    }
  }

  lemma FreshStep(ttl: real, h: seq<Op>, op: Op, id: nat, now: real)
    requires id < |h|
    ensures Fresh(ttl, h + [op], id, now) <==> Fresh(ttl, h, id, now) && op != Present(Some(id), op.now)
  {
    var g := h + [op];
    assert g[id] == h[id] && g[|h|] == op;
    assert Presents(g, id, |h|) <==> op == Present(Some(id), op.now);
    forall k: nat | k != |h| ensures Presents(g, id, k) <==> Presents(h, id, k) {
      assert k < |h| ==> g[k] == h[k];
    }
    assert !Presents(h, id, |h|);
  }

  lemma PushedStep(ttl: real, h: seq<Op>, op: Op, id: nat)
    requires id < |h|
    ensures NotPushedOut(ttl, h + [op], id)
            <==> NotPushedOut(ttl, h, id) && (op.Ask? ==> |Newer(ttl, h, id, op.now)| < MAX_OUTSTANDING - 1)
  {
    var g := h + [op];
    assert g[..|h|] == h && g[|h|] == op;
    forall j: nat | j < |h| ensures Pushes(ttl, g, id, j) <==> Pushes(ttl, h, id, j) {
      assert g[..j] == h[..j] && g[j] == h[j];
    }
    assert Pushes(ttl, g, id, |h|) <==> op.Ask? && |Newer(ttl, h, id, op.now)| >= MAX_OUTSTANDING - 1;
  }

  lemma LiveStep(ttl: real, h: seq<Op>, op: Op, id: nat)
    requires id < |h|
    ensures Live(ttl, h + [op], id, op.now)
            <==> && Live(ttl, h, id, op.now) && op != Present(Some(id), op.now)
                 && (op.Ask? ==> |Newer(ttl, h, id, op.now)| < MAX_OUTSTANDING - 1)
  {
    FreshStep(ttl, h, op, id, op.now);
    PushedStep(ttl, h, op, id);
  }

  /** While `i` is live, everything fresh and newer is live too: tickets go oldest first. */
  lemma NewerAreLive(ttl: real, h: seq<Op>, i: nat, m: nat, now: real)
    requires NotPushedOut(ttl, h, i) && i < m && Fresh(ttl, h, m, now)
    ensures Live(ttl, h, m, now)
  {
    forall j: nat ensures !Pushes(ttl, h, m, j) {
      if Pushes(ttl, h, m, j) {
        SubsetCard(Newer(ttl, h[..j], m, h[j].now), Newer(ttl, h[..j], i, h[j].now));
        assert Pushes(ttl, h, i, j);
      }
    }
  }

  /** In a pruned store, the tickets behind position `p` are exactly the fresh ones newer than it. */
  lemma NewerAreBehind(ttl: real, h: seq<Op>, kept: Store, now: real, p: nat)
    requires Tidy(kept) && p < |kept.order| && HoldsLive(ttl, h, kept, now)
    ensures |Newer(ttl, h, kept.order[p], now)| == |kept.order| - p - 1
  {
    var behind, i := kept.order[p + 1..], kept.order[p];
    OrderIsKeys(kept);
    assert i in kept.order;
    forall m | m in Newer(ttl, h, i, now) ensures m in Elems(behind) {
      NewerAreLive(ttl, h, i, m, now);
      assert m in kept.order;
      var q :| 0 <= q < |kept.order| && kept.order[q] == m;
      assert behind[q - p - 1] == m;
    }
    forall m | m in Elems(behind) ensures m in Newer(ttl, h, i, now) {
      var q :| 0 <= q < |behind| && behind[q] == m;
      assert kept.order[p + 1 + q] == m && m in kept.order;
    }
    assert Newer(ttl, h, i, now) == Elems(behind);
    NoDupCard(behind);
  }

  lemma RoomyTidy(kept: Store)
    requires Tidy(kept)
    ensures Tidy(Roomy(kept)) && |Roomy(kept).order| < MAX_OUTSTANDING
    ensures forall id :: id in Roomy(kept).entries <==>
              (id in kept.entries && (|kept.order| >= MAX_OUTSTANDING ==> id != kept.order[0]))
  {
    SizeIsOrder(kept);
  }

  /** Exactly the ticket that is dropped stops being live when another one is issued. */
  lemma RoomMadeForNewest(ttl: real, h: seq<Op>, kept: Store, op: Op, id: nat)
    requires Tidy(kept) && HoldsLive(ttl, h, kept, op.now) && op.Ask? && id in kept.entries && id < |h|
    ensures id in Roomy(kept).entries <==> Live(ttl, h + [op], id, op.now)
  {
    RoomyTidy(kept);
    OrderIsKeys(kept);
    var p :| 0 <= p < |kept.order| && kept.order[p] == id;
    NewerAreBehind(ttl, h, kept, op.now, p);
    LiveStep(ttl, h, op, id);
  }

  lemma AskLive(ttl: real, h: seq<Op>, kept: Store, op: Op, issued: Issued, id: nat)
    requires ttl > 0.0 && Tidy(kept) && HoldsLive(ttl, h, kept, op.now) && op.Ask?
    ensures id in Roomy(kept).Put(|h|, issued).entries <==> Live(ttl, h + [op], id, op.now)
  {
    RoomyTidy(kept);
    if id >= |h| {
      assert id in kept.entries ==> Live(ttl, h, id, op.now);
    } else if id in kept.entries {
      RoomMadeForNewest(ttl, h, kept, op, id);
    } else {
      LiveStep(ttl, h, op, id);
    }
  }

  lemma AskRecorded(ttl: real, h: seq<Op>, d: Store, op: Op)
    requires Recorded(ttl, h, d) && op.Ask?
    ensures Recorded(ttl, h + [op], d.Put(|h|, Issued(op.principal, op.now + ttl)))
  {
    forall id | id in d.entries ensures id < |h| && (h + [op])[id] == h[id] {}
  }

  lemma AskDescribed(ttl: real, h: seq<Op>, d: Store, op: Op)
    requires ttl > 0.0 && Described(ttl, h, d) && op.Ask? && NotBefore(h, op.now)
    ensures Described(ttl, h + [op], Issue(ttl, d, |h|, op.principal, op.now))
  {
    PruneKept(ttl, h, d, op.now);
    FromKept(ttl, h, Pruned(d, op.now), op);
  }

  lemma FromKept(ttl: real, h: seq<Op>, kept: Store, op: Op)
    requires ttl > 0.0 && Kept(ttl, h, kept, op.now) && op.Ask?
    ensures Described(ttl, h + [op], Roomy(kept).Put(|h|, Issued(op.principal, op.now + ttl)))
  {
    var issued := Issued(op.principal, op.now + ttl);
    RoomyTidy(kept);
    AskRecorded(ttl, h, Roomy(kept), op);
    AddedTidy(Roomy(kept), |h|, issued);
    forall id: nat ensures id in Roomy(kept).Put(|h|, issued).entries <==> Live(ttl, h + [op], id, op.now) {
      AskLive(ttl, h, kept, op, issued, id);
    }
  }

  /** The newest ticket goes last. */
  lemma AddedTidy(d: Store, id: nat, issued: Issued)
    requires Tidy(d) && |d.order| < MAX_OUTSTANDING && forall k :: k in d.entries ==> k < id
    ensures Tidy(d.Put(id, issued))
  {
    OrderIsKeys(d);
    forall p | 0 <= p < |d.order| ensures d.order[p] < id {
      assert d.order[p] in d.order;
    }
  }

  lemma PresentLive(ttl: real, h: seq<Op>, kept: Store, op: Op, id: nat)
    requires ttl > 0.0 && HoldsLive(ttl, h, kept, op.now) && op.Present?
    ensures Live(ttl, h + [op], id, op.now) <==> id in kept.entries && op.ticket != Some(id)
  {
    if id < |h| {
      LiveStep(ttl, h, op, id);
    } else {
      assert id in kept.entries ==> Live(ttl, h, id, op.now);
    }
  }

  lemma PresentDescribed(ttl: real, h: seq<Op>, d: Store, op: Op)
    requires ttl > 0.0 && Described(ttl, h, d) && op.Present? && NotBefore(h, op.now)
    ensures Described(ttl, h + [op], Redeem(d, op.ticket, op.now).1)
  {
    var kept := Pruned(d, op.now);
    PruneTidy(d, op.now);
    PruneHoldsLive(ttl, h, d, op.now);
    forall id: nat ensures Live(ttl, h + [op], id, op.now) <==> id in kept.entries && op.ticket != Some(id) {
      PresentLive(ttl, h, kept, op, id);
    }
    RemovedDescribed(ttl, h, kept, op);
  }

  lemma RemovedDescribed(ttl: real, h: seq<Op>, kept: Store, op: Op)
    requires Tidy(kept) && Recorded(ttl, h, kept) && op.Present?
    requires forall id: nat :: Live(ttl, h + [op], id, op.now) <==> id in kept.entries && op.ticket != Some(id)
    ensures Described(ttl, h + [op], Left(kept, op.ticket))
  {
    LeftTidy(kept, op.ticket);
    forall id | id in kept.entries ensures id < |h| && (h + [op])[id] == h[id] {}
  }

  lemma LeftTidy(kept: Store, presented: Option<nat>)
    requires Tidy(kept)
    ensures Tidy(Left(kept, presented))
    ensures forall id :: id in Left(kept, presented).entries <==> id in kept.entries && presented != Some(id)
  {
    if presented.Some? {
      WithoutIncreases(kept.order, presented.value);
      WithoutExactly(kept.order, presented.value);
    }
  }

  lemma AfterDescribed(ttl: real, h: seq<Op>, d: Store, op: Op)
    requires ttl > 0.0 && Described(ttl, h, d) && NotBefore(h, op.now)
    ensures Described(ttl, h + [op], After(ttl, d, |h|, op))
  {
    if op.Ask? { AskDescribed(ttl, h, d, op); } else { PresentDescribed(ttl, h, d, op); }
  }

  lemma RunStep(ttl: real, h: seq<Op>, op: Op)
    ensures Run(ttl, h + [op]) == After(ttl, Run(ttl, h), |h|, op)
    ensures Monotone(h + [op]) ==> Monotone(h) && NotBefore(h, op.now)
  {
    var g := h + [op];
    assert g[..|h|] == h && g[|h|] == op;
    assert forall i :: 0 <= i < |h| ==> g[i] == h[i];
  }

  /** After every run with a monotone clock the store holds exactly the live tickets, oldest first, and never
      more than 64 of them. */
  lemma {:induction false} StoreIsLive(ttl: real, h: seq<Op>)
    requires ttl > 0.0 && Monotone(h)
    ensures Described(ttl, h, Run(ttl, h))
  {
    if h == [] {
    } else {
      var before, op := h[..|h| - 1], h[|h| - 1];
      assert before + [op] == h;
      RunStep(ttl, before, op);
      StoreIsLive(ttl, before);
      AfterDescribed(ttl, before, Run(ttl, before), op);
    }
  }

  // -- the laws

  /** A ticket is accepted if and only if it was issued, is presented for the first time, has not expired and
      was not pushed out; and it then yields the principal it was issued for. */
  lemma AcceptedIffLive(ttl: real, h: seq<Op>, ticket: nat, now: real)
    requires ttl > 0.0 && Monotone(h + [Present(Some(ticket), now)])
    ensures var outcome := Redeem(Run(ttl, h), Some(ticket), now).0;
            if Live(ttl, h, ticket, now) then outcome == Granted(h[ticket].principal) else outcome == Refused
    ensures Redeem(Run(ttl, h), None, now).0 == Refused
    ensures |Run(ttl, h).entries| <= MAX_OUTSTANDING
  {
    RunStep(ttl, h, Present(Some(ticket), now));
    StoreIsLive(ttl, h);
    PruneHoldsLive(ttl, h, Run(ttl, h), now);
    SizeIsOrder(Run(ttl, h));
  }

  /** The answer operation `j` of `h` got. */
  ghost predicate GrantedAt(ttl: real, h: seq<Op>, j: nat, ticket: nat) {
    j < |h| && h[j] == Present(Some(ticket), h[j].now) && Redeem(Run(ttl, h[..j]), Some(ticket), h[j].now).0.Granted?
  }

  /** Single use: over any run, no ticket is accepted twice. */
  lemma SingleUse(ttl: real, h: seq<Op>, j: nat, k: nat, ticket: nat)
    requires ttl > 0.0 && Monotone(h) && j <= k
    requires GrantedAt(ttl, h, j, ticket) && GrantedAt(ttl, h, k, ticket)
    ensures j == k
  {
    PrefixMonotone(h, j);
    PrefixMonotone(h, k);
    if j < k {
      AcceptedIffLive(ttl, h[..j], ticket, h[j].now);
      NoLongerFresh(ttl, h, ticket, j, k, h[k].now);
      AcceptedIffLive(ttl, h[..k], ticket, h[k].now);
    }
  }

  lemma NoLongerFresh(ttl: real, h: seq<Op>, ticket: nat, j: nat, k: nat, now: real)
    requires ticket < j < k <= |h| && h[j] == Present(Some(ticket), h[j].now)
    ensures !Fresh(ttl, h[..k], ticket, now)
  {
    assert Presents(h[..k], ticket, j);
  }

  lemma PrefixMonotone(h: seq<Op>, j: nat)
    requires Monotone(h) && j < |h|
    ensures Monotone(h[..j] + [h[j]])
  {
    assert h[..j] + [h[j]] == h[..j + 1];
  }

  // -- the object

  class TicketStore {
    const ttl: real
    var tickets: Store

    constructor (ttl: real)
      ensures this.ttl == ttl && tickets == Run(ttl, [])
    {
      this.ttl := ttl;
      tickets := OrderedDict([], map[]);
    }

    /** `_prune`: collect the expired keys, then delete them. */
    method Prune(now: real)
      requires tickets.Valid()
      modifies this
      ensures tickets == Pruned(old(tickets), now) && tickets.Valid()
    {
      ghost var d := tickets;
      var kept, expired := [], {};
      for p := 0 to |tickets.order|
        invariant tickets == d
        invariant kept == Unexpired(d.order[..p], d.entries, now)
        invariant forall id :: id in expired <==> id in d.order[..p] && !Alive(d.entries, id, now)
      {
        var id := tickets.order[p];
        UnexpiredAppend(d.order[..p], d.entries, now, id);
        assert d.order[..p + 1] == d.order[..p] + [id];
        assert id in Elems(d.order);
        if tickets.entries[id].expiresAt <= now {
          expired := expired + {id};
        } else {
          kept := kept + [id];
        }
      }
      assert d.order[..|d.order|] == d.order;
      PrunedValid(d, now);
      OrderIsKeys(d);
      assert d.entries - expired == Pruned(d, now).entries;
      tickets := OrderedDict(kept, tickets.entries - expired);
    }

    method IssueTicket(id: nat, principal: Principal, now: real)
      requires tickets.Valid() && id !in tickets.entries
      modifies this
      ensures tickets == Issue(ttl, old(tickets), id, principal, now) && tickets.Valid()
    {
      Prune(now);
      SizeIsOrder(tickets);
      if |tickets.entries| >= MAX_OUTSTANDING {
        tickets := tickets.PopOldest();
      }
      tickets := tickets.Put(id, Issued(principal, now + ttl));
    }

    /** `redeem`: every candidate is compared, whatever was found. */
    method RedeemTicket(presented: Option<nat>, now: real) returns (r: Outcome)
      requires tickets.Valid()
      modifies this
      ensures (r, tickets) == Redeem(old(tickets), presented, now) && tickets.Valid()
    {
      Prune(now);
      r := TakeOut(presented, now);
    }

    method TakeOut(presented: Option<nat>, now: real) returns (r: Outcome)
      requires tickets.Valid()
      modifies this
      ensures r == Judged(old(tickets), presented, now) && tickets == Left(old(tickets), presented) && tickets.Valid()
    {
      ghost var kept := tickets;
      var found: Option<nat> := None;
      for p := 0 to |tickets.order|
        invariant found.Some? <==> presented.Some? && presented.value in tickets.order[..p]
        invariant found.Some? ==> found == presented
        invariant tickets == kept
      {
        assert tickets.order[..p + 1] == tickets.order[..p] + [tickets.order[p]];
        if presented == Some(tickets.order[p]) {
          found := presented;
        }
      }
      assert tickets.order[..|tickets.order|] == tickets.order;
      OrderIsKeys(tickets);
      if found.None? {
        return Refused;
      }
      var issued := tickets.entries[found.value];
      tickets := tickets.Remove(found.value);
      r := if issued.expiresAt <= now then ExpiredAfterAll else Granted(issued.principal);
    }
  }

  lemma {:induction false} UnexpiredAppend(order: seq<nat>, e: map<nat, Issued>, now: real, id: nat)
    ensures Unexpired(order + [id], e, now) == Unexpired(order, e, now) + if Alive(e, id, now) then [id] else []
  {
    if order != [] {
      var all := order + [id];
      assert all[1..] == order[1..] + [id] && all[0] == order[0];
      UnexpiredAppend(order[1..], e, now, id);
    }
  }

  lemma {:induction false} UnexpiredNoDup(order: seq<nat>, e: map<nat, Issued>, now: real)
    requires NoDup(order)
    ensures NoDup(Unexpired(order, e, now))
  {
    if order != [] {
      UnexpiredNoDup(order[1..], e, now);
      UnexpiredMembers(order[1..], e, now);
      assert forall p :: 0 < p < |order| ==> order[0] != order[p];
      assert order[0] !in order[1..];
      var rest := Unexpired(order[1..], e, now);
      assert forall p :: 0 <= p < |rest| ==> rest[p] in rest;
    }
  }

  lemma PrunedValid(d: Store, now: real)
    requires d.Valid()
    ensures Pruned(d, now).Valid()
  {
    UnexpiredNoDup(d.order, d.entries, now);
    UnexpiredMembers(d.order, d.entries, now);
    OrderIsKeys(d);
  }
}
