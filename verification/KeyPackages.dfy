/** The bounded key-package registry: one package per user, least recently stored goes first,
    and a fetched package is gone. */
module KeyPackages {
  import opened BigEndian
  import opened Results

  datatype Package = Package(bytes: seq<Byte>, hashRef: seq<Byte>)

  // A stored entry; the stamp is the number of the store call that made it.
  datatype Entry = Entry(package: Package, stamp: nat)

  datatype StoreResult = Success | Evicted | Full

  datatype Packages = Packages(entries: map<U64, Entry>, order: seq<U64>, capacity: nat, counter: nat)

  function Empty(capacity: nat): Packages { Packages(map[], [], capacity, 0) }

  /** The queue without one user (`retain`). */
  function Without(order: seq<U64>, user: U64): seq<U64> {
    if order == [] then []
    else
      var rest := Without(order[..|order| - 1], user);
      if order[|order| - 1] == user then rest else rest + [order[|order| - 1]]
  }

  function Stored(p: Packages, user: U64, package: Package): (Packages, StoreResult) {
    var entry := Entry(package, p.counter);
    var p1 := p.(counter := p.counter + 1);
    if user in p.entries then
      (p1.(entries := p.entries[user := entry], order := Without(p.order, user) + [user]), Success)
    else if |p.entries| < p.capacity then
      (p1.(entries := p.entries[user := entry], order := p.order + [user]), Success)
    else if p.order == [] then (p1, Full)
    else
      (p1.(entries := (p.entries - {p.order[0]})[user := entry], order := p.order[1..] + [user]), Evicted)
  }

  function AfterTake(p: Packages, user: U64): (Packages, Option<Entry>) {
    if user !in p.entries then (p, None)
    else (p.(entries := p.entries - {user}, order := Without(p.order, user)), Some(p.entries[user]))
  }

  class KeyPackageRegistry {
    var entries: map<U64, Entry>
    var order: seq<U64>
    var capacity: nat
    var counter: nat

    ghost function View(): Packages
      reads this
    {
      Packages(entries, order, capacity, counter)
    }

    constructor WithCapacity(capacity: nat)
      ensures View() == Empty(capacity)
    {
      this.entries, this.order, this.capacity, this.counter := map[], [], capacity, 0;
    }

    method Retain(user: U64)
      modifies `order
      ensures order == Without(old(order), user)
    {
      var kept: seq<U64> := [];
      for i := 0 to |order|
        invariant order == old(order) && kept == Without(order[..i], user)
      {
        assert order[..i + 1][..i] == order[..i];
        if order[i] != user {
          kept := kept + [order[i]];
        }
      }
      assert order[..|order|] == order;
      order := kept;
    }

    method Store(user: U64, package: Package) returns (r: StoreResult)
      modifies this
      ensures (View(), r) == Stored(old(View()), user, package)
    {
      var entry := Entry(package, counter);
      counter := counter + 1;
      var isNew := user !in entries;
      if !isNew {
        Retain(user);
      }
      if isNew && |entries| >= capacity {
        if order == [] {
          return Full;
        }
        var oldest := order[0];
        order := order[1..];
        entries := entries - {oldest};
        r := Evicted;
      } else {
        r := Success;
      }
      entries := entries[user := entry];
      order := order + [user];
    }

    method Take(user: U64) returns (r: Option<Entry>)
      modifies this
      ensures (View(), r) == AfterTake(old(View()), user)
    {
      if user !in entries {
        return None;
      }
      r := Some(entries[user]);
      entries := entries - {user};
      Retain(user);
    }
  }

  // ---- invariant ----

  /** The queue lists exactly the stored users, oldest stamp first (hence each once), no stamp
      is from the future, and the registry is within capacity. */
  ghost predicate Valid(p: Packages) {
    && Ascending(p.order, p.entries)
    && (forall u | u in p.entries :: u in p.order && p.entries[u].stamp < p.counter)
    && |p.entries| <= p.capacity
  }

  ghost predicate Ascending(order: seq<U64>, stamps: map<U64, Entry>) {
    && (forall i | 0 <= i < |order| :: order[i] in stamps)
    && (forall i, j | 0 <= i < j < |order| :: stamps[order[i]].stamp < stamps[order[j]].stamp)
  }

  lemma {:induction false} WithoutElements(order: seq<U64>, user: U64)
    ensures forall u :: u in Without(order, user) <==> u in order && u != user
    decreases |order|
  {
    if order != [] {
      var init := order[..|order| - 1];
      WithoutElements(init, user);
      assert order == init + [order[|order| - 1]];
    }
  }

  lemma {:induction false} WithoutAscending(order: seq<U64>, user: U64, stamps: map<U64, Entry>)
    requires Ascending(order, stamps)
    ensures Ascending(Without(order, user), stamps)
    decreases |order|
  {
    if order != [] {
      var init, last := order[..|order| - 1], order[|order| - 1];
      assert order == init + [last];
      WithoutAscending(init, user, stamps);
      WithoutElements(init, user);
      var rest := Without(init, user);
      forall i | 0 <= i < |rest| ensures stamps[rest[i]].stamp < stamps[last].stamp {
        assert rest[i] in init;
      }
    }
  }

  lemma TakeKeepsValid(p: Packages, user: U64)
    requires Valid(p)
    ensures Valid(AfterTake(p, user).0)
  {
    if user in p.entries {
      WithoutElements(p.order, user);
      WithoutAscending(p.order, user, p.entries);
      RemoveSize(p.entries, user);
      var order := Without(p.order, user);
      forall i | 0 <= i < |order| ensures order[i] in p.entries && order[i] != user {
        assert order[i] in order;
      }
    }
  }

  lemma RemoveSize(m: map<U64, Entry>, user: U64)
    requires user in m
    ensures |m - {user}| == |m| - 1
  {
    assert (m - {user}).Keys == m.Keys - {user};
    assert |m.Keys - {user}| == |m.Keys| - 1;
  }

  /** Putting a user at the back with the newest stamp keeps the queue in order. */
  lemma PushBack(p: Packages, order: seq<U64>, user: U64, package: Package)
    requires user !in order && Ascending(order, p.entries)
    requires forall u | u in p.entries :: p.entries[u].stamp < p.counter
    ensures Ascending(order + [user], p.entries[user := Entry(package, p.counter)])
  {
    assert forall i | 0 <= i < |order| :: order[i] in order;
  }

  lemma StoreKeepsValid(p: Packages, user: U64, package: Package)
    requires Valid(p)
    ensures Valid(Stored(p, user, package).0)
  {
    if user in p.entries {
      RestoreKeepsValid(p, user, package);
    } else if |p.entries| < p.capacity {
      AddKeepsValid(p, user, package);
    } else if p.order != [] {
      EvictKeepsValid(p, user, package);
    }
  }

  lemma RestoreKeepsValid(p: Packages, user: U64, package: Package)
    requires Valid(p) && user in p.entries
    ensures Valid(Packages(p.entries[user := Entry(package, p.counter)], Without(p.order, user) + [user],
                           p.capacity, p.counter + 1))
  {
    var entries := p.entries[user := Entry(package, p.counter)];
    WithoutElements(p.order, user);
    WithoutAscending(p.order, user, p.entries);
    PushBack(p, Without(p.order, user), user, package);
    assert entries.Keys == p.entries.Keys;
    assert |entries| == |entries.Keys| == |p.entries.Keys| == |p.entries|;
  }

  lemma AddKeepsValid(p: Packages, user: U64, package: Package)
    requires Valid(p) && user !in p.entries && |p.entries| < p.capacity
    ensures Valid(Packages(p.entries[user := Entry(package, p.counter)], p.order + [user], p.capacity, p.counter + 1))
  {
    var entries := p.entries[user := Entry(package, p.counter)];
    assert user !in p.order;
    PushBack(p, p.order, user, package);
    assert entries.Keys == p.entries.Keys + {user};
    assert |entries| == |entries.Keys| == |p.entries.Keys| + 1 == |p.entries| + 1;
  }

  predicate Oldest(p: Packages, user: U64) {
    user in p.entries && forall u | u in p.entries && u != user :: p.entries[user].stamp < p.entries[u].stamp
  }

  /** The front of the queue is the least recently stored user; the queue behind it lists the rest. */
  lemma PopFront(p: Packages)
    requires Valid(p) && p.order != []
    ensures var oldest := p.order[0];
            && Oldest(p, oldest) && Ascending(p.order[1..], p.entries - {oldest})
            && (forall u | u in p.entries && u != oldest :: u in p.order[1..])
  {
    var oldest, rest := p.order[0], p.order[1..];
    assert oldest in p.entries;
    forall u | u in p.entries && u != oldest ensures u in rest && p.entries[oldest].stamp < p.entries[u].stamp {
      var i :| 0 <= i < |p.order| && p.order[i] == u;
      assert rest[i - 1] == u;
    }
    RestAscending(p);
  }

  lemma RestAscending(p: Packages)
    requires Valid(p) && p.order != []
    ensures Ascending(p.order[1..], p.entries - {p.order[0]})
  {
    var rest := p.order[1..];
    forall i | 0 <= i < |rest| ensures rest[i] in p.entries && rest[i] != p.order[0] {
      assert p.entries[p.order[0]].stamp < p.entries[p.order[i + 1]].stamp;
    }
    forall i, j | 0 <= i < j < |rest| ensures p.entries[rest[i]].stamp < p.entries[rest[j]].stamp {
      assert p.entries[p.order[i + 1]].stamp < p.entries[p.order[j + 1]].stamp;
    }
  }

  lemma EvictKeepsValid(p: Packages, user: U64, package: Package)
    requires Valid(p) && user !in p.entries && p.order != []
    ensures var oldest := p.order[0];
            Valid(Packages((p.entries - {oldest})[user := Entry(package, p.counter)], p.order[1..] + [user],
                           p.capacity, p.counter + 1))
  {
    PopFront(p);
    var oldest := p.order[0];
    var q := p.(entries := p.entries - {oldest}, order := p.order[1..]);
    RemoveSize(p.entries, oldest);
    assert user !in q.order;
    assert Valid(q);
    AddKeepsValid(q, user, package);
  }

  /** What a store does to the others: nothing, except that a new user finding the registry full
      displaces exactly the user stored least recently; and it is refused only at capacity zero. */
  lemma StoreEffect(p: Packages, user: U64, package: Package)
    requires Valid(p)
    ensures var (p', r) := Stored(p, user, package);
            && (r == Full <==> p.capacity == 0)
            && (r == Evicted <==> user !in p.entries && |p.entries| == p.capacity > 0)
            && (r == Success ==> p'.entries == p.entries[user := Entry(package, p.counter)])
            && (r == Evicted ==>
                  (exists oldest: U64 :: Oldest(p, oldest)
                     && p'.entries == (p.entries - {oldest})[user := Entry(package, p.counter)]))
            && (r == Full ==> p'.entries == p.entries == map[])
  {
    hide Oldest, Ascending;
    if p.order != [] {
      PopFront(p);
      FrontIsStored(p);
    } else {
      assert p.entries == map[];
    }
  }

  lemma FrontIsStored(p: Packages)
    requires Valid(p) && p.order != []
    ensures 0 < |p.entries| <= p.capacity
  {
    assert p.order[0] in p.entries.Keys;
  }

  // ---- histories ----

  datatype Op = StoreOp(user: U64, package: Package) | TakeOp(user: U64)

  function Run(p: Packages, ops: seq<Op>): Packages
    decreases |ops|
  {
    if ops == [] then p
    else Run(if ops[0].StoreOp? then Stored(p, ops[0].user, ops[0].package).0 else AfterTake(p, ops[0].user).0, ops[1..])
  }

  function Taken(p: Packages, ops: seq<Op>): seq<(U64, Entry)>
    decreases |ops|
  {
    if ops == [] then []
    else if ops[0].StoreOp? then Taken(Stored(p, ops[0].user, ops[0].package).0, ops[1..])
    else
      var (p', r) := AfterTake(p, ops[0].user);
      (if r.Some? then [(ops[0].user, r.value)] else []) + Taken(p', ops[1..])
  }

  /** The store calls of a history, in order: call number `n` stamps its entry `n`. */
  function Stores(ops: seq<Op>): seq<(U64, Package)> {
    if ops == [] then []
    else (if ops[0].StoreOp? then [(ops[0].user, ops[0].package)] else []) + Stores(ops[1..])
  }

  /** Where an entry taken during a history came from: it was there at the start, or it is what
      the store call of its stamp put in for that very user. */
  predicate From(p: Packages, ops: seq<Op>, t: (U64, Entry)) {
    if t.1.stamp < p.counter then t.0 in p.entries && p.entries[t.0] == t.1
    else t.1.stamp - p.counter < |Stores(ops)| && Stores(ops)[t.1.stamp - p.counter] == (t.0, t.1.package)
  }

  lemma StampsDistinct(p: Packages, u: U64, v: U64)
    requires Valid(p) && u in p.entries && v in p.entries && p.entries[u].stamp == p.entries[v].stamp
    ensures u == v
  {
    var i :| 0 <= i < |p.order| && p.order[i] == u;
    var j :| 0 <= j < |p.order| && p.order[j] == v;
  }

  /** Over any history the registry stays valid, every taken package is one that was stored for
      that user, and no stored package is taken twice. */
  lemma {:induction false} TakenAtMostOnce(p: Packages, ops: seq<Op>)
    requires Valid(p)
    ensures Valid(Run(p, ops))
    ensures forall k | 0 <= k < |Taken(p, ops)| :: From(p, ops, Taken(p, ops)[k])
    ensures forall j, k | 0 <= j < k < |Taken(p, ops)| :: Taken(p, ops)[j].1.stamp != Taken(p, ops)[k].1.stamp
    decreases |ops|
  {
    hide Valid, Stored, AfterTake;
    if ops != [] {
      if ops[0].StoreOp? {
        var p' := Stored(p, ops[0].user, ops[0].package).0;
        StoreKeepsValid(p, ops[0].user, ops[0].package);
        TakenAtMostOnce(p', ops[1..]);
        forall k | 0 <= k < |Taken(p', ops[1..])| ensures From(p, ops, Taken(p', ops[1..])[k]) {
          FromBeforeStore(p, ops, Taken(p', ops[1..])[k]);
        }
      } else {
        var (p', r) := AfterTake(p, ops[0].user);
        TakeKeepsValid(p, ops[0].user);
        TakenAtMostOnce(p', ops[1..]);
        var rest := Taken(p', ops[1..]);
        forall k | 0 <= k < |rest|
          ensures From(p, ops, rest[k]) && (r.Some? ==> r.value.stamp != rest[k].1.stamp)
        {
          FromBeforeTake(p, ops, rest[k]);
        }
        TakenIsThere(p, ops[0].user);
        assert Taken(p, ops) == if r.Some? then [(ops[0].user, r.value)] + rest else rest;
      }
    }
  }

  lemma TakenIsThere(p: Packages, user: U64)
    requires Valid(p)
    ensures var r := AfterTake(p, user).1;
            r.Some? ==> user in p.entries && p.entries[user] == r.value && r.value.stamp < p.counter
  {
  }

  lemma FromBeforeStore(p: Packages, ops: seq<Op>, t: (U64, Entry))
    requires Valid(p) && ops != [] && ops[0].StoreOp?
    requires From(Stored(p, ops[0].user, ops[0].package).0, ops[1..], t)
    ensures From(p, ops, t)
  {
    var p' := Stored(p, ops[0].user, ops[0].package).0;
    assert Stores(ops) == [(ops[0].user, ops[0].package)] + Stores(ops[1..]);
    assert t.1.stamp < p'.counter ==> t.0 in p'.entries;
  }

  lemma FromBeforeTake(p: Packages, ops: seq<Op>, t: (U64, Entry))
    requires Valid(p) && ops != [] && ops[0].TakeOp?
    requires From(AfterTake(p, ops[0].user).0, ops[1..], t)
    ensures From(p, ops, t)
    ensures var r := AfterTake(p, ops[0].user).1; r.Some? ==> r.value.stamp != t.1.stamp
  {
    hide Valid, Without;
    assert Stores(ops) == Stores(ops[1..]);
    TakenIsThere(p, ops[0].user);
    if ops[0].user in p.entries && t.1.stamp == p.entries[ops[0].user].stamp && t.0 in p.entries && p.entries[t.0] == t.1 {
      StampsDistinct(p, t.0, ops[0].user);
    }
  }

  // ---- what a take finds ----

  /** Storing for a newcomer in a full registry pushes this user out. */
  predicate PushesOut(p: Packages, op: Op, user: U64) {
    op.StoreOp? && op.user !in p.entries && |p.entries| == p.capacity > 0 && Oldest(p, user)
  }

  /** What a history last left for a user: the package of its last store, stamped with the number
      of that store, unless it has been taken or pushed out since. */
  function LastLeft(p: Packages, ops: seq<Op>, user: U64): Option<Entry>
    decreases |ops|
  {
    if ops == [] then (if user in p.entries then Some(p.entries[user]) else None)
    else
      var past, op := ops[..|ops| - 1], ops[|ops| - 1];
      if op.TakeOp? then (if op.user == user then None else LastLeft(p, past, user))
      else if op.user == user then (if p.capacity == 0 then None else Some(Entry(op.package, p.counter + |Stores(past)|)))
      else if PushesOut(Run(p, past), op, user) then None
      else LastLeft(p, past, user)
  }

  function After(p: Packages, op: Op): Packages {
    if op.StoreOp? then Stored(p, op.user, op.package).0 else AfterTake(p, op.user).0
  }

  lemma {:induction false} RunLast(p: Packages, ops: seq<Op>)
    requires ops != []
    ensures Run(p, ops) == After(Run(p, ops[..|ops| - 1]), ops[|ops| - 1])
    decreases |ops|
  {
    hide Stored, AfterTake;
    if |ops| == 1 {
      assert ops[1..] == [] && ops[..0] == [];
    } else {
      RunLast(After(p, ops[0]), ops[1..]);
      assert ops[1..][..|ops| - 2] == ops[..|ops| - 1][1..];
    }
  }

  lemma {:induction false} RunCounts(p: Packages, ops: seq<Op>)
    ensures Run(p, ops).counter == p.counter + |Stores(ops)| && Run(p, ops).capacity == p.capacity
    decreases |ops|
  {
    if ops != [] {
      RunCounts(After(p, ops[0]), ops[1..]);
    }
  }

  lemma AfterLookup(p: Packages, op: Op, user: U64)
    requires Valid(p)
    ensures var p' := After(p, op);
            if op.TakeOp? && op.user == user then user !in p'.entries
            else if op.StoreOp? && op.user == user then
              (if p.capacity == 0 then user !in p'.entries
               else user in p'.entries && p'.entries[user] == Entry(op.package, p.counter))
            else if PushesOut(p, op, user) then user !in p'.entries
            else (user in p'.entries <==> user in p.entries) && (user in p.entries ==> p'.entries[user] == p.entries[user])
  {
    hide Without, Ascending;
    if op.StoreOp? {
      StoreEffect(p, op.user, op.package);
      OldestIsOne(p, user);
    }
  }

  lemma OldestIsOne(p: Packages, user: U64)
    ensures Oldest(p, user) ==> forall other: U64 :: Oldest(p, other) ==> other == user
  {
  }

  /** After any history a take finds a package for a user if and only if one was stored and has
      since been neither taken nor pushed out, and then it finds the last one stored. */
  lemma {:induction false} TakeFindsLastLeft(p: Packages, ops: seq<Op>, user: U64)
    requires Valid(p)
    ensures AfterTake(Run(p, ops), user).1 == LastLeft(p, ops, user)
    ensures user !in AfterTake(Run(p, ops), user).0.entries
    decreases |ops|
  {
    hide Valid, Stored, PushesOut, Stores, Run;
    LookupIsLastLeft(p, ops, user);
  }

  lemma NothingRuns(p: Packages)
    ensures Run(p, []) == p
  {
  }

  lemma {:induction false} LookupIsLastLeft(p: Packages, ops: seq<Op>, user: U64)
    requires Valid(p)
    ensures var q := Run(p, ops); LastLeft(p, ops, user) == if user in q.entries then Some(q.entries[user]) else None
    decreases |ops|
  {
    hide Valid, Run, After, Oldest, Stores;
    if ops == [] {
      NothingRuns(p);
    } else {
      var past, op := ops[..|ops| - 1], ops[|ops| - 1];
      LookupIsLastLeft(p, past, user);
      TakenAtMostOnce(p, past);
      RunLast(p, ops);
      RunCounts(p, past);
      AfterLookup(Run(p, past), op, user);
    }
  }
}
