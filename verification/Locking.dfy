// The advisory writer lock: one client's calls, and the protocol of many clients with a clock.
module Locking {
  import opened Types
  import opened Keys
  import opened Repositories

  const I64_MIN: int := -0x8000_0000_0000_0000
  const I64_MAX: int := 0x7FFF_FFFF_FFFF_FFFF

  // i64::saturating_sub
  function SaturatingSub(a: int, b: int): int {
    if a - b < I64_MIN then I64_MIN else if a - b > I64_MAX then I64_MAX else a - b
  }

  // The lock body: seconds since the epoch in decimal.
  datatype SecondsCodec = SecondsCodec(format: int -> Bytes, parse: Bytes -> Option<int>) {
    ghost predicate Lawful() {
      forall t :: parse(format(t)) == Some(t)
    }
  }

  // A body that does not parse counts as written now.
  function LockedAt(c: SecondsCodec, body: Bytes, now: int): int {
    match c.parse(body)
    case Some(t) => t
    case None => now
  }

  predicate IsStale(c: SecondsCodec, body: Bytes, now: int, staleAfter: int) {
    SaturatingSub(now, LockedAt(c, body, now)) > staleAfter
  }

  // A lock is stale exactly when more seconds than the limit have passed since the time in its body. A body that
  // does not parse counts as written now, and the greatest limit of all is never exceeded.
  lemma {:induction false} IsStaleIff(c: SecondsCodec, body: Bytes, now: int, staleAfter: int)
    requires I64_MIN <= now <= I64_MAX && I64_MIN <= staleAfter <= I64_MAX
    requires c.parse(body).Some? ==> I64_MIN <= c.parse(body).value <= I64_MAX
    ensures IsStale(c, body, now, staleAfter) <==>
            && staleAfter < 0x7FFF_FFFF_FFFF_FFFF
            && if c.parse(body).Some? then now - c.parse(body).value > staleAfter else 0 > staleAfter
  {
  }

  // Two stores that differ in the lock blob at most.
  ghost predicate SameButLock(a: Store, b: Store) {
    forall k :: k != LOCK_KEY ==> Get(a, k) == Get(b, k)
  }

  // RepositoryLock::acquire, undisturbed: an absent or stale lock is taken, any other is left alone.
  method Acquire(c: SecondsCodec, repository: Repository, now: int, staleAfter: int) returns (r: Result<()>)
    requires repository.Valid()
    modifies repository
    ensures repository.failures >= old(repository.failures)
    ensures repository.Valid() && old(repository.history) <= repository.history
    ensures forall i :: |old(repository.history)| <= i < |repository.history| ==>
              SameButLock(old(repository.blobs), repository.history[i])
    ensures r.Ok? ==>
              && (LOCK_KEY in old(repository.blobs) ==> IsStale(c, old(repository.blobs)[LOCK_KEY], now, staleAfter))
              && repository.blobs == old(repository.blobs)[LOCK_KEY := c.format(now)]
    ensures LOCK_KEY in old(repository.blobs) && !IsStale(c, old(repository.blobs)[LOCK_KEY], now, staleAfter) ==>
              r.Err? && repository.blobs == old(repository.blobs)
    ensures r.Err? ==>
              repository.blobs == old(repository.blobs) || repository.blobs == old(repository.blobs) - {LOCK_KEY}
    ensures r.Err? ==>
              || (r.error == Storage && repository.failures > old(repository.failures))
              || (&& r.error == RepositoryLocked
                  && LOCK_KEY in old(repository.blobs)
                  && !IsStale(c, old(repository.blobs)[LOCK_KEY], now, staleAfter))
  {
    var body := c.format(now);
    var written :- repository.PutBlobIfAbsent(LOCK_KEY, body);
    if written {
      return Ok(());
    }
    var existing := repository.GetBlob(LOCK_KEY);
    assert existing.Ok?;
    if SaturatingSub(now, LockedAt(c, existing.value, now)) <= staleAfter {
      return Err(RepositoryLocked);
    }
    var _ :- repository.DeleteBlob(LOCK_KEY);
    var again :- repository.PutBlobIfAbsent(LOCK_KEY, body);
    r := if again then Ok(()) else Err(RepositoryLocked);
  }

  // RepositoryLock::release
  method Release(repository: Repository) returns (r: Result<()>)
    requires repository.Valid()
    modifies repository
    ensures repository.failures >= old(repository.failures)
    ensures repository.Valid() && old(repository.history) <= repository.history
    ensures forall i :: |old(repository.history)| <= i < |repository.history| ==>
              SameButLock(old(repository.blobs), repository.history[i])
    ensures r.Ok? ==> repository.blobs == old(repository.blobs) - {LOCK_KEY}
    ensures r.Err? ==> r.error == Storage && repository.failures > old(repository.failures)
    ensures r.Err? ==> repository.blobs == old(repository.blobs)
  {
    r := repository.DeleteBlob(LOCK_KEY);
  }

  // ----- many clients -----

  // Where a client stands between two atomic repository operations. `now` was read before the first.
  datatype Client =
    | Idle
    | Started(now: int)
    | Contending(now: int)   // the lock key was present
    | TakingOver(now: int)   // the body it read was stale
    | Reclaiming(now: int)   // it has deleted the lock
    | Holding(since: int)

  datatype World = World(clock: int, lock: Option<Bytes>, clients: seq<Client>)

  datatype Event =
    | Tick(seconds: nat)
    | ReadClock(p: nat)
    | TryPut(p: nat)
    | Inspect(p: nat)
    | Evict(p: nat)
    | Retry(p: nat)
    | Unlock(p: nat)

  // The codec, and the staleness limit each client was configured with.
  datatype Config = Config(codec: SecondsCodec, staleAfter: seq<int>)

  predicate Enabled(w: World, e: Event) {
    match e
    case Tick(d) => w.clock + d <= I64_MAX
    case ReadClock(p) => p < |w.clients| && w.clients[p].Idle?
    case TryPut(p) => p < |w.clients| && w.clients[p].Started?
    case Inspect(p) => p < |w.clients| && w.clients[p].Contending?
    case Evict(p) => p < |w.clients| && w.clients[p].TakingOver?
    case Retry(p) => p < |w.clients| && w.clients[p].Reclaiming?
    case Unlock(p) => p < |w.clients| && w.clients[p].Holding?
  }

  function Next(cfg: Config, w: World, e: Event): World
    requires |cfg.staleAfter| == |w.clients| && Enabled(w, e)
  {
    match e
    case Tick(d) => w.(clock := w.clock + d)
    case ReadClock(p) => w.(clients := w.clients[p := Started(w.clock)])
    case TryPut(p) =>
      var now := w.clients[p].now;
      if w.lock == None then w.(lock := Some(cfg.codec.format(now)), clients := w.clients[p := Holding(now)])
      else w.(clients := w.clients[p := Contending(now)])
    case Inspect(p) =>
      // A missing blob or a live lock fails the acquire; a stale one is taken over.
      var now := w.clients[p].now;
      w.(clients := w.clients[p :=
        if w.lock.Some? && IsStale(cfg.codec, w.lock.value, now, cfg.staleAfter[p]) then TakingOver(now) else Idle])
    case Evict(p) => w.(lock := None, clients := w.clients[p := Reclaiming(w.clients[p].now)])
    case Retry(p) =>
      var now := w.clients[p].now;
      if w.lock == None then w.(lock := Some(cfg.codec.format(now)), clients := w.clients[p := Holding(now)])
      else w.(clients := w.clients[p := Idle])
    case Unlock(p) => w.(lock := None, clients := w.clients[p := Idle])
  }

  // One client's acquire with nobody in between.
  function AcquireAlone(cfg: Config, w: World, p: nat): World
    requires |cfg.staleAfter| == |w.clients| && p < |w.clients| && w.clients[p].Idle?
  {
    var tried := Next(cfg, Next(cfg, w, ReadClock(p)), TryPut(p));
    if tried.clients[p].Holding? then tried
    else
      var inspected := Next(cfg, tried, Inspect(p));
      if inspected.clients[p].Idle? then inspected
      else Next(cfg, Next(cfg, inspected, Evict(p)), Retry(p))
  }

  // Undisturbed, the steps of the protocol do what the sequential Acquire does.
  lemma {:induction false} AcquireAloneTakesTheLockIff(cfg: Config, w: World, p: nat)
    requires |cfg.staleAfter| == |w.clients| && p < |w.clients| && w.clients[p].Idle?
    ensures var v := AcquireAlone(cfg, w, p);
            if w.lock == None || IsStale(cfg.codec, w.lock.value, w.clock, cfg.staleAfter[p])
            then v == w.(lock := Some(cfg.codec.format(w.clock)), clients := w.clients[p := Holding(w.clock)])
            else v == w
  {
    var started := w.clients[p := Started(w.clock)];
    var contending := started[p := Contending(w.clock)];
    assert started[p := Holding(w.clock)] == w.clients[p := Holding(w.clock)];
    assert contending[p := Idle] == w.clients;
    var takingOver := contending[p := TakingOver(w.clock)];
    assert takingOver[p := Reclaiming(w.clock)][p := Holding(w.clock)] == w.clients[p := Holding(w.clock)];
  }

  ghost predicate Steps(cfg: Config, w: World, v: World) {
    |cfg.staleAfter| == |w.clients| && exists e :: Enabled(w, e) && v == Next(cfg, w, e)
  }

  // The worlds of a run, from an absent lock and idle clients.
  ghost predicate IsRun(cfg: Config, ws: seq<World>) {
    && cfg.codec.Lawful()
    && ws != []
    && ws[0].lock == None && 0 <= ws[0].clock <= I64_MAX && |ws[0].clients| == |cfg.staleAfter|
    && (forall p :: 0 <= p < |ws[0].clients| ==> ws[0].clients[p] == Idle)
    && forall i :: 0 < i < |ws| ==> Steps(cfg, ws[i - 1], ws[i])
  }

  ghost predicate NobodyTakesOver(w: World) {
    forall p :: 0 <= p < |w.clients| ==> !w.clients[p].TakingOver? && !w.clients[p].Reclaiming?
  }

  // Each holder is within every client's staleness limit of the timestamp it wrote.
  ghost predicate Timely(cfg: Config, w: World) {
    forall h, p :: 0 <= h < |w.clients| && 0 <= p < |cfg.staleAfter| && w.clients[h].Holding? ==>
      w.clock - w.clients[h].since <= cfg.staleAfter[p]
  }

  ghost predicate Holder(w: World, h: int) {
    0 <= h < |w.clients| && w.clients[h].Holding?
  }

  ghost predicate TwoHolders(w: World) {
    exists a, b :: Holder(w, a) && Holder(w, b) && a != b
  }

  // At most one holder, and a lock blob exactly while there is one, with that holder's timestamp.
  ghost predicate Exclusive(cfg: Config, w: World) {
    && !TwoHolders(w)
    && (w.lock.Some? <==> exists h :: Holder(w, h))
    && forall h :: Holder(w, h) ==> w.lock == Some(cfg.codec.format(w.clients[h].since))
  }

  ghost predicate ClocksInRange(w: World) {
    && 0 <= w.clock <= I64_MAX
    && forall p :: 0 <= p < |w.clients| ==>
         match w.clients[p]
         case Idle => true
         case Started(n) => 0 <= n <= w.clock
         case Contending(n) => 0 <= n <= w.clock
         case TakingOver(n) => 0 <= n <= w.clock
         case Reclaiming(n) => 0 <= n <= w.clock
         case Holding(n) => 0 <= n <= w.clock
  }

  lemma {:induction false} StepKeepsClocks(cfg: Config, w: World, v: World)
    requires Steps(cfg, w, v) && ClocksInRange(w)
    ensures ClocksInRange(v) && |v.clients| == |w.clients|
  {
  }

  lemma {:induction false} StepKeepsExclusive(cfg: Config, w: World, v: World)
    requires Steps(cfg, w, v) && Exclusive(cfg, w) && NobodyTakesOver(w)
    ensures Exclusive(cfg, v)
  {
    var e :| Enabled(w, e) && v == Next(cfg, w, e);
    if e.Tick? {
      assert forall p :: Holder(v, p) <==> Holder(w, p);
    } else {
      assert forall p :: p != e.p ==> (Holder(v, p) <==> Holder(w, p));
      assert e.TryPut? && w.lock == None ==> Holder(v, e.p);
      assert e.Unlock? ==> Holder(w, e.p);
      assert forall p :: Holder(v, p) && p != e.p ==> v.clients[p] == w.clients[p];
    }
  }

  // Client p read its clock more than its staleness limit after some holder wrote its timestamp.
  ghost predicate SeesOverstay(cfg: Config, w: World, p: nat)
    requires p < |w.clients| && |cfg.staleAfter| == |w.clients| && w.clients[p].Contending?
  {
    exists h :: Holder(w, h) && w.clients[p].now - w.clients[h].since > cfg.staleAfter[p]
  }

  // A takeover begins exactly when a contending client inspects the lock of a holder it sees overstay.
  lemma {:induction false} TakeoverBeginsIff(cfg: Config, w: World, e: Event)
    requires cfg.codec.Lawful() && |cfg.staleAfter| == |w.clients| && Enabled(w, e)
    requires Exclusive(cfg, w) && ClocksInRange(w) && NobodyTakesOver(w)
    ensures NobodyTakesOver(Next(cfg, w, e)) <==> !(e.Inspect? && SeesOverstay(cfg, w, e.p))
  {
    var v := Next(cfg, w, e);
    if e.Inspect? {
      assert forall p :: 0 <= p < |v.clients| && p != e.p ==> v.clients[p] == w.clients[p];
      if w.lock.Some? {
        var h :| Holder(w, h);
        assert cfg.codec.parse(w.lock.value) == Some(w.clients[h].since);
        assert forall g :: Holder(w, g) ==> g == h;
        assert 0 <= w.clients[h].since <= w.clock && 0 <= w.clients[e.p].now <= w.clock;
      }
      assert v.clients[e.p].TakingOver? <==> SeesOverstay(cfg, w, e.p);
    }
  }

  // The takeover of one client, with nobody in between: it can go on past its inspection exactly when it sees
  // the holder overstay, and then it always ends up holding the lock beside the holder.
  lemma {:induction false} TakeoverBreaksExclusionIff(cfg: Config, w: World, p: nat)
    requires cfg.codec.Lawful() && |cfg.staleAfter| == |w.clients| && p < |w.clients| && w.clients[p].Contending?
    requires Exclusive(cfg, w) && ClocksInRange(w) && NobodyTakesOver(w)
    ensures var inspected := Next(cfg, w, Inspect(p));
            && (Enabled(inspected, Evict(p)) <==> SeesOverstay(cfg, w, p))
            && (SeesOverstay(cfg, w, p) ==>
                  TwoHolders(Next(cfg, Next(cfg, inspected, Evict(p)), Retry(p))))
  {
    TakeoverBeginsIff(cfg, w, Inspect(p));
    var inspected := Next(cfg, w, Inspect(p));
    assert forall q :: 0 <= q < |w.clients| && q != p ==> inspected.clients[q] == w.clients[q];
    if SeesOverstay(cfg, w, p) {
      var h :| Holder(w, h) && w.clients[p].now - w.clients[h].since > cfg.staleAfter[p];
      var last := Next(cfg, Next(cfg, inspected, Evict(p)), Retry(p));
      assert Holder(last, h) && Holder(last, p) && h != p;
    }
  }

  // Two clients that see the same holder overstay can both take over: the second eviction removes the fresh lock
  // of the first, and both hold it, however long the first has left.
  lemma {:induction false} TwoTakeoversOverlap(cfg: Config, w: World, p: nat, q: nat)
    requires cfg.codec.Lawful() && |cfg.staleAfter| == |w.clients| && p < |w.clients| && q < |w.clients| && p != q
    requires w.clients[p].Contending? && w.clients[q].Contending?
    requires Exclusive(cfg, w) && ClocksInRange(w) && NobodyTakesOver(w)
    requires SeesOverstay(cfg, w, p) && SeesOverstay(cfg, w, q)
    ensures var both := Next(cfg, Next(cfg, w, Inspect(p)), Inspect(q));
            Enabled(both, Evict(p)) && Enabled(both, Evict(q))
    ensures var both := Next(cfg, Next(cfg, w, Inspect(p)), Inspect(q));
            var first := Next(cfg, Next(cfg, both, Evict(p)), Retry(p));
            var last := Next(cfg, Next(cfg, first, Evict(q)), Retry(q));
            Holder(last, p) && Holder(last, q)
  {
    var h :| Holder(w, h) && w.clients[p].now - w.clients[h].since > cfg.staleAfter[p];
    var g :| Holder(w, g) && w.clients[q].now - w.clients[g].since > cfg.staleAfter[q];
    assert g == h;
    assert cfg.codec.parse(w.lock.value) == Some(w.clients[h].since);
    assert 0 <= w.clients[h].since <= w.clock && 0 <= w.clients[p].now <= w.clock && 0 <= w.clients[q].now <= w.clock;
    var one := Next(cfg, w, Inspect(p));
    assert one.clients[p].TakingOver? && one.clients[q] == w.clients[q] && one.lock == w.lock;
    var both := Next(cfg, one, Inspect(q));
    assert both.clients[q].TakingOver? && both.clients[p].TakingOver?;
  }

  // Of two clients that have both evicted a lock, the one that puts second gives up.
  lemma {:induction false} SecondReclaimGivesUp(cfg: Config, w: World, p: nat, q: nat)
    requires |cfg.staleAfter| == |w.clients| && p < |w.clients| && q < |w.clients| && p != q
    requires w.clients[p].Reclaiming? && w.clients[q].Reclaiming? && w.lock == None
    ensures var last := Next(cfg, Next(cfg, w, Retry(p)), Retry(q));
            Holder(last, p) && last.clients[q] == Idle
            && last.lock == Some(cfg.codec.format(w.clients[p].now))
  {
  }

  // A client that finds the lock of a timely holder gives up: it is not stale to anybody.
  lemma {:induction false} TimelyLockIsNotStale(cfg: Config, w: World, v: World)
    requires cfg.codec.Lawful() && Steps(cfg, w, v) && Exclusive(cfg, w) && ClocksInRange(w)
    requires Timely(cfg, w) && NobodyTakesOver(w)
    ensures NobodyTakesOver(v)
  {
    var e :| Enabled(w, e) && v == Next(cfg, w, e);
    TakeoverBeginsIff(cfg, w, e);
  }

  // Exclusion can only be lost through a takeover: while no client takes over, at most one holds the
  // lock, and the blob exists exactly while one does.
  lemma {:induction false} ExclusionUntilTakeover(cfg: Config, ws: seq<World>, i: nat)
    requires IsRun(cfg, ws) && i < |ws|
    requires forall j :: 0 <= j < i ==> NobodyTakesOver(ws[j])
    ensures Exclusive(cfg, ws[i]) && ClocksInRange(ws[i]) && |ws[i].clients| == |cfg.staleAfter|
  {
    if i == 0 {
    } else {
      ExclusionUntilTakeover(cfg, ws, i - 1);
      assert Steps(cfg, ws[i - 1], ws[i]);
      StepKeepsClocks(cfg, ws[i - 1], ws[i]);
      StepKeepsExclusive(cfg, ws[i - 1], ws[i]);
    }
  }

  // Timed mutual exclusion: if every holder releases in time, the takeover branch is never entered and
  // the lock is exclusive throughout.
  lemma {:induction false} TimedMutualExclusion(cfg: Config, ws: seq<World>, i: nat)
    requires IsRun(cfg, ws) && i < |ws|
    requires forall j :: 0 <= j < i ==> Timely(cfg, ws[j])
    ensures forall j :: 0 <= j <= i ==> NobodyTakesOver(ws[j]) && Exclusive(cfg, ws[j])
  {
    if i > 0 {
      TimedMutualExclusion(cfg, ws, i - 1);
      ExclusionUntilTakeover(cfg, ws, i - 1);
      assert Steps(cfg, ws[i - 1], ws[i]);
      TimelyLockIsNotStale(cfg, ws[i - 1], ws[i]);
      StepKeepsExclusive(cfg, ws[i - 1], ws[i]);
    } else {
      ExclusionUntilTakeover(cfg, ws, 0);
    }
  }

  // Client h takes the lock and overstays; client p judges it stale and takes over.
  function OverstayedRun(cfg: Config, h: nat, p: nat, age: nat): seq<World>
    requires h < |cfg.staleAfter| && p < |cfg.staleAfter| && h != p
  {
    var idle: seq<Client> := seq(|cfg.staleAfter|, _ => Idle);
    var held, lock := idle[h := Holding(0)], Some(cfg.codec.format(0));
    [ World(0, None, idle),
      World(0, None, idle[h := Started(0)]),
      World(0, lock, held),
      World(age, lock, held),
      World(age, lock, held[p := Started(age)]),
      World(age, lock, held[p := Contending(age)]),
      World(age, lock, held[p := TakingOver(age)]),
      World(age, None, held[p := Reclaiming(age)]),
      World(age, Some(cfg.codec.format(age)), held[p := Holding(age)]) ]
  }

  function OverstayedEvents(h: nat, p: nat, age: nat): seq<Event> {
    [ReadClock(h), TryPut(h), Tick(age), ReadClock(p), TryPut(p), Inspect(p), Evict(p), Retry(p)]
  }

  lemma {:induction false} OverstayedStep(cfg: Config, h: nat, p: nat, age: nat, i: nat)
    requires cfg.codec.Lawful() && h < |cfg.staleAfter| && p < |cfg.staleAfter| && h != p
    requires cfg.staleAfter[p] < age <= I64_MAX && 0 < i < 9
    ensures Steps(cfg, OverstayedRun(cfg, h, p, age)[i - 1], OverstayedRun(cfg, h, p, age)[i])
  {
    var ws, e := OverstayedRun(cfg, h, p, age), OverstayedEvents(h, p, age)[i - 1];
    assert cfg.codec.parse(cfg.codec.format(0)) == Some(0);
    assert Enabled(ws[i - 1], e);
    var next := Next(cfg, ws[i - 1], e);
    assert ws[i].clients == next.clients;
    assert ws[i] == next;
  }

  // Without the hypothesis exclusion fails: whoever the holder and the contender, and whatever the other limits.
  lemma {:induction false} OverstayingAdmitsTwoHolders(cfg: Config, h: nat, p: nat, age: nat)
    requires cfg.codec.Lawful() && h < |cfg.staleAfter| && p < |cfg.staleAfter| && h != p
    requires cfg.staleAfter[p] < age <= I64_MAX
    ensures IsRun(cfg, OverstayedRun(cfg, h, p, age)) && TwoHolders(OverstayedRun(cfg, h, p, age)[8])
  {
    var ws := OverstayedRun(cfg, h, p, age);
    forall i | 0 < i < |ws| ensures Steps(cfg, ws[i - 1], ws[i]) {
      OverstayedStep(cfg, h, p, age, i);
    }
    assert Holder(ws[8], h) && Holder(ws[8], p);
  }

  // In every run, at every moment, at most one client holds the lock.
  ghost predicate AlwaysExclusive(cfg: Config) {
    forall ws: seq<World>, i :: IsRun(cfg, ws) && 0 <= i < |ws| ==> !TwoHolders(ws[i])
  }

  // A single client has nobody to take the lock from.
  lemma {:induction false} SingleClientIsExclusive(cfg: Config, ws: seq<World>, i: nat)
    requires IsRun(cfg, ws) && i < |ws| && |cfg.staleAfter| <= 1
    ensures forall j :: 0 <= j <= i ==> NobodyTakesOver(ws[j])
  {
    if i == 0 {
    } else {
      SingleClientIsExclusive(cfg, ws, i - 1);
      ExclusionUntilTakeover(cfg, ws, i - 1);
      assert Steps(cfg, ws[i - 1], ws[i]);
      var e :| Enabled(ws[i - 1], e) && ws[i] == Next(cfg, ws[i - 1], e);
      TakeoverBeginsIff(cfg, ws[i - 1], e);
    }
  }

  // A limit that no age can exceed keeps every holder timely.
  lemma {:induction false} EndlessLimitsAreExclusive(cfg: Config, ws: seq<World>, i: nat)
    requires IsRun(cfg, ws) && i < |ws|
    requires forall p :: 0 <= p < |cfg.staleAfter| ==> cfg.staleAfter[p] >= I64_MAX
    ensures forall j :: 0 <= j <= i ==> NobodyTakesOver(ws[j])
  {
    if i == 0 {
    } else {
      EndlessLimitsAreExclusive(cfg, ws, i - 1);
      ExclusionUntilTakeover(cfg, ws, i - 1);
      assert Steps(cfg, ws[i - 1], ws[i]);
      assert Timely(cfg, ws[i - 1]);
      TimelyLockIsNotStale(cfg, ws[i - 1], ws[i]);
    }
  }

  // The lock alone, without holders that keep time, guarantees exclusion exactly when there is nobody to contend
  // with or no lock can ever become stale.
  lemma {:induction false} LockIsExclusiveIff(cfg: Config)
    requires cfg.codec.Lawful()
    ensures AlwaysExclusive(cfg) <==>
            |cfg.staleAfter| <= 1 || forall p :: 0 <= p < |cfg.staleAfter| ==> cfg.staleAfter[p] >= I64_MAX
  {
    if |cfg.staleAfter| > 1 && exists p :: 0 <= p < |cfg.staleAfter| && cfg.staleAfter[p] < I64_MAX {
      var p :| 0 <= p < |cfg.staleAfter| && cfg.staleAfter[p] < I64_MAX;
      var h := if p == 0 then 1 else 0;
      OverstayingAdmitsTwoHolders(cfg, h, p, I64_MAX);
      var ws := OverstayedRun(cfg, h, p, I64_MAX);
      assert IsRun(cfg, ws) && TwoHolders(ws[8]);
      assert !AlwaysExclusive(cfg);
    } else {
      forall ws: seq<World>, i | IsRun(cfg, ws) && 0 <= i < |ws| ensures !TwoHolders(ws[i]) {
        if |cfg.staleAfter| <= 1 {
          SingleClientIsExclusive(cfg, ws, i);
        } else {
          EndlessLimitsAreExclusive(cfg, ws, i);
        }
        ExclusionUntilTakeover(cfg, ws, i);
      }
    }
  }
}
