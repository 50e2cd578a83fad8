// Many processes on one repository: while every holder of the lock releases it in time, their interleaved calls are
// a run of calls one after the other.
module Interleaving {
  import opened Types
  import opened Keys
  import opened Locking
  import opened Operations
  import opened Histories
  import opened RunTheorems

  // The lock with the clients around it, and the blobs beside the lock blob.
  datatype Joint = Joint(world: World, data: Store)

  function Blobs(w: Joint): Store {
    if w.world.lock.Some? then w.data[LOCK_KEY := w.world.lock.value] else w.data - {LOCK_KEY}
  }

  // One atomic step: of the clock or the lock protocol, or a repository operation of a client that holds the lock.
  ghost predicate JointStep(cfg: Config, v: Joint, w: Joint, actor: Option<nat>) {
    && Steps(cfg, v.world, w.world)
    && match actor
       case None => w.data == v.data
       case Some(p) => Holder(v.world, p) && Holder(w.world, p)
  }

  function Worlds(ws: seq<Joint>): seq<World> {
    seq(|ws|, i requires 0 <= i < |ws| => ws[i].world)
  }

  // An interleaving of any number of clients; `actors` says whose repository operation a step is, if it is one.
  ghost predicate JointRun(cfg: Config, ws: seq<Joint>, actors: seq<Option<nat>>) {
    && |ws| == |actors| + 1 && IsRun(cfg, Worlds(ws))
    && forall i :: 0 <= i < |actors| ==> JointStep(cfg, ws[i], ws[i + 1], actors[i])
  }

  // A hold of the lock by one client, from the first place at which it holds the lock to the last.
  datatype Hold = Hold(client: nat, from: nat, to: nat)

  ghost predicate Holds(ws: seq<Joint>, h: Hold) {
    && 0 < h.from <= h.to < |ws| && !Holder(ws[h.from - 1].world, h.client)
    && forall k :: h.from <= k <= h.to ==> Holder(ws[k].world, h.client)
  }

  // It has come to its end before place n.
  ghost predicate Released(ws: seq<Joint>, h: Hold, n: nat) {
    Holds(ws, h) && h.to < n < |ws| && !Holder(ws[h.to + 1].world, h.client)
  }

  // Nobody else touches the repository in between.
  ghost predicate Undisturbed(actors: seq<Option<nat>>, h: Hold) {
    forall k :: h.from <= k < h.to && k < |actors| && actors[k].Some? ==> actors[k].value == h.client
  }

  // What a client calls once it holds the lock, how that ends, and which snapshots it is meant to keep.
  datatype Call = Call(op: Operation, outcome: Outcome, kept: set<Uuid>)

  // The call of each client for each place at which it may take the lock.
  type Calls = (nat, nat) -> Call

  ghost predicate IsCall(c: Codec, call: Call, before: Store, after: Store) {
    && call.outcome != NotStarted && Admissible(call.op, before)
    && Acts(c, call.op, call.outcome, before, after, call.kept)
  }

  // Every call keeps its sequential contract if its client is left alone from taking the lock to releasing it.
  ghost predicate ClientsMakeCalls(c: Codec, ws: seq<Joint>, actors: seq<Option<nat>>, calls: Calls) {
    forall h, n :: Released(ws, h, n) && Undisturbed(actors, h) ==>
      IsCall(c, calls(h.client, h.from), Blobs(ws[h.from]), Blobs(ws[h.to]))
  }

  ghost predicate NobodyHolds(w: World) {
    forall p :: !Holder(w, p)
  }

  // ----- the holds of a run, and the calls made in them -----

  ghost predicate InLockOrder(holds: seq<Hold>) {
    forall a, b :: 0 <= a < b < |holds| ==> holds[a].to < holds[b].from
  }

  ghost predicate Covers(holds: seq<Hold>, p: int, k: int) {
    exists a :: 0 <= a < |holds| && holds[a].client == p && holds[a].from <= k <= holds[a].to
  }

  // These are all the holds of the lock before place n, one after the other.
  ghost predicate HoldsBefore(ws: seq<Joint>, holds: seq<Hold>, n: nat) {
    && n < |ws| && InLockOrder(holds)
    && (forall a :: 0 <= a < |holds| ==> Released(ws, holds[a], n))
    && forall k, p :: 0 <= k < n && Holder(ws[k].world, p) ==> Covers(holds, p, k)
  }

  // The calls made in these holds, as calls made one after the other.
  function StepAt(ws: seq<Joint>, calls: Calls, h: Hold): StepOf {
    var call := calls(h.client, h.from);
    if h.from <= h.to < |ws| then StepOf(call.op, call.outcome, Blobs(ws[h.from]), Blobs(ws[h.to]), call.kept)
    else StepOf(call.op, call.outcome, map[], map[], call.kept)
  }

  function StepsOf(ws: seq<Joint>, calls: Calls, holds: seq<Hold>): seq<StepOf> {
    seq(|holds|, a requires 0 <= a < |holds| => StepAt(ws, calls, holds[a]))
  }

  // The repository at the start and after each of these holds.
  function StoresOf(ws: seq<Joint>, holds: seq<Hold>): seq<Store>
    requires ws != []
  {
    if holds == [] then [Blobs(ws[0])]
    else
      var last := holds[|holds| - 1];
      StoresOf(ws, holds[..|holds| - 1]) + [if last.to + 1 < |ws| then Blobs(ws[last.to + 1]) else map[]]
  }

  lemma {:induction false} HoldHasStart(cfg: Config, ws: seq<Joint>, actors: seq<Option<nat>>, p: nat, j: nat)
    returns (i: nat)
    requires JointRun(cfg, ws, actors) && j < |ws| && Holder(ws[j].world, p)
    ensures Holds(ws, Hold(p, i, j))
  {
    assert j > 0 by {
      assert Worlds(ws)[0].clients[p] == Idle || j > 0;
    }
    if !Holder(ws[j - 1].world, p) {
      i := j;
    } else {
      i := HoldHasStart(cfg, ws, actors, p, j - 1);
    }
  }

  // A step in which a client takes the lock is no repository operation, and nobody held the lock before it.
  lemma {:induction false} TakingTheLock(cfg: Config, v: Joint, w: Joint, actor: Option<nat>, p: nat)
    requires JointStep(cfg, v, w, actor) && Exclusive(cfg, w.world) && Exclusive(cfg, v.world)
    requires NobodyTakesOver(v.world) && !Holder(v.world, p) && Holder(w.world, p)
    ensures NobodyHolds(v.world) && w.data == v.data
  {
    var e :| Enabled(v.world, e) && w.world == Next(cfg, v.world, e);
    assert e.TryPut? && e.p == p && v.world.lock == None;
  }

  lemma {:induction false} OnlyTheHolderActs(cfg: Config, ws: seq<Joint>, actors: seq<Option<nat>>, h: Hold)
    requires JointRun(cfg, ws, actors) && Holds(ws, h)
    requires forall k :: h.from <= k < h.to ==> !TwoHolders(ws[k].world)
    ensures Undisturbed(actors, h)
  {
    forall k | h.from <= k < h.to && k < |actors| && actors[k].Some? ensures actors[k].value == h.client {
      assert JointStep(cfg, ws[k], ws[k + 1], actors[k]);
      assert Holder(ws[k].world, actors[k].value) && Holder(ws[k].world, h.client);
    }
  }

  // A step at whose end nobody holds the lock touches nothing else.
  lemma {:induction false} NobodyLeftNothingTouched(cfg: Config, v: Joint, w: Joint, actor: Option<nat>)
    requires JointStep(cfg, v, w, actor) && NobodyHolds(w.world)
    ensures w.data == v.data && SameButLock(Blobs(v), Blobs(w))
  {
  }

  // At every place before n the lock is exclusive.
  ghost predicate ExclusiveBefore(cfg: Config, ws: seq<Joint>, n: nat) {
    n < |ws| && forall k :: 0 <= k <= n ==> NobodyTakesOver(ws[k].world) && Exclusive(cfg, ws[k].world)
  }

  lemma {:induction false} HoldBegins(cfg: Config, ws: seq<Joint>, actors: seq<Option<nat>>, h: Hold, n: nat)
    requires JointRun(cfg, ws, actors) && ExclusiveBefore(cfg, ws, n) && Released(ws, h, n)
    ensures NobodyHolds(ws[h.from - 1].world) && ws[h.from].data == ws[h.from - 1].data
  {
    var i := h.from;
    assert JointStep(cfg, ws[i - 1], ws[i], actors[i - 1]);
    TakingTheLock(cfg, ws[i - 1], ws[i], actors[i - 1], h.client);
  }

  lemma {:induction false} CallIsAStep(c: Codec, call: Call, before: Store, locked: Store, held: Store, after: Store)
    requires IsCall(c, call, locked, held) && SameButLock(before, locked) && SameButLock(held, after)
    ensures Admissible(call.op, before)
    ensures Runs(c, StepOf(call.op, call.outcome, locked, held, call.kept), before, after)
  {
    assert SameButLock(locked, before);
    AdmissibleUnderLock(call.op, locked, before);
  }

  // Nobody else holds the lock during this hold, nor right before it.
  ghost predicate HeldAlone(ws: seq<Joint>, h: Hold) {
    && Released(ws, h, h.to + 1) && NobodyHolds(ws[h.from - 1].world)
    && forall k, p :: h.from <= k <= h.to && Holder(ws[k].world, p) ==> p == h.client
  }

  // What happens from the place before a hold to the place after it is this one call.
  ghost predicate IsOneCall(c: Codec, ws: seq<Joint>, calls: Calls, h: Hold) {
    && HeldAlone(ws, h)
    && var step := StepAt(ws, calls, h);
       && step.outcome != NotStarted && Admissible(step.op, Blobs(ws[h.from - 1]))
       && Runs(c, step, Blobs(ws[h.from - 1]), Blobs(ws[h.to + 1]))
  }

  // While the lock is exclusive, a hold is the call its client makes.
  lemma {:induction false} HoldIsOneCall(c: Codec, cfg: Config, ws: seq<Joint>, actors: seq<Option<nat>>,
      calls: Calls, h: Hold)
    requires JointRun(cfg, ws, actors) && ClientsMakeCalls(c, ws, actors, calls)
    requires h.to + 1 < |ws| && ExclusiveBefore(cfg, ws, h.to + 1) && Released(ws, h, h.to + 1)
    requires NobodyHolds(ws[h.to + 1].world)
    ensures IsOneCall(c, ws, calls, h)
  {
    var n := h.to + 1;
    HoldBegins(cfg, ws, actors, h, n);
    assert HeldAlone(ws, h) by {
      forall k, p | h.from <= k <= h.to && Holder(ws[k].world, p) ensures p == h.client {
        assert !TwoHolders(ws[k].world) && Holder(ws[k].world, h.client);
      }
    }
    assert SameButLock(Blobs(ws[n - 1]), Blobs(ws[n])) by {
      assert JointStep(cfg, ws[n - 1], ws[n], actors[n - 1]);
      NobodyLeftNothingTouched(cfg, ws[n - 1], ws[n], actors[n - 1]);
    }
    assert IsCall(c, calls(h.client, h.from), Blobs(ws[h.from]), Blobs(ws[h.to])) by {
      OnlyTheHolderActs(cfg, ws, actors, h);
    }
    CallIsAStep(c, calls(h.client, h.from), Blobs(ws[h.from - 1]), Blobs(ws[h.from]), Blobs(ws[h.to]), Blobs(ws[n]));
  }

  // A place at which nobody holds the lock comes after such a place with the same blobs, or after a call.
  ghost predicate QuietOrCall(c: Codec, ws: seq<Joint>, calls: Calls, n: nat) {
    && 0 < n < |ws|
    && (|| (NobodyHolds(ws[n - 1].world) && SameButLock(Blobs(ws[n - 1]), Blobs(ws[n])))
        || exists h: Hold :: h.to + 1 == n && IsOneCall(c, ws, calls, h))
  }

  lemma {:induction false} NobodyHoldsAfter(c: Codec, cfg: Config, ws: seq<Joint>, actors: seq<Option<nat>>,
      calls: Calls, n: nat)
    requires JointRun(cfg, ws, actors) && ClientsMakeCalls(c, ws, actors, calls) && ExclusiveBefore(cfg, ws, n)
    requires n > 0 && NobodyHolds(ws[n].world)
    ensures QuietOrCall(c, ws, calls, n)
  {
    if NobodyHolds(ws[n - 1].world) {
      assert JointStep(cfg, ws[n - 1], ws[n], actors[n - 1]);
      NobodyLeftNothingTouched(cfg, ws[n - 1], ws[n], actors[n - 1]);
    } else {
      var p: int :| Holder(ws[n - 1].world, p);
      var from := HoldHasStart(cfg, ws, actors, p, n - 1);
      HoldIsOneCall(c, cfg, ws, actors, calls, Hold(p, from, n - 1));
    }
  }

  // ----- putting the holds together -----

  // A place at which nobody holds the lock adds no hold.
  lemma {:induction false} SameHolds(ws: seq<Joint>, holds: seq<Hold>, n: nat)
    requires 0 < n < |ws| && HoldsBefore(ws, holds, n - 1) && NobodyHolds(ws[n - 1].world)
    ensures HoldsBefore(ws, holds, n)
  {
    forall a | 0 <= a < |holds| ensures Released(ws, holds[a], n) {
      assert Released(ws, holds[a], n - 1);
    }
  }

  lemma {:induction false} OneMoreIsInOrder(ws: seq<Joint>, holds: seq<Hold>, h: Hold)
    requires h.from > 0 && HoldsBefore(ws, holds, h.from - 1)
    ensures InLockOrder(holds + [h])
  {
    var more := holds + [h];
    forall a, b | 0 <= a < b < |more| ensures more[a].to < more[b].from {
      assert Released(ws, holds[a], h.from - 1);
    }
  }

  lemma {:induction false} CoversMore(holds: seq<Hold>, h: Hold, p: int, k: int)
    requires Covers(holds, p, k) || (h.client == p && h.from <= k <= h.to)
    ensures Covers(holds + [h], p, k)
  {
    var more := holds + [h];
    if Covers(holds, p, k) {
      var a :| 0 <= a < |holds| && holds[a].client == p && holds[a].from <= k <= holds[a].to;
      assert more[a] == holds[a];
    } else {
      assert more[|holds|] == h;
    }
  }

  // The next hold, with nobody holding the lock since the one before.
  lemma {:induction false} OneMoreHold(ws: seq<Joint>, holds: seq<Hold>, h: Hold)
    requires HeldAlone(ws, h) && HoldsBefore(ws, holds, h.from - 1)
    ensures HoldsBefore(ws, holds + [h], h.to + 1)
  {
    var more, n := holds + [h], h.to + 1;
    OneMoreIsInOrder(ws, holds, h);
    forall a | 0 <= a < |more| ensures Released(ws, more[a], n) {
      if a < |holds| {
        assert Released(ws, holds[a], h.from - 1);
      }
    }
    forall k, p | 0 <= k < n && Holder(ws[k].world, p) ensures Covers(more, p, k) {
      CoversMore(holds, h, p, k);
    }
  }

  lemma {:induction false} StoresSnoc(ws: seq<Joint>, holds: seq<Hold>, h: Hold)
    requires h.to + 1 < |ws|
    ensures StoresOf(ws, holds + [h]) == StoresOf(ws, holds) + [Blobs(ws[h.to + 1])]
  {
    assert (holds + [h])[..|holds|] == holds;
  }

  lemma {:induction false} StepsSnoc(ws: seq<Joint>, calls: Calls, holds: seq<Hold>, h: Hold)
    ensures StepsOf(ws, calls, holds + [h]) == StepsOf(ws, calls, holds) + [StepAt(ws, calls, h)]
  {
  }

  // A run with one more call at its end.
  lemma {:induction false} OneMoreCall(c: Codec, steps: seq<StepOf>, stores: seq<Store>, step: StepOf, before: Store,
      after: Store)
    requires IsHistory(c, steps, stores) && SameButLock(stores[|steps|], before)
    requires step.outcome != NotStarted && Admissible(step.op, before) && Runs(c, step, before, after)
    ensures IsHistory(c, steps + [step], stores + [after])
  {
    var more, longer := steps + [step], stores + [after];
    AdmissibleUnderLock(step.op, before, stores[|steps|]);
    forall i | 0 <= i < |more| ensures Admissible(more[i].op, longer[i]) && Runs(c, more[i], longer[i], longer[i + 1]) {
      if i < |steps| {
        assert Admissible(steps[i].op, stores[i]) && Runs(c, steps[i], stores[i], stores[i + 1]);
      }
    }
  }

  // The calls made in these holds are a run, and it ends with the repository as it is at place n.
  ghost predicate AreARun(c: Codec, ws: seq<Joint>, calls: Calls, holds: seq<Hold>, n: nat) {
    && n < |ws| && HoldsBefore(ws, holds, n)
    && IsHistory(c, StepsOf(ws, calls, holds), StoresOf(ws, holds))
    && SameButLock(StoresOf(ws, holds)[|holds|], Blobs(ws[n]))
  }

  lemma {:induction false} LongerRun(c: Codec, ws: seq<Joint>, calls: Calls, holds: seq<Hold>, h: Hold, before: Store)
    requires h.to + 1 < |ws| && IsHistory(c, StepsOf(ws, calls, holds), StoresOf(ws, holds))
    requires SameButLock(StoresOf(ws, holds)[|holds|], before)
    requires var step := StepAt(ws, calls, h);
             step.outcome != NotStarted && Admissible(step.op, before) && Runs(c, step, before, Blobs(ws[h.to + 1]))
    ensures IsHistory(c, StepsOf(ws, calls, holds + [h]), StoresOf(ws, holds + [h]))
    ensures StoresOf(ws, holds + [h])[|holds| + 1] == Blobs(ws[h.to + 1])
  {
    var steps, stores, step := StepsOf(ws, calls, holds), StoresOf(ws, holds), StepAt(ws, calls, h);
    StepsSnoc(ws, calls, holds, h);
    StoresSnoc(ws, holds, h);
    OneMoreCall(c, steps, stores, step, before, Blobs(ws[h.to + 1]));
  }

  lemma {:induction false} OneMoreHoldIsARun(c: Codec, ws: seq<Joint>, calls: Calls, holds: seq<Hold>, h: Hold)
    requires IsOneCall(c, ws, calls, h) && AreARun(c, ws, calls, holds, h.from - 1)
    ensures AreARun(c, ws, calls, holds + [h], h.to + 1)
  {
    OneMoreHold(ws, holds, h);
    LongerRun(c, ws, calls, holds, h, Blobs(ws[h.from - 1]));
  }

  lemma {:induction false} NoHoldIsARun(c: Codec, ws: seq<Joint>, calls: Calls)
    requires ws != []
    ensures AreARun(c, ws, calls, [], 0)
  {
  }

  lemma {:induction false} SameRun(c: Codec, ws: seq<Joint>, calls: Calls, holds: seq<Hold>, n: nat)
    requires 0 < n < |ws| && AreARun(c, ws, calls, holds, n - 1)
    requires NobodyHolds(ws[n - 1].world) && SameButLock(Blobs(ws[n - 1]), Blobs(ws[n]))
    ensures AreARun(c, ws, calls, holds, n)
  {
    SameHolds(ws, holds, n);
  }

  lemma {:induction false} HoldsMakeARun(c: Codec, ws: seq<Joint>, calls: Calls, n: nat) returns (holds: seq<Hold>)
    requires n < |ws| && NobodyHolds(ws[0].world) && NobodyHolds(ws[n].world)
    requires forall k :: 0 < k <= n && NobodyHolds(ws[k].world) ==> QuietOrCall(c, ws, calls, k)
    ensures AreARun(c, ws, calls, holds, n)
  {
    if n == 0 {
      holds := [];
      NoHoldIsARun(c, ws, calls);
    } else if NobodyHolds(ws[n - 1].world) && SameButLock(Blobs(ws[n - 1]), Blobs(ws[n])) {
      holds := HoldsMakeARun(c, ws, calls, n - 1);
      SameRun(c, ws, calls, holds, n);
    } else {
      assert QuietOrCall(c, ws, calls, n);
      var h: Hold :| h.to + 1 == n && IsOneCall(c, ws, calls, h);
      holds := HoldsMakeARun(c, ws, calls, h.from - 1);
      OneMoreHoldIsARun(c, ws, calls, holds, h);
      holds := holds + [h];
    }
  }

  lemma {:induction false} TimelyIsExclusive(cfg: Config, ws: seq<Joint>, actors: seq<Option<nat>>, n: nat)
    requires JointRun(cfg, ws, actors) && n < |ws|
    requires forall k :: 0 <= k < n ==> Timely(cfg, ws[k].world)
    ensures ExclusiveBefore(cfg, ws, n)
  {
    var worlds := Worlds(ws);
    TimedMutualExclusion(cfg, worlds, n);
    forall k | 0 <= k <= n ensures NobodyTakesOver(ws[k].world) && Exclusive(cfg, ws[k].world) {
      assert NobodyTakesOver(worlds[k]) && Exclusive(cfg, worlds[k]);
    }
  }

  // While every holder releases in time, the calls the clients have made by a moment at which nobody holds the lock
  // are a run of calls one after the other: every hold of the lock is one of them, in the order of the lock.
  lemma {:induction false} InterleavingIsAHistory(c: Codec, cfg: Config, ws: seq<Joint>, actors: seq<Option<nat>>,
      calls: Calls, n: nat) returns (holds: seq<Hold>)
    requires JointRun(cfg, ws, actors) && ClientsMakeCalls(c, ws, actors, calls)
    requires n < |ws| && NobodyHolds(ws[n].world)
    requires forall k :: 0 <= k < n ==> Timely(cfg, ws[k].world)
    ensures AreARun(c, ws, calls, holds, n) && StoresOf(ws, holds)[0] == Blobs(ws[0])
  {
    TimelyIsExclusive(cfg, ws, actors, n);
    NobodyHoldsAtFirst(cfg, ws, actors);
    forall k | 0 < k <= n && NobodyHolds(ws[k].world) ensures QuietOrCall(c, ws, calls, k) {
      NobodyHoldsAfter(c, cfg, ws, actors, calls, k);
    }
    holds := HoldsMakeARun(c, ws, calls, n);
    FirstStore(ws, holds);
  }

  lemma {:induction false} NobodyHoldsAtFirst(cfg: Config, ws: seq<Joint>, actors: seq<Option<nat>>)
    requires JointRun(cfg, ws, actors)
    ensures NobodyHolds(ws[0].world)
  {
    assert Worlds(ws)[0] == ws[0].world;
  }

  lemma {:induction false} FirstStore(ws: seq<Joint>, holds: seq<Hold>)
    requires ws != []
    ensures StoresOf(ws, holds)[0] == Blobs(ws[0])
  {
    if holds == [] {
    } else {
      FirstStore(ws, holds[..|holds| - 1]);
    }
  }

  // ----- what the snapshots stand for -----

  // Every call made in these holds is meant to keep this snapshot.
  ghost predicate KeptByAll(calls: Calls, holds: seq<Hold>, id: Uuid) {
    forall a :: 0 <= a < |holds| ==> id in calls(holds[a].client, holds[a].from).kept
  }

  lemma {:induction false} CallsKeep(ws: seq<Joint>, calls: Calls, holds: seq<Hold>, id: Uuid)
    requires KeptByAll(calls, holds, id)
    ensures forall a :: 0 <= a < |holds| ==> id in StepsOf(ws, calls, holds)[a].kept
  {
  }

  // So at every such moment the snapshots recorded along these calls stand for what was recorded; in particular
  // those that every call is meant to keep stand for what they stood for at the start.
  lemma {:induction false} InterleavingIsFaithful(c: Codec, cfg: Config, ws: seq<Joint>, actors: seq<Option<nat>>,
      calls: Calls, n: nat, record: Record) returns (holds: seq<Hold>)
    requires c.Lawful() && JointRun(cfg, ws, actors) && ClientsMakeCalls(c, ws, actors, calls)
    requires n < |ws| && NobodyHolds(ws[n].world) && Faithful(c, Blobs(ws[0]), record)
    requires forall k :: 0 <= k < n ==> Timely(cfg, ws[k].world)
    ensures AreARun(c, ws, calls, holds, n)
    ensures Faithful(c, Blobs(ws[n]), RecordAfter(c, record, StepsOf(ws, calls, holds)))
    ensures forall id :: id in record && KeptByAll(calls, holds, id) ==> StandsFor(c, Blobs(ws[n]), id, record[id])
  {
    holds := InterleavingIsAHistory(c, cfg, ws, actors, calls, n);
    var steps, stores := StepsOf(ws, calls, holds), StoresOf(ws, holds);
    StandsAtTheEnd(c, record, steps, stores, Blobs(ws[n]));
    forall id | id in record && KeptByAll(calls, holds, id) ensures StandsFor(c, Blobs(ws[n]), id, record[id]) {
      RecordAtStart(c, record, steps, id);
      CallsKeep(ws, calls, holds, id);
      KeptEntryLasts(c, record, steps, stores, 0, id);
      assert StandsFor(c, Blobs(ws[n]), id, RecordAfter(c, record, steps)[id]);
    }
  }

  // A snapshot that one of these calls finished and recorded, and that the later ones are meant to keep, stands for
  // what that call recorded.
  lemma {:induction false} InterleavedCallIsRecorded(c: Codec, ws: seq<Joint>, calls: Calls, holds: seq<Hold>, n: nat,
      record: Record, a: nat)
    requires c.Lawful() && AreARun(c, ws, calls, holds, n) && Faithful(c, Blobs(ws[0]), record)
    requires a < |holds| && LastsUntil(c, record, StepsOf(ws, calls, holds), a, |holds|)
    ensures var steps := StepsOf(ws, calls, holds);
            var entry := NewEntry(c, steps[a].op, steps[a].locked, RecordAfter(c, record, steps[..a])).value;
            StandsFor(c, Blobs(ws[n]), entry.0, entry.1)
  {
    FirstStore(ws, holds);
    CallLasts(c, record, StepsOf(ws, calls, holds), StoresOf(ws, holds), a, Blobs(ws[n]));
  }

  lemma {:induction false} OnlyBackupsAreMade(ws: seq<Joint>, calls: Calls, holds: seq<Hold>)
    requires forall p, i :: NewId(calls(p, i).op).Some?
    ensures OnlyBackups(StepsOf(ws, calls, holds))
  {
  }

  // Where the clients only back up and compact, every recorded snapshot is kept, whatever the interleaving and
  // wherever their calls fail.
  lemma {:induction false} InterleavedBackupsLoseNothing(c: Codec, ws: seq<Joint>, calls: Calls, holds: seq<Hold>,
      n: nat, record: Record)
    requires c.Lawful() && AreARun(c, ws, calls, holds, n) && Faithful(c, Blobs(ws[0]), record)
    requires forall p, i :: NewId(calls(p, i).op).Some?
    ensures forall id :: id in record ==> StandsFor(c, Blobs(ws[n]), id, record[id])
  {
    var steps, stores := StepsOf(ws, calls, holds), StoresOf(ws, holds);
    FirstStore(ws, holds);
    OnlyBackupsAreMade(ws, calls, holds);
    StandsAtTheEnd(c, record, steps, stores, Blobs(ws[n]));
    forall id | id in record ensures StandsFor(c, Blobs(ws[n]), id, record[id]) {
      RecordAtStart(c, record, steps, id);
      BackupsLoseNothing(c, record, steps, stores, 0, |steps|, id);
      RecordAtEnd(c, record, steps);
      assert StandsFor(c, Blobs(ws[n]), id, RecordAfter(c, record, steps)[id]);
    }
  }

  // ----- an interleaving for every call -----

  // One client takes the lock and makes a call; in the middle of it another tries, finds the lock alive and gives up.
  function TwoClients(lock: Bytes, before: Store, after: Store): seq<Joint> {
    var taken := Some(lock);
    [ Joint(World(0, None, [Idle, Idle]), before),
      Joint(World(0, None, [Started(0), Idle]), before),
      Joint(World(0, taken, [Holding(0), Idle]), before),
      Joint(World(0, taken, [Holding(0), Started(0)]), before),
      Joint(World(0, taken, [Holding(0), Started(0)]), after),
      Joint(World(0, taken, [Holding(0), Contending(0)]), after),
      Joint(World(0, taken, [Holding(0), Idle]), after),
      Joint(World(0, None, [Idle, Idle]), after) ]
  }

  function TwoClientsEvents(): seq<Event> {
    [ReadClock(0), TryPut(0), ReadClock(1), Tick(0), TryPut(1), Inspect(1), Unlock(0)]
  }

  lemma {:induction false} TwoClientsStep(cfg: Config, before: Store, after: Store, i: nat)
    requires cfg.codec.Lawful() && |cfg.staleAfter| == 2 && cfg.staleAfter[1] >= 0 && i < 7
    ensures var ws := TwoClients(cfg.codec.format(0), before, after);
            JointStep(cfg, ws[i], ws[i + 1], if i == 3 then Some(0) else None)
  {
    var ws := TwoClients(cfg.codec.format(0), before, after);
    var e := TwoClientsEvents()[i];
    assert Enabled(ws[i].world, e) && ws[i + 1].world == Next(cfg, ws[i].world, e);
    assert Holder(ws[3].world, 0) && Holder(ws[4].world, 0);
  }

  lemma {:induction false} TwoClientsHolder(lock: Bytes, before: Store, after: Store, k: nat, p: int)
    requires k < 8
    ensures Holder(TwoClients(lock, before, after)[k].world, p) <==> p == 0 && 2 <= k <= 6
  {
  }

  // Every call can be made in an interleaving with another client, and is the one call of its run.
  lemma {:induction false} EveryCallInterleaves(c: Codec, cfg: Config, call: Call, before: Store, after: Store)
    returns (ws: seq<Joint>, actors: seq<Option<nat>>)
    requires cfg.codec.Lawful() && |cfg.staleAfter| == 2 && cfg.staleAfter[0] >= 0 && cfg.staleAfter[1] >= 0
    requires var lock := cfg.codec.format(0); IsCall(c, call, before[LOCK_KEY := lock], after[LOCK_KEY := lock])
    ensures JointRun(cfg, ws, actors) && ClientsMakeCalls(c, ws, actors, (p, i) => call)
    ensures forall k :: 0 <= k < |ws| ==> Timely(cfg, ws[k].world)
    ensures |ws| == 8 && ws[0].data == before && ws[7].data == after && NobodyHolds(ws[7].world)
    ensures HoldsBefore(ws, [Hold(0, 2, 6)], 7)
  {
    var lock := cfg.codec.format(0);
    ws := TwoClients(lock, before, after);
    actors := [None, None, None, Some(0), None, None, None];
    forall i | 0 <= i < 7 ensures JointStep(cfg, ws[i], ws[i + 1], actors[i]) {
      TwoClientsStep(cfg, before, after, i);
    }
    TwoClientsRun(cfg, ws, actors);
    HeldOnce(lock, before, after, ws);
    OneCallIsMade(c, ws, actors, call);
    TheOneHold(ws);
    forall k | 0 <= k < 8 ensures Timely(cfg, ws[k].world) {
      TwoClientsAreTimely(cfg, lock, before, after, k);
    }
  }

  lemma {:induction false} TwoClientsAreTimely(cfg: Config, lock: Bytes, before: Store, after: Store, k: nat)
    requires |cfg.staleAfter| == 2 && cfg.staleAfter[0] >= 0 && cfg.staleAfter[1] >= 0 && k < 8
    ensures Timely(cfg, TwoClients(lock, before, after)[k].world)
  {
  }

  // The lock is held by client 0 from place 2 to place 6 and by nobody else.
  ghost predicate IsHeldOnce(ws: seq<Joint>) {
    |ws| == 8 && forall k, p :: 0 <= k < 8 ==> (Holder(ws[k].world, p) <==> p == 0 && 2 <= k <= 6)
  }

  lemma {:induction false} HeldOnce(lock: Bytes, before: Store, after: Store, ws: seq<Joint>)
    requires ws == TwoClients(lock, before, after)
    ensures IsHeldOnce(ws) && NobodyHolds(ws[7].world)
  {
    forall k, p | 0 <= k < 8 ensures Holder(ws[k].world, p) <==> p == 0 && 2 <= k <= 6 {
      TwoClientsHolder(lock, before, after, k, p);
    }
  }

  lemma {:induction false} OneCallIsMade(c: Codec, ws: seq<Joint>, actors: seq<Option<nat>>, call: Call)
    requires IsHeldOnce(ws) && IsCall(c, call, Blobs(ws[2]), Blobs(ws[6]))
    ensures ClientsMakeCalls(c, ws, actors, (p, i) => call)
  {
    forall h, n | Released(ws, h, n) ensures h == Hold(0, 2, 6) {
      OneHold(ws, h, n);
    }
  }

  lemma {:induction false} TwoClientsRun(cfg: Config, ws: seq<Joint>, actors: seq<Option<nat>>)
    requires cfg.codec.Lawful() && |ws| == |actors| + 1
    requires ws[0].world == World(0, None, [Idle, Idle]) && |cfg.staleAfter| == 2
    requires forall i :: 0 <= i < |actors| ==> JointStep(cfg, ws[i], ws[i + 1], actors[i])
    ensures JointRun(cfg, ws, actors)
  {
    var worlds := Worlds(ws);
    forall i | 0 < i < |worlds| ensures Steps(cfg, worlds[i - 1], worlds[i]) {
      assert JointStep(cfg, ws[i - 1], ws[i - 1 + 1], actors[i - 1]);
    }
  }

  lemma {:induction false} OneHold(ws: seq<Joint>, h: Hold, n: nat)
    requires IsHeldOnce(ws) && Released(ws, h, n)
    ensures h == Hold(0, 2, 6)
  {
    assert Holder(ws[h.from].world, h.client) && Holder(ws[h.to].world, h.client);
  }

  lemma {:induction false} TheOneHold(ws: seq<Joint>)
    requires IsHeldOnce(ws)
    ensures HoldsBefore(ws, [Hold(0, 2, 6)], 7)
  {
    var holds := [Hold(0, 2, 6)];
    assert Released(ws, holds[0], 7);
    forall k, p | 0 <= k < 7 && Holder(ws[k].world, p) ensures Covers(holds, p, k) {
      assert holds[0].client == p;
    }
  }
}
