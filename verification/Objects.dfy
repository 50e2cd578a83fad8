// Object blobs: written by interleaved tasks, checked afterwards, undone on a mismatch.
module Objects {
  import opened Types
  import opened Keys
  import opened Repositories

  // One task per object reference. A task has either written its own bytes or found the key taken.
  datatype Task =
    | Ready
    | Wrote(bytes: Bytes)      // put, not yet checked
    | Found                    // the key was already present; the source is read again and hashed
    | Done(own: Option<Bytes>) // checked; `own` are the bytes this task wrote
    | Failed
    | Stranded(bytes: Bytes)   // the check failed and so did the delete that should undo the put
  {
    // The bytes of this task that are in the store.
    function Own(): Option<Bytes> {
      match this
      case Wrote(b) => Some(b)
      case Done(o) => o
      case Stranded(b) => Some(b)
      case _ => None
    }

    predicate Live() {
      Ready? || Wrote? || Found?
    }

    function Rank(): nat {
      if Ready? then 2 else if Wrote? || Found? then 1 else 0
    }
  }

  // `completed` is the order in which tasks finished; `owner` records which task's bytes a new blob holds.
  datatype Batch = Batch(store: Store, tasks: seq<Task>, completed: seq<nat>, owner: map<string, nat>)

  // The atomic steps. Bytes are what the object index delivers at that moment; two loads may differ.
  datatype Event =
    | Put(i: nat, bytes: Bytes)
    | Settle(i: nat, reloaded: Bytes)
    | Fail(i: nat)  // a load, the put or the undoing delete failed

  // What each task has to write: its content key and the hash it must have.
  function Jobs(refs: seq<ObjectRef>): seq<BlobRef> {
    seq(|refs|, i requires 0 <= i < |refs| => BlobRef(ObjectKey(refs[i].sha), refs[i].sha))
  }

  predicate KeyedByHash(jobs: seq<BlobRef>) {
    forall i :: 0 <= i < |jobs| ==> jobs[i].key == ObjectKey(jobs[i].sha)
  }

  predicate Enabled(jobs: seq<BlobRef>, b: Batch, e: Event) {
    && |b.tasks| == |jobs|
    && e.i < |jobs|
    && match e
       case Put(i, _) => b.tasks[i].Ready?
       case Settle(i, _) => b.tasks[i].Wrote? || b.tasks[i].Found?
       case Fail(i) => b.tasks[i].Ready? || b.tasks[i].Wrote? || b.tasks[i].Found?
  }

  function Step(c: Codec, jobs: seq<BlobRef>, b: Batch, e: Event): Batch
    requires Enabled(jobs, b, e)
  {
    var key := jobs[e.i].key;
    match e
    case Put(i, bytes) =>
      if key in b.store then b.(tasks := b.tasks[i := Found])
      else b.(store := b.store[key := bytes], tasks := b.tasks[i := Wrote(bytes)], owner := b.owner[key := i])
    case Settle(i, reloaded) =>
      var own := b.tasks[i].Own();
      if c.hash(if own.Some? then own.value else reloaded) == jobs[i].sha
      then b.(tasks := b.tasks[i := Done(own)], completed := b.completed + [i])
      else if own.Some? then b.(store := b.store - {key}, tasks := b.tasks[i := Failed], owner := b.owner - {key})
      else b.(tasks := b.tasks[i := Failed])
    case Fail(i) =>
      // An unfinished put leaves nothing behind; a failed undo leaves the bytes.
      if b.tasks[i].Wrote? then b.(tasks := b.tasks[i := Stranded(b.tasks[i].bytes)])
      else b.(tasks := b.tasks[i := Failed])
  }

  // A failing undo only happens to a task whose check failed.
  predicate Possible(c: Codec, jobs: seq<BlobRef>, b: Batch, e: Event) {
    && Enabled(jobs, b, e)
    && (e.Fail? && b.tasks[e.i].Wrote? ==> c.hash(b.tasks[e.i].bytes) != jobs[e.i].sha)
  }

  function Start(store: Store, jobs: seq<BlobRef>): Batch {
    Batch(store, seq(|jobs|, _ => Ready), [], map[])
  }

  ghost predicate Run(c: Codec, jobs: seq<BlobRef>, from: Batch, events: seq<Event>, to: Batch)
    decreases |events|
  {
    if events == [] then from == to
    else Possible(c, jobs, from, events[0]) && Run(c, jobs, Step(c, jobs, from, events[0]), events[1..], to)
  }

  // ----- the invariant of every interleaving -----

  ghost predicate Unchanged(before: Store, after: Store) {
    forall k :: k in before ==> k in after && after[k] == before[k]
  }

  // A new blob belongs to one task, which put it under an absent key, and holds that task's bytes.
  ghost predicate Ownership(jobs: seq<BlobRef>, before: Store, b: Batch)
    requires |b.tasks| == |jobs|
  {
    && Unchanged(before, b.store)
    && (forall k :: k in b.store <==> k in before || k in b.owner)
    && (forall k :: k in b.owner ==>
          && k !in before
          && b.owner[k] < |jobs|
          && k == jobs[b.owner[k]].key
          && b.tasks[b.owner[k]].Own() == Some(b.store[k]))
    && (forall i :: 0 <= i < |jobs| && b.tasks[i].Own().Some? ==>
          jobs[i].key in b.owner && b.owner[jobs[i].key] == i)
  }

  ghost predicate Checked(c: Codec, jobs: seq<BlobRef>, b: Batch)
    requires |b.tasks| == |jobs|
  {
    forall i :: 0 <= i < |jobs| ==>
      && (b.tasks[i].Done? && b.tasks[i].own.Some? ==> c.hash(b.tasks[i].own.value) == jobs[i].sha)
      && (b.tasks[i].Stranded? ==> c.hash(b.tasks[i].bytes) != jobs[i].sha)
  }

  ghost predicate SomeFailed(b: Batch) {
    exists j :: 0 <= j < |b.tasks| && b.tasks[j].Failed?
  }

  // A key that was found is still there, unless some task failed.
  ghost predicate FoundRemains(jobs: seq<BlobRef>, b: Batch)
    requires |b.tasks| == |jobs|
  {
    SomeFailed(b) ||
    forall i :: 0 <= i < |jobs| && (b.tasks[i].Found? || b.tasks[i] == Done(None)) ==> jobs[i].key in b.store
  }

  // Finished tasks, each once.
  ghost predicate Completions(jobs: seq<BlobRef>, b: Batch)
    requires |b.tasks| == |jobs|
  {
    && (forall i, j :: 0 <= i < j < |b.completed| ==> b.completed[i] != b.completed[j])
    && (forall i :: i in b.completed <==> 0 <= i < |jobs| && b.tasks[i].Done?)
  }

  ghost predicate Invariant(c: Codec, jobs: seq<BlobRef>, before: Store, b: Batch) {
    && |b.tasks| == |jobs|
    && Ownership(jobs, before, b)
    && Checked(c, jobs, b)
    && FoundRemains(jobs, b)
    && Completions(jobs, b)
  }

  lemma {:induction false} StartIsInvariant(c: Codec, jobs: seq<BlobRef>, before: Store)
    ensures Invariant(c, jobs, before, Start(before, jobs))
  {
  }

  lemma {:induction false} PutKeepsOwnership(jobs: seq<BlobRef>, before: Store, b: Batch, n: Batch, i: nat,
        bytes: Bytes)
    requires |b.tasks| == |n.tasks| == |jobs| && Ownership(jobs, before, b)
    requires i < |jobs| && b.tasks[i].Own() == None && n.tasks == b.tasks[i := Wrote(bytes)]
    requires jobs[i].key !in b.store
    requires n.store == b.store[jobs[i].key := bytes] && n.owner == b.owner[jobs[i].key := i]
    ensures Ownership(jobs, before, n)
  {
    forall k | k in n.owner
      ensures k !in before && n.owner[k] < |jobs| && k == jobs[n.owner[k]].key
      ensures n.tasks[n.owner[k]].Own() == Some(n.store[k])
    {
      if k != jobs[i].key {
        assert k in b.owner && n.owner[k] != i;
      }
    }
  }

  lemma {:induction false} SameOwnersKeepOwnership(jobs: seq<BlobRef>, before: Store, b: Batch, n: Batch, i: nat,
      t: Task)
    requires |b.tasks| == |n.tasks| == |jobs| && Ownership(jobs, before, b)
    requires n.store == b.store && n.owner == b.owner
    requires i < |jobs| && n.tasks == b.tasks[i := t] && t.Own() == b.tasks[i].Own()
    ensures Ownership(jobs, before, n)
  {
  }

  lemma {:induction false} UndoKeepsOwnership(jobs: seq<BlobRef>, before: Store, b: Batch, n: Batch, i: nat)
    requires |b.tasks| == |n.tasks| == |jobs| && Ownership(jobs, before, b)
    requires i < |jobs| && b.tasks[i].Own().Some? && n.tasks == b.tasks[i := Failed]
    requires n.store == b.store - {jobs[i].key} && n.owner == b.owner - {jobs[i].key}
    ensures Ownership(jobs, before, n)
  {
    forall k | k in n.owner
      ensures k !in before && n.owner[k] < |jobs| && k == jobs[n.owner[k]].key
      ensures n.tasks[n.owner[k]].Own() == Some(n.store[k])
    {
      assert k in b.owner && n.owner[k] != i;
    }
    forall j | 0 <= j < |jobs| && n.tasks[j].Own().Some?
      ensures jobs[j].key in n.owner && n.owner[jobs[j].key] == j
    {
      assert j != i && b.tasks[j].Own().Some?;
    }
  }

  lemma {:induction false} StepKeepsOwnership(c: Codec, jobs: seq<BlobRef>, before: Store, b: Batch, e: Event)
    requires Enabled(jobs, b, e) && Ownership(jobs, before, b)
    ensures Ownership(jobs, before, Step(c, jobs, b, e))
  {
    var n := Step(c, jobs, b, e);
    if e.Put? && jobs[e.i].key !in b.store {
      PutKeepsOwnership(jobs, before, b, n, e.i, e.bytes);
    } else if e.Settle? && b.tasks[e.i].Wrote? && n.tasks[e.i].Failed? {
      UndoKeepsOwnership(jobs, before, b, n, e.i);
    } else {
      SameOwnersKeepOwnership(jobs, before, b, n, e.i, n.tasks[e.i]);
    }
  }

  lemma {:induction false} StepKeepsFound(c: Codec, jobs: seq<BlobRef>, before: Store, b: Batch, e: Event)
    requires Invariant(c, jobs, before, b) && Possible(c, jobs, b, e)
    ensures FoundRemains(jobs, Step(c, jobs, b, e))
  {
    var n := Step(c, jobs, b, e);
    if SomeFailed(b) {
      var j :| 0 <= j < |b.tasks| && b.tasks[j].Failed?;
      assert n.tasks[j].Failed?;
    } else if n.tasks[e.i].Failed? {
      assert SomeFailed(n);
    }
  }

  lemma {:induction false} StepKeepsChecked(c: Codec, jobs: seq<BlobRef>, b: Batch, e: Event)
    requires Possible(c, jobs, b, e) && Checked(c, jobs, b)
    ensures Checked(c, jobs, Step(c, jobs, b, e))
  {
  }

  lemma {:induction false} StepKeepsCompletions(c: Codec, jobs: seq<BlobRef>, b: Batch, e: Event)
    requires Possible(c, jobs, b, e) && Completions(jobs, b)
    ensures Completions(jobs, Step(c, jobs, b, e))
  {
    var n := Step(c, jobs, b, e);
    if n.completed != b.completed {
      assert n.completed == b.completed + [e.i] && e.i !in b.completed;
      assert forall j :: 0 <= j < |b.completed| ==> b.completed[j] in b.completed;
    }
  }

  lemma {:induction false} StepKeepsInvariant(c: Codec, jobs: seq<BlobRef>, before: Store, b: Batch, e: Event)
    requires Invariant(c, jobs, before, b) && Possible(c, jobs, b, e)
    ensures Invariant(c, jobs, before, Step(c, jobs, b, e))
  {
    StepKeepsOwnership(c, jobs, before, b, e);
    StepKeepsFound(c, jobs, before, b, e);
    StepKeepsChecked(c, jobs, b, e);
    StepKeepsCompletions(c, jobs, b, e);
  }

  // Whatever the interleaving and wherever it stops, no earlier blob is changed or removed,
  // and every new blob holds the bytes of exactly one task.
  lemma {:induction false} EveryRunKeepsInvariant(c: Codec, jobs: seq<BlobRef>, before: Store, from: Batch,
        events: seq<Event>, to: Batch)
    requires Invariant(c, jobs, before, from) && Run(c, jobs, from, events, to)
    ensures Invariant(c, jobs, before, to)
    decreases |events|
  {
    if events == [] {
    } else {
      StepKeepsInvariant(c, jobs, before, from, events[0]);
      EveryRunKeepsInvariant(c, jobs, before, Step(c, jobs, from, events[0]), events[1..], to);
    }
  }

  // ----- outcomes -----

  // Every object blob holds bytes that hash to its name.
  ghost predicate ObjectsMatchNames(c: Codec, store: Store) {
    forall sha :: ObjectKey(sha) in store ==> c.hash(store[ObjectKey(sha)]) == sha
  }

  ghost predicate AllDone(b: Batch) {
    forall i :: 0 <= i < |b.tasks| ==> b.tasks[i].Done?
  }

  // What a batch in which every task succeeded leaves, from any starting store.
  ghost predicate ObjectsWritten(c: Codec, jobs: seq<BlobRef>, before: Store, after: Store) {
    && Unchanged(before, after)
    && (forall i :: 0 <= i < |jobs| ==> jobs[i].key in after)
    && (forall k :: k in after && k !in before ==>
          exists i :: 0 <= i < |jobs| && k == jobs[i].key && c.hash(after[k]) == jobs[i].sha)
  }

  lemma {:induction false} AllDoneMeansWritten(c: Codec, jobs: seq<BlobRef>, before: Store, b: Batch)
    requires Invariant(c, jobs, before, b) && AllDone(b)
    ensures ObjectsWritten(c, jobs, before, b.store)
  {
    forall i | 0 <= i < |jobs| ensures jobs[i].key in b.store {
      assert b.tasks[i].Done?;
    }
    forall k | k in b.store && k !in before
      ensures exists i :: 0 <= i < |jobs| && k == jobs[i].key && c.hash(b.store[k]) == jobs[i].sha
    {
      assert b.tasks[b.owner[k]].Done?;
    }
  }

  // What is already stored under the keys to write has the declared hash.
  ghost predicate ReferencedObjectsMatch(c: Codec, jobs: seq<BlobRef>, store: Store) {
    forall i :: 0 <= i < |jobs| && jobs[i].key in store ==> c.hash(store[jobs[i].key]) == jobs[i].sha
  }

  // After a successful batch every referenced key holds bytes with the declared hash exactly when those
  // that were stored before did: a batch does not look at the bytes under a key it finds taken.
  lemma {:induction false} WrittenObjectsMatch(c: Codec, jobs: seq<BlobRef>, before: Store, after: Store)
    requires KeyedByHash(jobs) && ObjectsWritten(c, jobs, before, after)
    ensures (forall i :: 0 <= i < |jobs| ==> jobs[i].key in after && c.hash(after[jobs[i].key]) == jobs[i].sha)
       <==> ReferencedObjectsMatch(c, jobs, before)
    ensures ObjectsMatchNames(c, before) ==> ObjectsMatchNames(c, after) && ReferencedObjectsMatch(c, jobs, before)
  {
    forall sha | ObjectKey(sha) in after && ObjectKey(sha) !in before ensures c.hash(after[ObjectKey(sha)]) == sha {
      var i :| 0 <= i < |jobs| && ObjectKey(sha) == jobs[i].key && c.hash(after[ObjectKey(sha)]) == jobs[i].sha;
      ObjectKeyIsInjective(sha, jobs[i].sha);
    }
  }

  // Wherever a batch stops, the new blobs match their names exactly when no task is standing on
  // mismatched bytes: neither put and unchecked, nor stranded by a failed undo.
  lemma {:induction false} StoppedBatchMatchesIff(c: Codec, jobs: seq<BlobRef>, before: Store, b: Batch)
    requires KeyedByHash(jobs)
    requires Invariant(c, jobs, before, b) && ObjectsMatchNames(c, before)
    ensures ObjectsMatchNames(c, b.store) <==>
            forall i :: 0 <= i < |jobs| && (b.tasks[i].Wrote? || b.tasks[i].Stranded?) ==>
              c.hash(b.tasks[i].bytes) == jobs[i].sha
  {
    if ObjectsMatchNames(c, b.store) {
      forall i | 0 <= i < |jobs| && (b.tasks[i].Wrote? || b.tasks[i].Stranded?)
        ensures c.hash(b.tasks[i].bytes) == jobs[i].sha
      {
        assert b.tasks[i].Own().Some? && ObjectKey(jobs[i].sha) in b.store;
      }
    } else {
      var sha :| ObjectKey(sha) in b.store && c.hash(b.store[ObjectKey(sha)]) != sha;
      assert ObjectKey(sha) !in before;
      var i := b.owner[ObjectKey(sha)];
      ObjectKeyIsInjective(sha, jobs[i].sha);
      assert b.tasks[i].Own() == Some(b.store[ObjectKey(sha)]);
    }
  }

  // What each source may deliver for its task.
  ghost predicate Draws(delivers: seq<iset<Bytes>>, events: seq<Event>) {
    forall k :: 0 <= k < |events| && events[k].Put? ==>
      events[k].i < |delivers| && events[k].bytes in delivers[events[k].i]
  }

  ghost predicate OwnsDelivered(delivers: seq<iset<Bytes>>, b: Batch) {
    |b.tasks| == |delivers| &&
    forall i :: 0 <= i < |delivers| && b.tasks[i].Own().Some? ==> b.tasks[i].Own().value in delivers[i]
  }

  lemma {:induction false} RunOwnsDelivered(c: Codec, jobs: seq<BlobRef>, delivers: seq<iset<Bytes>>, start: Batch,
      events: seq<Event>, end: Batch)
    requires Run(c, jobs, start, events, end) && Draws(delivers, events) && OwnsDelivered(delivers, start)
    ensures OwnsDelivered(delivers, end)
    decreases |events|
  {
    if events == [] {
    } else {
      assert forall k :: 0 <= k < |events[1..]| ==> events[1..][k] == events[k + 1];
      RunOwnsDelivered(c, jobs, delivers, Step(c, jobs, start, events[0]), events[1..], end);
    }
  }

  // However the tasks interleave and wherever they stop, the objects match their names.
  ghost predicate EveryRunMatches(c: Codec, jobs: seq<BlobRef>, before: Store, delivers: seq<iset<Bytes>>) {
    forall events, end :: Run(c, jobs, Start(before, jobs), events, end) && Draws(delivers, events) ==>
      ObjectsMatchNames(c, end.store)
  }

  // Every source can only deliver what its reference declares, unless its key is taken from the start.
  ghost predicate SourcesHonest(c: Codec, jobs: seq<BlobRef>, before: Store, delivers: seq<iset<Bytes>>)
    requires |delivers| == |jobs|
  {
    forall i, bytes :: 0 <= i < |jobs| && bytes in delivers[i] && jobs[i].key !in before ==>
      c.hash(bytes) == jobs[i].sha
  }

  lemma {:induction false} OnePutIsARun(c: Codec, jobs: seq<BlobRef>, before: Store, i: nat, bytes: Bytes)
    requires i < |jobs|
    ensures Run(c, jobs, Start(before, jobs), [Put(i, bytes)], Step(c, jobs, Start(before, jobs), Put(i, bytes)))
  {
    var events := [Put(i, bytes)];
    var next := Step(c, jobs, Start(before, jobs), events[0]);
    assert events[1..] == [];
    assert Run(c, jobs, next, events[1..], next);
  }

  lemma {:induction false} HonestRunMatches(c: Codec, jobs: seq<BlobRef>, before: Store, delivers: seq<iset<Bytes>>,
      events: seq<Event>, end: Batch)
    requires KeyedByHash(jobs) && ObjectsMatchNames(c, before) && |delivers| == |jobs|
    requires SourcesHonest(c, jobs, before, delivers)
    requires Run(c, jobs, Start(before, jobs), events, end) && Draws(delivers, events)
    ensures ObjectsMatchNames(c, end.store)
  {
    StartIsInvariant(c, jobs, before);
    EveryRunKeepsInvariant(c, jobs, before, Start(before, jobs), events, end);
    RunOwnsDelivered(c, jobs, delivers, Start(before, jobs), events, end);
    forall i | 0 <= i < |jobs| && (end.tasks[i].Wrote? || end.tasks[i].Stranded?)
      ensures c.hash(end.tasks[i].bytes) == jobs[i].sha
    {
      assert end.tasks[i].Own() == Some(end.tasks[i].bytes);
    }
    StoppedBatchMatchesIff(c, jobs, before, end);
  }

  // Failing fast drops the other tasks where they stand. Objects are sure to match their names wherever a
  // batch stops exactly when every source that can be the first to write delivers what was declared.
  lemma {:induction false} EveryRunMatchesIff(c: Codec, jobs: seq<BlobRef>, before: Store, delivers: seq<iset<Bytes>>)
    requires KeyedByHash(jobs) && ObjectsMatchNames(c, before) && |delivers| == |jobs|
    ensures EveryRunMatches(c, jobs, before, delivers) <==> SourcesHonest(c, jobs, before, delivers)
  {
    if EveryRunMatches(c, jobs, before, delivers) {
      forall i, bytes | 0 <= i < |jobs| && bytes in delivers[i] && jobs[i].key !in before
        ensures c.hash(bytes) == jobs[i].sha
      {
        OnePutIsARun(c, jobs, before, i, bytes);
        var end := Step(c, jobs, Start(before, jobs), Put(i, bytes));
        assert Draws(delivers, [Put(i, bytes)]);
        assert end.store[ObjectKey(jobs[i].sha)] == bytes;
      }
    }
    if SourcesHonest(c, jobs, before, delivers) {
      forall events, end | Run(c, jobs, Start(before, jobs), events, end) && Draws(delivers, events)
        ensures ObjectsMatchNames(c, end.store)
      {
        HonestRunMatches(c, jobs, before, delivers, events, end);
      }
    }
  }

  // Failing fast drops the other tasks: one that has put and not yet checked leaves its bytes
  // under a name they do not hash to.
  lemma {:induction false} CancellationCanStrandBytes(c: Codec, ref: ObjectRef, bad: Bytes)
    requires c.hash(bad) != ref.sha
    ensures exists events, b ::
              && Run(c, Jobs([ref, ref]), Start(map[], Jobs([ref, ref])), events, b)
              && SomeFailed(b)
              && !ObjectsMatchNames(c, b.store)
  {
    var jobs := Jobs([ref, ref]);
    var events := [Put(0, bad), Fail(1)];
    var b0 := Start(map[], jobs);
    var b1 := Step(c, jobs, b0, events[0]);
    var b2 := Step(c, jobs, b1, events[1]);
    assert events[1..] == [events[1]] && events[1..][1..] == [];
    assert Run(c, jobs, b2, events[1..][1..], b2);
    assert Run(c, jobs, b1, events[1..], b2);
    assert Run(c, jobs, b0, events, b2);
    assert b2.tasks[1].Failed?;
    assert ObjectKey(ref.sha) in b2.store && b2.store[ObjectKey(ref.sha)] == bad;
  }

  // ----- collecting the results -----

  function EntryOf(r: ObjectRef): ObjectEntry {
    ObjectEntry(r.objectId, r.storageKey, ObjectKey(r.sha), r.sha, r.sizeBytes, r.mimeType)
  }

  function Entries(refs: seq<ObjectRef>): seq<ObjectEntry> {
    seq(|refs|, i requires 0 <= i < |refs| => EntryOf(refs[i]))
  }

  datatype Indexed = Indexed(index: nat, entry: ObjectEntry)

  function InsertByIndex(x: Indexed, xs: seq<Indexed>): seq<Indexed> {
    if xs == [] || x.index < xs[0].index then [x] + xs else [xs[0]] + InsertByIndex(x, xs[1..])
  }

  // The results sorted by the position of their reference; equal positions keep their order.
  function SortByIndex(xs: seq<Indexed>): seq<Indexed> {
    if xs == [] then [] else InsertByIndex(xs[|xs| - 1], SortByIndex(xs[..|xs| - 1]))
  }

  ghost predicate StrictlyIndexed(xs: seq<Indexed>) {
    forall i, j :: 0 <= i < j < |xs| ==> xs[i].index < xs[j].index
  }

  ghost predicate DistinctlyIndexed(xs: seq<Indexed>) {
    forall i, j :: 0 <= i < j < |xs| ==> xs[i].index != xs[j].index
  }

  lemma {:induction false} InsertMembers(x: Indexed, xs: seq<Indexed>, y: Indexed)
    ensures y in InsertByIndex(x, xs) <==> y == x || y in xs
  {
    if xs == [] || x.index < xs[0].index {
    } else {
      InsertMembers(x, xs[1..], y);
      assert xs == [xs[0]] + xs[1..];
    }
  }

  lemma {:induction false} InsertKeepsStrict(x: Indexed, xs: seq<Indexed>)
    requires StrictlyIndexed(xs)
    requires forall y :: y in xs ==> y.index != x.index
    ensures StrictlyIndexed(InsertByIndex(x, xs))
  {
    if xs == [] || x.index < xs[0].index {
    } else {
      var rest := InsertByIndex(x, xs[1..]);
      InsertKeepsStrict(x, xs[1..]);
      forall i | 0 <= i < |rest| ensures xs[0].index < rest[i].index {
        InsertMembers(x, xs[1..], rest[i]);
        assert rest[i] in rest;
        assert xs[0] in xs;
      }
    }
  }

  lemma {:induction false} SortSorts(xs: seq<Indexed>)
    requires DistinctlyIndexed(xs)
    ensures StrictlyIndexed(SortByIndex(xs))
    ensures forall y :: y in SortByIndex(xs) <==> y in xs
  {
    if xs == [] {
    } else {
      var n := |xs| - 1;
      var sorted := SortByIndex(xs[..n]);
      SortSorts(xs[..n]);
      assert xs == xs[..n] + [xs[n]];
      InsertKeepsStrict(xs[n], sorted);
      forall y ensures y in SortByIndex(xs) <==> y in xs {
        InsertMembers(xs[n], sorted, y);
      }
    }
  }

  ghost predicate HasIndex(xs: seq<Indexed>, k: int) {
    exists i :: 0 <= i < |xs| && xs[i].index == k
  }

  // A strictly sorted listing of base .. base+n-1 is in position order.
  lemma {:induction false} SortedIndicesArePositions(xs: seq<Indexed>, base: nat, n: nat)
    requires StrictlyIndexed(xs)
    requires forall k :: HasIndex(xs, k) <==> base <= k < base + n
    ensures |xs| == n && forall i :: 0 <= i < n ==> xs[i].index == base + i
    decreases n
  {
    assert xs != [] ==> HasIndex(xs, xs[0].index);
    if n == 0 {
    } else {
      assert HasIndex(xs, base);
      var i :| 0 <= i < |xs| && xs[i].index == base;
      assert xs[0].index == base;
      var rest := xs[1..];
      forall k ensures HasIndex(rest, k) <==> base + 1 <= k < base + 1 + (n - 1) {
        if HasIndex(rest, k) {
          var j :| 0 <= j < |rest| && rest[j].index == k;
          assert xs[j + 1].index == k;
          assert HasIndex(xs, k);
        }
        if base + 1 <= k < base + n {
          assert HasIndex(xs, k);
          var j :| 0 <= j < |xs| && xs[j].index == k;
          assert rest[j - 1].index == k;
        }
      }
      SortedIndicesArePositions(rest, base + 1, n - 1);
      assert forall j :: 0 < j < n ==> xs[j] == rest[j - 1];
    }
  }

  function Results(refs: seq<ObjectRef>, completed: seq<nat>): seq<Indexed>
    requires forall i :: i in completed ==> i < |refs|
  {
    seq(|completed|, k requires 0 <= k < |completed| =>
      assert completed[k] in completed; Indexed(completed[k], EntryOf(refs[completed[k]])))
  }

  // The results so far are those of the tasks completed so far.
  ghost predicate Collected(refs: seq<ObjectRef>, completed: seq<nat>, results: seq<Indexed>) {
    (forall i :: i in completed ==> i < |refs|) && results == Results(refs, completed)
  }

  lemma {:induction false} CollectedSnoc(refs: seq<ObjectRef>, completed: seq<nat>, results: seq<Indexed>, i: nat)
    requires i < |refs| && Collected(refs, completed, results)
    ensures Collected(refs, completed + [i], results + [Indexed(i, EntryOf(refs[i]))])
  {
    assert Results(refs, completed + [i]) == Results(refs, completed) + [Indexed(i, EntryOf(refs[i]))];
  }

  lemma {:induction false} ResultsHaveIndex(c: Codec, refs: seq<ObjectRef>, before: Store, b: Batch, xs: seq<Indexed>,
        k: int)
    requires Invariant(c, Jobs(refs), before, b) && AllDone(b)
    requires forall y :: y in xs <==> y in Results(refs, b.completed)
    ensures HasIndex(xs, k) <==> 0 <= k < |refs|
  {
    var results := Results(refs, b.completed);
    if 0 <= k < |refs| {
      assert b.tasks[k].Done?;
      var j :| 0 <= j < |b.completed| && b.completed[j] == k;
      assert results[j] in xs;
      var i :| 0 <= i < |xs| && xs[i] == results[j];
      assert xs[i].index == k;
    }
    if HasIndex(xs, k) {
      var i :| 0 <= i < |xs| && xs[i].index == k;
      assert xs[i] in results;
      var j :| 0 <= j < |results| && results[j] == xs[i];
      assert b.completed[j] in b.completed;
    }
  }

  // Sorting the results by index gives the references mapped in order, in whatever order they finished.
  lemma {:induction false} CollectedInOrder(c: Codec, refs: seq<ObjectRef>, before: Store, b: Batch)
    requires Invariant(c, Jobs(refs), before, b) && AllDone(b)
    ensures var sorted := SortByIndex(Results(refs, b.completed));
            |sorted| == |refs| && forall i :: 0 <= i < |refs| ==> sorted[i].entry == EntryOf(refs[i])
  {
    var xs := Results(refs, b.completed);
    var sorted := SortByIndex(xs);
    SortSorts(xs);
    forall k ensures HasIndex(sorted, k) <==> 0 <= k < 0 + |refs| {
      ResultsHaveIndex(c, refs, before, b, sorted, k);
    }
    SortedIndicesArePositions(sorted, 0, |refs|);
    forall i | 0 <= i < |refs| ensures sorted[i].entry == EntryOf(refs[i]) {
      assert sorted[i] in xs;
    }
  }

  // ----- write_object_entries -----

  // The application's object index: it delivers some bytes, or fails.
  class ObjectIndex {
    // What it has delivered, oldest first, and how often it has failed.
    ghost var log: seq<(ObjectRef, Bytes)>
    ghost var failures: nat

    constructor ()
      ensures log == [] && failures == 0
    {
      log := [];
      failures := 0;
    }

    method LoadObject(ref: ObjectRef) returns (r: Result<Bytes>)
      modifies this
      ensures r.Ok? ==> log == old(log) + [(ref, r.value)] && failures == old(failures)
      ensures r.Err? ==> r.error == Source && log == old(log) && failures == old(failures) + 1
    {
      if * {
        failures := failures + 1;
        return Err(Source);
      }
      var bytes: Bytes := *;
      log := log + [(ref, bytes)];
      r := Ok(bytes);
    }
  }

  // What a task holds, and what a finished task has checked, was delivered for its reference.
  ghost predicate SourcedTask(c: Codec, log: seq<(ObjectRef, Bytes)>, ref: ObjectRef, t: Task) {
    match t
    case Wrote(bytes) => (ref, bytes) in log
    case Done(_) => exists bytes :: (ref, bytes) in log && c.hash(bytes) == ref.sha
    case _ => true
  }

  ghost predicate Sourced(c: Codec, log: seq<(ObjectRef, Bytes)>, refs: seq<ObjectRef>, tasks: seq<Task>) {
    |tasks| == |refs| && forall i :: 0 <= i < |refs| ==> SourcedTask(c, log, refs[i], tasks[i])
  }

  lemma {:induction false} SourcedAfter(c: Codec, log: seq<(ObjectRef, Bytes)>, later: seq<(ObjectRef, Bytes)>,
      refs: seq<ObjectRef>, tasks: seq<Task>, i: nat, t: Task)
    requires Sourced(c, log, refs, tasks) && log <= later && i < |refs| && SourcedTask(c, later, refs[i], t)
    ensures Sourced(c, later, refs, tasks[i := t])
  {
    forall k | 0 <= k < |refs| ensures SourcedTask(c, later, refs[k], tasks[i := t][k]) {
      assert SourcedTask(c, log, refs[k], tasks[k]);
    }
  }

  // A reported mismatch is one between a reference and bytes that were delivered for it.
  ghost predicate MismatchSourced(c: Codec, log: seq<(ObjectRef, Bytes)>, ref: ObjectRef, e: Error)
    requires e.ChecksumMismatch?
  {
    exists bytes :: (ref, bytes) in log && c.hash(bytes) != ref.sha
                    && e == ChecksumMismatch(ObjectKey(ref.sha), ref.sha, c.hash(bytes))
  }

  // An error of a task, or of a batch of them, has its cause: a call that failed, or bytes that do not match.
  ghost predicate HasCause(c: Codec, refs: seq<ObjectRef>, log: seq<(ObjectRef, Bytes)>, e: Error, storageFailed: bool,
      sourceFailed: bool)
  {
    match e
    case Storage => storageFailed
    case Source => sourceFailed
    case ChecksumMismatch(_, _, _) => exists i :: 0 <= i < |refs| && MismatchSourced(c, log, refs[i], e)
    case _ => false
  }

  function Work(tasks: seq<Task>): nat {
    if tasks == [] then 0 else tasks[0].Rank() + Work(tasks[1..])
  }

  lemma {:induction false} WorkAfter(tasks: seq<Task>, i: nat, t: Task)
    requires i < |tasks|
    ensures Work(tasks[i := t]) == Work(tasks) - tasks[i].Rank() + t.Rank()
  {
    if i == 0 {
      assert tasks[0 := t][1..] == tasks[1..];
    } else {
      assert tasks[i := t][1..] == tasks[1..][i - 1 := t];
      WorkAfter(tasks[1..], i - 1, t);
    }
  }

  // Stores a batch passes through: nothing earlier is touched, and only named object keys appear.
  ghost predicate OnlyJobsAdded(jobs: seq<BlobRef>, before: Store, after: Store) {
    && Unchanged(before, after)
    && forall k :: k in after && k !in before ==> exists i :: 0 <= i < |jobs| && jobs[i].key == k
  }

  ghost predicate OnlyJobsAddedSince(jobs: seq<BlobRef>, before: Store, history: seq<Store>, start: nat) {
    forall i :: start <= i < |history| ==> OnlyJobsAdded(jobs, before, history[i])
  }

  lemma {:induction false} OneMoreStore(jobs: seq<BlobRef>, before: Store, history: seq<Store>, next: seq<Store>,
      start: nat, store: Store)
    requires OnlyJobsAddedSince(jobs, before, history, start)
    requires next == history || (next == history + [store] && OnlyJobsAdded(jobs, before, store))
    ensures OnlyJobsAddedSince(jobs, before, next, start)
  {
  }

  lemma {:induction false} InvariantAddsOnlyJobs(c: Codec, jobs: seq<BlobRef>, before: Store, b: Batch)
    requires Invariant(c, jobs, before, b)
    ensures OnlyJobsAdded(jobs, before, b.store)
  {
  }

  // A reported mismatch: its task has failed, and what it had written is gone again.
  ghost predicate MismatchUndone(b: Batch, n: Batch, i: nat, ref: ObjectRef, e: Error)
    requires i < |b.tasks| && e.ChecksumMismatch?
  {
    && n.tasks == b.tasks[i := Failed]
    && (b.tasks[i].Wrote? ==> ObjectKey(ref.sha) !in n.store)
    && e.key == ObjectKey(ref.sha) && e.expected == ref.sha && e.actual != ref.sha
  }

  lemma {:induction false} DeliveredLast(log: seq<(ObjectRef, Bytes)>, last: (ObjectRef, Bytes), start: nat)
    requires start < |log| && log[|log| - 1] == last
    ensures last in log[start..]
  {
    assert log[start..][|log| - 1 - start] == last;
  }

  // A task's first step: read the source and put the bytes if the key is absent.
  method PutTask(c: Codec, repository: Repository, source: ObjectIndex, ref: ObjectRef, ghost jobs: seq<BlobRef>,
        i: nat, ghost before: Store, ghost b: Batch, ghost start: nat)
    returns (r: Result<Task>, ghost n: Batch)
    requires start <= |source.log|
    requires repository.Valid() && Invariant(c, jobs, before, b) && b.store == repository.blobs
    requires i < |jobs| && jobs[i] == BlobRef(ObjectKey(ref.sha), ref.sha) && b.tasks[i].Ready?
    modifies repository, source
    ensures old(source.log) <= source.log
    ensures repository.failures >= old(repository.failures) && source.failures >= old(source.failures)
    ensures r.Ok? ==> SourcedTask(c, source.log[start..], ref, r.value)
    ensures r.Err? ==> HasCause(c, [ref], source.log[start..], r.error,
                                repository.failures > old(repository.failures), source.failures > old(source.failures))
    ensures repository.Valid() && Invariant(c, jobs, before, n) && n.store == repository.blobs
    ensures repository.history == old(repository.history) || repository.history == old(repository.history) + [n.store]
    ensures n.completed == b.completed && n.tasks == b.tasks[i := if r.Ok? then r.value else Failed]
    ensures r.Err? ==> !r.error.ChecksumMismatch?
    ensures r.Ok? ==> r.value.Wrote? || r.value.Found?
  {
    StepKeepsInvariant(c, jobs, before, b, Fail(i));
    n := Step(c, jobs, b, Fail(i));
    var bytes :- source.LoadObject(ref);
    DeliveredLast(source.log, (ref, bytes), start);
    var written :- repository.PutBlobIfAbsent(ObjectKey(ref.sha), bytes);
    StepKeepsInvariant(c, jobs, before, b, Put(i, bytes));
    n := Step(c, jobs, b, Put(i, bytes));
    r := Ok(if written then Wrote(bytes) else Found);
  }

  // A task's second step: hash what it wrote, or the source again if it found the key taken; on a
  // mismatch it deletes what it wrote.
  method SettleTask(c: Codec, repository: Repository, source: ObjectIndex, ref: ObjectRef, task: Task,
        ghost jobs: seq<BlobRef>, i: nat, ghost before: Store, ghost b: Batch, ghost start: nat)
    returns (r: Result<Task>, ghost n: Batch)
    requires start <= |source.log| && SourcedTask(c, source.log[start..], ref, task)
    requires repository.Valid() && Invariant(c, jobs, before, b) && b.store == repository.blobs
    requires i < |jobs| && jobs[i] == BlobRef(ObjectKey(ref.sha), ref.sha)
    requires b.tasks[i] == task && (task.Wrote? || task.Found?)
    modifies repository, source
    ensures old(source.log) <= source.log
    ensures repository.failures >= old(repository.failures) && source.failures >= old(source.failures)
    ensures r.Ok? ==> SourcedTask(c, source.log[start..], ref, r.value)
    ensures r.Err? ==> HasCause(c, [ref], source.log[start..], r.error,
                                repository.failures > old(repository.failures), source.failures > old(source.failures))
    ensures repository.Valid() && Invariant(c, jobs, before, n) && n.store == repository.blobs
    ensures repository.history == old(repository.history) || repository.history == old(repository.history) + [n.store]
    ensures r.Ok? ==> r.value.Done? && n.tasks == b.tasks[i := r.value] && n.completed == b.completed + [i]
    ensures r.Err? ==> |n.tasks| == |b.tasks| && !n.tasks[i].Done?
    ensures r.Err? && r.error.ChecksumMismatch? ==> MismatchUndone(b, n, i, ref, r.error)
  {
    n := b;
    var reloaded: Bytes := [];
    if task.Found? {
      StepKeepsInvariant(c, jobs, before, b, Fail(i));
      n := Step(c, jobs, b, Fail(i));
      reloaded :- source.LoadObject(ref);
      DeliveredLast(source.log, (ref, reloaded), start);
    }
    ghost var hashed := if task.Wrote? then task.bytes else reloaded;
    assert (ref, hashed) in source.log[start..];
    var actual := c.hash(if task.Wrote? then task.bytes else reloaded);
    if actual != ref.sha {
      if task.Wrote? {
        StepKeepsInvariant(c, jobs, before, b, Fail(i));
        n := Step(c, jobs, b, Fail(i));
        var _ :- repository.DeleteBlob(ObjectKey(ref.sha));
      }
      StepKeepsInvariant(c, jobs, before, b, Settle(i, reloaded));
      n := Step(c, jobs, b, Settle(i, reloaded));
      assert MismatchSourced(c, source.log[start..], [ref][0], ChecksumMismatch(ObjectKey(ref.sha), ref.sha, actual));
      return Err(ChecksumMismatch(ObjectKey(ref.sha), ref.sha, actual)), n;
    }
    StepKeepsInvariant(c, jobs, before, b, Settle(i, reloaded));
    n := Step(c, jobs, b, Settle(i, reloaded));
    r := Ok(Done(task.Own()));
  }

  method AdvanceTask(c: Codec, repository: Repository, source: ObjectIndex, ref: ObjectRef, task: Task,
        ghost jobs: seq<BlobRef>, i: nat, ghost before: Store, ghost b: Batch, ghost start: nat)
    returns (r: Result<Task>, ghost n: Batch)
    requires start <= |source.log| && SourcedTask(c, source.log[start..], ref, task)
    requires repository.Valid() && Invariant(c, jobs, before, b) && b.store == repository.blobs
    requires i < |jobs| && jobs[i] == BlobRef(ObjectKey(ref.sha), ref.sha)
    requires b.tasks[i] == task && (task.Ready? || task.Wrote? || task.Found?)
    modifies repository, source
    ensures old(source.log) <= source.log
    ensures repository.failures >= old(repository.failures) && source.failures >= old(source.failures)
    ensures r.Ok? ==> SourcedTask(c, source.log[start..], ref, r.value)
    ensures r.Err? ==> HasCause(c, [ref], source.log[start..], r.error,
                                repository.failures > old(repository.failures), source.failures > old(source.failures))
    ensures repository.Valid() && Invariant(c, jobs, before, n) && n.store == repository.blobs
    ensures repository.history == old(repository.history) || repository.history == old(repository.history) + [n.store]
    ensures OnlyJobsAdded(jobs, before, n.store)
    ensures r.Ok? ==> n.tasks == b.tasks[i := r.value] && r.value.Rank() < task.Rank()
    ensures r.Ok? ==> r.value.Wrote? || r.value.Found? || r.value.Done?
    ensures r.Ok? ==> n.completed == if r.value.Done? then b.completed + [i] else b.completed
    ensures r.Err? ==> |n.tasks| == |b.tasks| && !n.tasks[i].Done?
    ensures r.Err? && r.error.ChecksumMismatch? ==> MismatchUndone(b, n, i, ref, r.error)
  {
    if task.Ready? {
      r, n := PutTask(c, repository, source, ref, jobs, i, before, b, start);
    } else {
      r, n := SettleTask(c, repository, source, ref, task, jobs, i, before, b, start);
    }
    InvariantAddsOnlyJobs(c, jobs, before, n);
  }

  // A batch that reports a mismatch names a failed task, and no undo has failed.
  ghost predicate MismatchReported(refs: seq<ObjectRef>, b: Batch, e: Error)
    requires e.ChecksumMismatch?
  {
    && |b.tasks| == |refs|
    && (exists i :: 0 <= i < |refs| && b.tasks[i].Failed? && e.key == ObjectKey(refs[i].sha)
                    && e.expected == refs[i].sha && e.actual != refs[i].sha)
    && forall i :: 0 <= i < |refs| ==> !b.tasks[i].Stranded?
  }

  // Every task is done or live, and the pending ones are the live ones.
  ghost predicate Tracks(tasks: seq<Task>, pending: set<nat>) {
    && (forall i :: i in pending <==> 0 <= i < |tasks| && !tasks[i].Done?)
    && (forall i :: 0 <= i < |tasks| ==> tasks[i].Live() || tasks[i].Done?)
  }

  lemma {:induction false} TracksAfter(tasks: seq<Task>, pending: set<nat>, i: nat, t: Task)
    requires Tracks(tasks, pending) && i in pending && (t.Live() || t.Done?)
    ensures Tracks(tasks[i := t], if t.Done? then pending - {i} else pending)
  {
  }

  lemma {:induction false} MismatchIsReported(refs: seq<ObjectRef>, b: Batch, n: Batch, i: nat, e: Error)
    requires i < |refs| == |b.tasks| && (e.ChecksumMismatch? ==> MismatchUndone(b, n, i, refs[i], e))
    requires forall j :: 0 <= j < |refs| ==> !b.tasks[j].Stranded?
    ensures e.ChecksumMismatch? ==> MismatchReported(refs, n, e)
  {
    if e.ChecksumMismatch? {
      assert n.tasks[i].Failed?;
    }
  }

  lemma {:induction false} CauseOfOne(c: Codec, refs: seq<ObjectRef>, i: nat, log: seq<(ObjectRef, Bytes)>, e: Error,
      storage: bool, source: bool)
    requires i < |refs| && HasCause(c, [refs[i]], log, e, storage, source)
    ensures HasCause(c, refs, log, e, storage, source)
  {
  }

  lemma {:induction false} DeliveredSince(log: seq<(ObjectRef, Bytes)>, later: seq<(ObjectRef, Bytes)>, start: nat)
    requires log <= later && start <= |log|
    ensures log[start..] <= later[start..]
  {
  }

  // A batch under way, between two advances.
  ghost predicate Driving(c: Codec, refs: seq<ObjectRef>, before: Store, b: Batch, tasks: seq<Task>, pending: set<nat>,
      results: seq<Indexed>, log: seq<(ObjectRef, Bytes)>)
  {
    && Invariant(c, Jobs(refs), before, b) && b.tasks == tasks
    && Tracks(tasks, pending) && Sourced(c, log, refs, tasks)
    && Collected(refs, b.completed, results)
  }

  lemma {:induction false} NothingDrivenYet(c: Codec, refs: seq<ObjectRef>, before: Store)
    ensures Driving(c, refs, before, Start(before, Jobs(refs)), seq(|refs|, _ => Ready), UpTo(|refs|), [], [])
  {
    StartIsInvariant(c, Jobs(refs), before);
  }

  lemma {:induction false} DrivenOn(c: Codec, refs: seq<ObjectRef>, before: Store, b: Batch, n: Batch,
      tasks: seq<Task>, pending: set<nat>, results: seq<Indexed>, log: seq<(ObjectRef, Bytes)>,
      later: seq<(ObjectRef, Bytes)>, i: nat, t: Task)
    requires Driving(c, refs, before, b, tasks, pending, results, log) && i in pending && i < |refs| && log <= later
    requires Invariant(c, Jobs(refs), before, n) && n.tasks == tasks[i := t]
    requires n.completed == if t.Done? then b.completed + [i] else b.completed
    requires SourcedTask(c, later, refs[i], t) && (t.Live() || t.Done?)
    ensures if t.Done?
            then Driving(c, refs, before, n, tasks[i := t], pending - {i},
                         results + [Indexed(i, EntryOf(refs[i]))], later)
            else Driving(c, refs, before, n, tasks[i := t], pending, results, later)
  {
    TracksAfter(tasks, pending, i, t);
    SourcedAfter(c, log, later, refs, tasks, i, t);
    CollectedSnoc(refs, b.completed, results, i);
  }

  // Where a batch stands: its tasks, the ones not yet done, and the results so far.
  datatype Standing = Standing(tasks: seq<Task>, pending: set<nat>, results: seq<Indexed>)

  // One atomic step of any task that is not done.
  method AdvanceAny(c: Codec, repository: Repository, source: ObjectIndex, refs: seq<ObjectRef>, p: Standing,
        ghost before: Store, ghost b: Batch, ghost start: nat)
    returns (r: Result<Standing>, ghost n: Batch)
    requires repository.Valid() && b.store == repository.blobs && start <= |source.log| && p.pending != {}
    requires Driving(c, refs, before, b, p.tasks, p.pending, p.results, source.log[start..])
    modifies repository, source
    ensures old(source.log) <= source.log
    ensures repository.failures >= old(repository.failures) && source.failures >= old(source.failures)
    ensures repository.Valid() && n.store == repository.blobs && Invariant(c, Jobs(refs), before, n)
    ensures repository.history == old(repository.history) || repository.history == old(repository.history) + [n.store]
    ensures OnlyJobsAdded(Jobs(refs), before, n.store)
    ensures r.Ok? ==>
              && Driving(c, refs, before, n, r.value.tasks, r.value.pending, r.value.results, source.log[start..])
              && Work(r.value.tasks) < Work(p.tasks)
    ensures r.Err? ==> !AllDone(n)
    ensures r.Err? ==> HasCause(c, refs, source.log[start..], r.error, repository.failures > old(repository.failures),
                                source.failures > old(source.failures))
    ensures r.Err? && r.error.ChecksumMismatch? ==> MismatchReported(refs, n, r.error)
  {
    var i :| i in p.pending;
    var next;
    next, n := AdvanceTask(c, repository, source, refs[i], p.tasks[i], Jobs(refs), i, before, b, start);
    if next.Err? {
      CauseOfOne(c, refs, i, source.log[start..], next.error, repository.failures > old(repository.failures),
                 source.failures > old(source.failures));
      assert !n.tasks[i].Done?;
      MismatchIsReported(refs, b, n, i, next.error);
      return Err(next.error), n;
    }
    var t := next.value;
    WorkAfter(p.tasks, i, t);
    DeliveredSince(old(source.log), source.log, start);
    DrivenOn(c, refs, before, b, n, p.tasks, p.pending, p.results, old(source.log)[start..], source.log[start..], i, t);
    r := Ok(if t.Done?
            then Standing(p.tasks[i := t], p.pending - {i}, p.results + [Indexed(i, EntryOf(refs[i]))])
            else Standing(p.tasks[i := t], p.pending, p.results));
  }

  lemma {:induction false} CauseLasts(c: Codec, refs: seq<ObjectRef>, log: seq<(ObjectRef, Bytes)>, e: Error,
      storage: bool, source: bool, storageEver: bool, sourceEver: bool)
    requires HasCause(c, refs, log, e, storage, source)
    requires (storage ==> storageEver) && (source ==> sourceEver)
    ensures HasCause(c, refs, log, e, storageEver, sourceEver)
  {
  }

  // Tasks advance in any order until all are done or one fails; the first failure drops the rest where they
  // stand. `b` is the state the batch stopped in.
  method DriveTasks(c: Codec, repository: Repository, source: ObjectIndex, refs: seq<ObjectRef>)
    returns (r: Result<seq<Indexed>>, ghost b: Batch)
    requires repository.Valid()
    modifies repository, source
    ensures old(source.log) <= source.log
    ensures repository.failures >= old(repository.failures) && source.failures >= old(source.failures)
    ensures r.Ok? ==> Sourced(c, source.log[|old(source.log)|..], refs, b.tasks)
    ensures r.Err? ==> HasCause(c, refs, source.log[|old(source.log)|..], r.error,
                                repository.failures > old(repository.failures), source.failures > old(source.failures))
    ensures repository.Valid() && old(repository.history) <= repository.history
    ensures Invariant(c, Jobs(refs), old(repository.blobs), b) && b.store == repository.blobs
    ensures r.Ok? <==> AllDone(b)
    ensures r.Ok? ==> r.value == Results(refs, b.completed)
    ensures r.Err? && r.error.ChecksumMismatch? ==> MismatchReported(refs, b, r.error)
    ensures OnlyJobsAddedSince(Jobs(refs), old(repository.blobs), repository.history, |old(repository.history)|)
  {
    ghost var before, start := repository.blobs, |source.log|;
    var p := Standing(seq(|refs|, _ => Ready), UpTo(|refs|), []);
    b := Start(before, Jobs(refs));
    NothingDrivenYet(c, refs, before);
    while p.pending != {}
      invariant repository.Valid() && old(repository.history) <= repository.history && b.store == repository.blobs
      invariant old(source.log) <= source.log
      invariant Driving(c, refs, before, b, p.tasks, p.pending, p.results, source.log[start..])
      invariant repository.failures >= old(repository.failures) && source.failures >= old(source.failures)
      invariant OnlyJobsAddedSince(Jobs(refs), before, repository.history, |old(repository.history)|)
      decreases Work(p.tasks)
    {
      ghost var stores, failed := repository.history, (repository.failures, source.failures);
      var next;
      next, b := AdvanceAny(c, repository, source, refs, p, before, b, start);
      OneMoreStore(Jobs(refs), before, stores, repository.history, |old(repository.history)|, b.store);
      if next.Err? {
        CauseLasts(c, refs, source.log[start..], next.error, repository.failures > failed.0,
                   source.failures > failed.1, repository.failures > old(repository.failures),
                   source.failures > old(source.failures));
        return Err(next.error), b;
      }
      p := next.value;
    }
    r := Ok(p.results);
  }

  method WriteObjectEntries(c: Codec, repository: Repository, source: ObjectIndex, refs: seq<ObjectRef>)
    returns (r: Result<seq<ObjectEntry>>, ghost b: Batch)
    requires repository.Valid()
    modifies repository, source
    ensures old(source.log) <= source.log
    ensures repository.failures >= old(repository.failures) && source.failures >= old(source.failures)
    ensures r.Ok? ==> forall i :: 0 <= i < |refs| ==> exists bytes ::
              (refs[i], bytes) in source.log[|old(source.log)|..] && c.hash(bytes) == refs[i].sha
    ensures r.Err? ==> HasCause(c, refs, source.log[|old(source.log)|..], r.error,
                                repository.failures > old(repository.failures), source.failures > old(source.failures))
    ensures repository.Valid() && old(repository.history) <= repository.history
    ensures Invariant(c, Jobs(refs), old(repository.blobs), b) && b.store == repository.blobs
    ensures r.Ok? <==> AllDone(b)
    ensures r.Ok? ==> r.value == Entries(refs)
    ensures r.Err? && r.error.ChecksumMismatch? ==> MismatchReported(refs, b, r.error)
    ensures r.Ok? ==> ObjectsWritten(c, Jobs(refs), old(repository.blobs), repository.blobs)
    ensures OnlyJobsAddedSince(Jobs(refs), old(repository.blobs), repository.history, |old(repository.history)|)
  {
    ghost var before := repository.blobs;
    var results;
    results, b := DriveTasks(c, repository, source, refs);
    if results.Err? {
      return Err(results.error), b;
    }
    forall i | 0 <= i < |refs|
      ensures exists bytes :: (refs[i], bytes) in source.log[|old(source.log)|..] && c.hash(bytes) == refs[i].sha
    {
      assert SourcedTask(c, source.log[|old(source.log)|..], refs[i], b.tasks[i]) && b.tasks[i].Done?;
    }
    AllDoneMeansWritten(c, Jobs(refs), before, b);
    CollectedInOrder(c, refs, before, b);
    var sorted := SortByIndex(results.value);
    var entries := seq(|sorted|, i requires 0 <= i < |sorted| => sorted[i].entry);
    assert entries == Entries(refs);
    r := Ok(entries);
  }

  function UpTo(n: nat): (s: set<nat>)
    ensures forall i :: i in s <==> 0 <= i < n
  {
    if n == 0 then {} else UpTo(n - 1) + {n - 1}
  }
}
