// Restoring objects: each is handed to the application first and its hash is compared afterwards.
module ObjectRestore {
  import opened Types
  import opened Repositories
  import opened Verification

  // What the application has read of one object.
  datatype Delivery = Delivery(ref: ObjectRef, bytes: Bytes)

  // object_ref_from_entry
  function RefOf(entry: ObjectEntry): ObjectRef {
    ObjectRef(entry.objectId, entry.storageKey, entry.sha, entry.sizeBytes, entry.mimeType)
  }

  // The application's side. It may stop reading anywhere, and may refuse an object after reading it.
  class ObjectSink {
    var received: seq<Delivery>
    // How many objects it has refused.
    ghost var refusals: nat

    constructor ()
      ensures received == [] && refusals == 0
    {
      received := [];
      refusals := 0;
    }

    method RestoreObjectStream(ref: ObjectRef, body: Bytes) returns (r: Result<()>, read: Bytes)
      modifies this
      ensures read <= body && received == old(received) + [Delivery(ref, read)]
      ensures r.Err? ==> r.error == Sink
      ensures refusals == if r.Ok? then old(refusals) else old(refusals) + 1
    {
      var n :| 0 <= n <= |body|;
      read := body[..n];
      received := received + [Delivery(ref, read)];
      r := Ok(());
      if * {
        refusals := refusals + 1;
        r := Err(Sink);
      }
    }
  }

  ghost predicate Matches(c: Codec, d: Delivery) {
    c.hash(d.bytes) == d.ref.sha
  }

  ghost predicate AllMatch(c: Codec, delivered: seq<Delivery>) {
    forall i :: 0 <= i < |delivered| ==> Matches(c, delivered[i])
  }

  // The objects handed out are the first ones of the manifest, in order.
  ghost predicate HandsOut(store: Store, objects: seq<ObjectEntry>, delivered: seq<Delivery>) {
    && |delivered| <= |objects|
    && forall i :: 0 <= i < |delivered| ==>
         && delivered[i].ref == RefOf(objects[i])
         && objects[i].contentKey in store
         && delivered[i].bytes <= store[objects[i].contentKey]
  }

  // How a restore of objects can end. All but the last object handed out match their hashes; the last one need not.
  ghost predicate Delivers(c: Codec, store: Store, objects: seq<ObjectEntry>, delivered: seq<Delivery>, r: Result<()>) {
    && HandsOut(store, objects, delivered)
    && var n := |delivered|;
       match r
       case Ok(_) => n == |objects| && AllMatch(c, delivered)
       case Err(MissingBlob(key)) =>
         n < |objects| && key == objects[n].contentKey && key !in store && AllMatch(c, delivered)
       case Err(ChecksumMismatch(key, expected, actual)) =>
         && n > 0 && AllMatch(c, delivered[..n - 1]) && !Matches(c, delivered[n - 1])
         && key == objects[n - 1].contentKey && expected == objects[n - 1].sha
         && actual == c.hash(delivered[n - 1].bytes)
       case Err(e) => e == Sink && n > 0 && AllMatch(c, delivered[..n - 1])
  }

  lemma {:induction false} OneMoreHandedOut(c: Codec, store: Store, objects: seq<ObjectEntry>,
      delivered: seq<Delivery>, read: Bytes)
    requires HandsOut(store, objects, delivered) && AllMatch(c, delivered) && |delivered| < |objects|
    requires var key := objects[|delivered|].contentKey; key in store && read <= store[key]
    ensures var d := Delivery(RefOf(objects[|delivered|]), read);
            && HandsOut(store, objects, delivered + [d])
            && (delivered + [d])[..|delivered|] == delivered
            && (AllMatch(c, delivered + [d]) <==> Matches(c, d))
  {
    var d := Delivery(RefOf(objects[|delivered|]), read);
    assert (delivered + [d])[|delivered|] == d;
  }

  // restore_objects
  method RestoreObjects(c: Codec, repository: Repository, m: Manifest, sink: ObjectSink)
    returns (r: Result<()>, ghost delivered: seq<Delivery>)
    modifies sink
    ensures sink.received == old(sink.received) + delivered
    ensures sink.refusals >= old(sink.refusals) && (r == Err(Sink) ==> sink.refusals > old(sink.refusals))
    ensures Delivers(c, repository.blobs, m.objects, delivered, r)
  {
    delivered := [];
    for i := 0 to |m.objects|
      invariant |delivered| == i && HandsOut(repository.blobs, m.objects, delivered) && AllMatch(c, delivered)
      invariant sink.received == old(sink.received) + delivered && sink.refusals == old(sink.refusals)
    {
      var entry := m.objects[i];
      var source := repository.GetBlob(entry.contentKey);
      if source.Err? {
        return Err(source.error), delivered;
      }
      var taken, read := sink.RestoreObjectStream(RefOf(entry), source.value);
      ghost var before := delivered;
      delivered := delivered + [Delivery(RefOf(entry), read)];
      OneMoreHandedOut(c, repository.blobs, m.objects, before, read);
      if taken.Err? {
        return taken, delivered;
      }
      var actual := c.hash(read);
      if actual != entry.sha {
        return Err(ChecksumMismatch(entry.contentKey, entry.sha, actual)), delivered;
      }
    }
    r := Ok(());
  }

  // The application reads every object to its end.
  ghost predicate ReadInFull(store: Store, objects: seq<ObjectEntry>, delivered: seq<Delivery>) {
    |delivered| <= |objects| &&
    forall i :: 0 <= i < |delivered| ==> Get(store, objects[i].contentKey) == Ok(delivered[i].bytes)
  }

  function RefAt(objects: seq<ObjectEntry>, i: nat): BlobRef
    requires i < |objects|
  {
    BlobRef(objects[i].contentKey, objects[i].sha)
  }

  // The first object that does not verify, if any, is missing rather than altered.
  ghost predicate NoneAltered(c: Codec, store: Store, objects: seq<ObjectEntry>) {
    forall i :: 0 <= i < |objects| && objects[i].contentKey in store
                && (forall j :: 0 <= j < i ==> VerifyBlob(c, store, RefAt(objects, j)).Ok?) ==>
      VerifyBlob(c, store, RefAt(objects, i)).Ok?
  }

  // Whatever happens, an application that reads to the end is handed bytes with the declared hashes only.
  ghost predicate OnlyVerifiedIsDelivered(c: Codec, store: Store, objects: seq<ObjectEntry>) {
    forall delivered, r :: Delivers(c, store, objects, delivered, r) && ReadInFull(store, objects, delivered) ==>
      AllMatch(c, delivered)
  }

  function Stored(store: Store, objects: seq<ObjectEntry>, n: nat): seq<Delivery>
    requires n <= |objects| && forall i :: 0 <= i < n ==> objects[i].contentKey in store
  {
    seq(n, i requires 0 <= i < n => Delivery(RefOf(objects[i]), store[objects[i].contentKey]))
  }

  lemma {:induction false} AlteredIsDelivered(c: Codec, store: Store, objects: seq<ObjectEntry>, i: nat)
    returns (delivered: seq<Delivery>, r: Result<()>)
    requires i < |objects| && objects[i].contentKey in store && VerifyBlob(c, store, RefAt(objects, i)).Err?
    requires forall j :: 0 <= j < i ==> VerifyBlob(c, store, RefAt(objects, j)).Ok?
    ensures Delivers(c, store, objects, delivered, r) && ReadInFull(store, objects, delivered)
    ensures |delivered| == i + 1 && !Matches(c, delivered[i])
  {
    assert forall j :: 0 <= j < i ==> VerifyBlob(c, store, RefAt(objects, j)).Ok? && objects[j].contentKey in store;
    delivered := Stored(store, objects, i + 1);
    var actual := c.hash(store[objects[i].contentKey]);
    r := Err(ChecksumMismatch(objects[i].contentKey, objects[i].sha, actual));
    assert delivered[i] == Delivery(RefOf(objects[i]), store[objects[i].contentKey]);
    assert AllMatch(c, delivered[..i]);
  }

  // Only verified bytes are delivered exactly when no object in front of a missing one is altered.
  lemma {:induction false} OnlyVerifiedIsDeliveredIff(c: Codec, store: Store, objects: seq<ObjectEntry>)
    ensures OnlyVerifiedIsDelivered(c, store, objects) <==> NoneAltered(c, store, objects)
  {
    if !NoneAltered(c, store, objects) {
      var i :| 0 <= i < |objects| && objects[i].contentKey in store
               && (forall j :: 0 <= j < i ==> VerifyBlob(c, store, RefAt(objects, j)).Ok?)
               && VerifyBlob(c, store, RefAt(objects, i)).Err?;
      var delivered, r := AlteredIsDelivered(c, store, objects, i);
    } else {
      forall delivered, r | Delivers(c, store, objects, delivered, r) && ReadInFull(store, objects, delivered)
        ensures AllMatch(c, delivered)
      {
        LastDeliveredMatches(c, store, objects, delivered, r);
      }
    }
  }

  lemma {:induction false} LastDeliveredMatches(c: Codec, store: Store, objects: seq<ObjectEntry>,
      delivered: seq<Delivery>, r: Result<()>)
    requires NoneAltered(c, store, objects)
    requires Delivers(c, store, objects, delivered, r) && ReadInFull(store, objects, delivered)
    ensures AllMatch(c, delivered)
  {
    var n := |delivered| - 1;
    if n >= 0 {
      AllButLastMatch(c, store, objects, delivered, r);
      forall j | 0 <= j < n ensures VerifyBlob(c, store, RefAt(objects, j)).Ok? {
        VerifiedIsMatched(c, store, objects, delivered, j);
      }
      assert VerifyBlob(c, store, RefAt(objects, n)).Ok?;
      VerifiedIsMatched(c, store, objects, delivered, n);
    }
  }

  lemma {:induction false} AllButLastMatch(c: Codec, store: Store, objects: seq<ObjectEntry>, delivered: seq<Delivery>,
      r: Result<()>)
    requires Delivers(c, store, objects, delivered, r)
    ensures forall j :: 0 <= j < |delivered| - 1 ==> Matches(c, delivered[j])
  {
    var n := |delivered|;
    if n > 0 && r.Err? && !r.error.MissingBlob? {
      forall j | 0 <= j < n - 1 ensures Matches(c, delivered[j]) {
        assert delivered[..n - 1][j] == delivered[j];
      }
    }
  }

  lemma {:induction false} VerifiedIsMatched(c: Codec, store: Store, objects: seq<ObjectEntry>,
      delivered: seq<Delivery>, i: nat)
    requires HandsOut(store, objects, delivered) && ReadInFull(store, objects, delivered) && i < |delivered|
    ensures objects[i].contentKey in store
    ensures VerifyBlob(c, store, RefAt(objects, i)).Ok? <==> Matches(c, delivered[i])
  {
    assert Get(store, objects[i].contentKey) == Ok(delivered[i].bytes);
  }

  // The objects of a complete manifest are all handed out with the declared hashes, unless the application
  // refuses one.
  lemma {:induction false} CompleteObjectsAreDelivered(c: Codec, store: Store, m: Manifest,
      delivered: seq<Delivery>, r: Result<()>)
    requires Complete(c, store, m)
    requires Delivers(c, store, m.objects, delivered, r) && ReadInFull(store, m.objects, delivered)
    ensures AllMatch(c, delivered)
    ensures r.Ok? || r.error == Sink
    ensures r.Ok? ==> delivered == Stored(store, m.objects, |m.objects|)
  {
    forall i | 0 <= i < |m.objects| ensures VerifyBlob(c, store, RefAt(m.objects, i)).Ok? {
      assert Refs(m)[i] == RefAt(m.objects, i);
    }
    LastDeliveredMatches(c, store, m.objects, delivered, r);
    var n := |delivered|;
    if n < |m.objects| {
      assert VerifyBlob(c, store, RefAt(m.objects, n)).Ok?;
    }
    if n > 0 {
      assert Matches(c, delivered[n - 1]);
    }
  }

  // An altered object reaches the application before the mismatch is reported.
  lemma {:induction false} AlteredObjectReachesTheApplication(c: Codec, entry: ObjectEntry, altered: Bytes)
    requires c.hash(altered) != entry.sha
    ensures Delivers(c, map[entry.contentKey := altered], [entry], [Delivery(RefOf(entry), altered)],
                     Err(ChecksumMismatch(entry.contentKey, entry.sha, c.hash(altered))))
  {
    assert [Delivery(RefOf(entry), altered)][..0] == [];
  }
}
