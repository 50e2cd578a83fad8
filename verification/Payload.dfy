// JSON Lines payloads: one encoded entry per line, compressed as a whole.
module Payload {
  import opened Types

  function Jsonl<T(!new)>(k: EntryCodec<T>, entries: seq<T>): Bytes {
    if entries == [] then []
    else k.encode(entries[0]) + [NEWLINE] + Jsonl(k, entries[1..])
  }

  function Encode<T(!new)>(c: Codec, k: EntryCodec<T>, entries: seq<T>): Bytes {
    c.compress(Jsonl(k, entries))
  }

  // serialize_jsonl_entries: the encoder is fed one line per entry and then finished.
  method SerializeEntries<T(!new)>(c: Codec, k: EntryCodec<T>, entries: seq<T>) returns (bytes: Bytes)
    ensures bytes == Encode(c, k, entries)
  {
    var encoder: Bytes := [];
    assert entries[0..] == entries;
    for i := 0 to |entries|
      invariant encoder + Jsonl(k, entries[i..]) == Jsonl(k, entries)
    {
      ghost var before := encoder;
      encoder := encoder + k.encode(entries[i]);
      encoder := encoder + [NEWLINE];
      assert entries[i..][1..] == entries[i + 1..];
      assert encoder + Jsonl(k, entries[i + 1..])
          == before + (k.encode(entries[i]) + [NEWLINE] + Jsonl(k, entries[i + 1..]));
    }
    assert encoder == Jsonl(k, entries);
    bytes := c.compress(encoder);
  }

  // The length of the first line.
  function LineLength(payload: Bytes): (n: nat)
    ensures n <= |payload| && forall i :: 0 <= i < n ==> payload[i] != NEWLINE
    ensures n < |payload| ==> payload[n] == NEWLINE
  {
    if payload == [] || payload[0] == NEWLINE then 0 else 1 + LineLength(payload[1..])
  }

  // The pieces between newlines; a trailing newline leaves an empty last piece.
  function Lines(payload: Bytes): seq<Bytes>
    decreases |payload|
  {
    var n := LineLength(payload);
    if n == |payload| then [payload] else [payload[..n]] + Lines(payload[n + 1..])
  }

  // The lines with newlines between them.
  function Joined(lines: seq<Bytes>): Bytes
    requires lines != []
  {
    if |lines| == 1 then lines[0] else lines[0] + [NEWLINE] + Joined(lines[1..])
  }

  // Splitting loses nothing and cuts at every newline, byte 10.
  lemma {:induction false} LinesAreSplit(payload: Bytes)
    ensures Lines(payload) != [] && Joined(Lines(payload)) == payload && NEWLINE == 10
    ensures forall i :: 0 <= i < |Lines(payload)| ==> NEWLINE !in Lines(payload)[i]
    decreases |payload|
  {
    var n := LineLength(payload);
    if n == |payload| {
      assert Lines(payload) == [payload];
    } else {
      LinesAreSplit(payload[n + 1..]);
      JoinedCons(payload[..n], Lines(payload[n + 1..]));
      assert payload == payload[..n] + [NEWLINE] + payload[n + 1..];
    }
  }

  lemma {:induction false} JoinedCons(line: Bytes, rest: seq<Bytes>)
    requires rest != []
    ensures Joined([line] + rest) == line + [NEWLINE] + Joined(rest)
  {
    assert ([line] + rest)[1..] == rest;
  }

  // Empty lines are skipped; the first entry that does not decode fails the payload.
  function ParseLines<T(!new)>(k: EntryCodec<T>, lines: seq<Bytes>): Result<seq<T>> {
    if lines == [] then Ok([])
    else if lines[0] == [] then ParseLines(k, lines[1..])
    else
      match k.decode(lines[0])
      case None => Err(Serialization)
      case Some(entry) =>
        var rest :- ParseLines(k, lines[1..]);
        Ok([entry] + rest)
  }

  function NonEmpty(lines: seq<Bytes>): seq<Bytes> {
    if lines == [] then []
    else (if lines[0] == [] then [] else [lines[0]]) + NonEmpty(lines[1..])
  }

  // A payload parses exactly when every line that is not empty decodes, and then its entries are what these lines
  // decode to, in order.
  lemma {:induction false} ParsesIff<T(!new)>(k: EntryCodec<T>, lines: seq<Bytes>)
    ensures ParseLines(k, lines).Ok? <==> forall i :: 0 <= i < |lines| && lines[i] != [] ==> k.decode(lines[i]).Some?
    ensures ParseLines(k, lines).Ok? ==>
              var entries, filled := ParseLines(k, lines).value, NonEmpty(lines);
              |entries| == |filled| && forall i :: 0 <= i < |filled| ==> k.decode(filled[i]) == Some(entries[i])
    ensures ParseLines(k, lines).Err? ==> ParseLines(k, lines).error == Serialization
  {
    if lines == [] {
    } else {
      ParsesIff(k, lines[1..]);
      assert forall i :: 0 < i < |lines| ==> lines[i] == lines[1..][i - 1];
      if lines[0] != [] && ParseLines(k, lines).Ok? {
        var entries, filled := ParseLines(k, lines).value, NonEmpty(lines);
        forall i | 0 <= i < |filled| ensures k.decode(filled[i]) == Some(entries[i]) {
          assert i > 0 ==> filled[i] == NonEmpty(lines[1..])[i - 1];
        }
      }
    }
  }

  // What is left to return once `done` has been parsed and `rest` is the outcome for the remainder.
  function Onto<T>(done: seq<T>, rest: Result<seq<T>>): Result<seq<T>> {
    match rest
    case Ok(more) => Ok(done + more)
    case Err(e) => Err(e)
  }

  lemma {:induction false} OntoUnit<T>(done: seq<T>, rest: Result<seq<T>>)
    ensures Onto([], rest) == rest && Onto(done, Ok([])) == Ok(done)
  {
    assert done + [] == done;
    assert rest.Ok? ==> [] + rest.value == rest.value;
  }

  lemma {:induction false} OntoConcat<T>(done: seq<T>, more: seq<T>, rest: Result<seq<T>>)
    ensures Onto(done, Onto(more, rest)) == Onto(done + more, rest)
  {
    assert rest.Ok? ==> done + (more + rest.value) == done + more + rest.value;
  }

  method ParseJsonl<T(!new)>(k: EntryCodec<T>, payload: Bytes) returns (r: Result<seq<T>>)
    ensures r == ParseLines(k, Lines(payload))
  {
    var lines := Lines(payload);
    var entries: seq<T> := [];
    assert lines[0..] == lines;
    OntoUnit([], ParseLines(k, lines));
    for i := 0 to |lines|
      invariant Onto(entries, ParseLines(k, lines[i..])) == ParseLines(k, lines)
    {
      assert lines[i..][1..] == lines[i + 1..];
      if lines[i] == [] {
        continue;
      }
      var decoded := k.decode(lines[i]);
      if decoded == None {
        return Err(Serialization);
      }
      ghost var rest := ParseLines(k, lines[i + 1..]);
      assert rest.Ok? ==> entries + ([decoded.value] + rest.value) == entries + [decoded.value] + rest.value;
      entries := entries + [decoded.value];
    }
    OntoUnit(entries, Ok([]));
    r := Ok(entries);
  }

  lemma {:induction false} LineLengthOfFirstLine(line: Bytes, rest: Bytes)
    requires NEWLINE !in line
    ensures LineLength(line + [NEWLINE] + rest) == |line|
  {
    var payload := line + [NEWLINE] + rest;
    assert forall i :: 0 <= i < |line| ==> payload[i] == line[i] != NEWLINE;
    assert payload[|line|] == NEWLINE;
  }

  // Parsing undoes serialization for every list of entries.
  lemma {:induction false} JsonlRoundTrip<T(!new)>(k: EntryCodec<T>, entries: seq<T>)
    requires k.Framed()
    ensures ParseLines(k, Lines(Jsonl(k, entries))) == Ok(entries)
  {
    if entries == [] {
    } else {
      var line, rest := k.encode(entries[0]), Jsonl(k, entries[1..]);
      LineLengthOfFirstLine(line, rest);
      var payload := line + [NEWLINE] + rest;
      assert payload[..|line|] == line && payload[|line| + 1..] == rest;
      JsonlRoundTrip(k, entries[1..]);
      assert Lines(payload)[1..] == Lines(rest);
      assert [entries[0]] + entries[1..] == entries;
    }
  }
}
