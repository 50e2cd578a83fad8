// Repository keys: builders, the manifest-key parser, and why the key spaces never meet.
module Keys {
  import opened Types

  const LOCK_KEY := "locks/repository.lock"
  const OBJECTS_PREFIX := "objects/sha256"
  const SNAPSHOTS_PREFIX := "snapshots"
  const MANIFEST_SUFFIX := "/manifest.json"

  // The prefix under which prune and delete list one snapshot's blobs: no trailing slash.
  function SnapshotPrefix(id: Uuid): string {
    "snapshots/" + id
  }

  function ManifestKey(id: Uuid): string {
    "snapshots/" + id + "/manifest.json"
  }

  function TableKey(id: Uuid, table: string): string {
    "snapshots/" + id + "/database/tables/" + table + ".jsonl.zst"
  }

  function ChangesKey(id: Uuid, table: string): string {
    "snapshots/" + id + "/database/changes/" + table + ".jsonl.zst"
  }

  function ObjectKey(sha: string): string {
    var shardA := if |sha| >= 2 then sha[0..2] else "00";
    var shardB := if |sha| >= 4 then sha[2..4] else "00";
    "objects/sha256/" + shardA + "/" + shardB + "/" + sha
  }

  // A key is listed under a prefix exactly when it starts with it.
  predicate Under(prefix: string, key: string) {
    prefix <= key
  }

  predicate UnderSnapshot(id: Uuid, key: string) {
    Under(SnapshotPrefix(id), key)
  }

  function ToLower(ch: char): char {
    if 'A' <= ch <= 'F' then ch + ' ' else ch
  }

  function Lowered(s: string): string {
    seq(|s|, i requires 0 <= i < |s| => ToLower(s[i]))
  }

  function Hyphenated(s: string): string
    requires |s| == 32
  {
    s[..8] + "-" + s[8..12] + "-" + s[12..16] + "-" + s[16..20] + "-" + s[20..]
  }

  // Uuid::parse_str: hexadecimal digits of either case, with hyphens, without, in braces or as a URN.
  function ParseUuid(s: string): Option<Uuid> {
    var bare :=
      if |s| == 38 && s[0] == '{' && s[37] == '}' then s[1..37]
      else if |s| == 45 && s[..9] == "urn:uuid:" then s[9..]
      else s;
    var text := Lowered(if |bare| == 32 then Hyphenated(bare) else bare);
    if IsUuidText(text) then Some(text) else None
  }

  // snapshot_id_from_manifest_key
  function SnapshotIdOf(key: string): Option<Uuid> {
    if !("snapshots/" <= key) then None
    else
      var rest := key[10..];
      var n := |rest| - |MANIFEST_SUFFIX|;
      if n < 0 || rest[n..] != MANIFEST_SUFFIX then None
      else if '/' in rest[..n] then None
      else ParseUuid(rest[..n])
  }

  // The documented layout of a repository.
  lemma {:induction false} Layout(id: Uuid, table: string)
    ensures ManifestKey(id) == "snapshots/" + id + "/manifest.json"
    ensures TableKey(id, table) == "snapshots/" + id + "/database/tables/" + table + ".jsonl.zst"
    ensures ChangesKey(id, table) == "snapshots/" + id + "/database/changes/" + table + ".jsonl.zst"
    ensures ObjectKey("abcdef") == "objects/sha256/ab/cd/abcdef" && ObjectKey("abc") == "objects/sha256/ab/00/abc"
    ensures OBJECTS_PREFIX == "objects/sha256" && SNAPSHOTS_PREFIX == "snapshots"
    ensures LOCK_KEY == "locks/repository.lock"
  {
  }

  // The canonical text of an id: 32 lower-case hexadecimal digits in five groups.
  lemma {:induction false} IdsAreCanonical(id: Uuid)
    ensures |id| == 36 && id[8] == id[13] == id[18] == id[23] == '-'
    ensures forall i :: 0 <= i < 36 && i !in {8, 13, 18, 23} ==> '0' <= id[i] <= '9' || 'a' <= id[i] <= 'f'
  {
  }

  lemma {:induction false} ParseUuidOfText(id: Uuid)
    ensures ParseUuid(id) == Some(id) && '/' !in id
  {
    assert Lowered(id) == id;
  }

  lemma {:induction false} ParsedBetween(text: string)
    ensures SnapshotIdOf("snapshots/" + text + "/manifest.json") == if '/' in text then None else ParseUuid(text)
  {
    var rest := ("snapshots/" + text + "/manifest.json")[10..];
    assert rest == text + MANIFEST_SUFFIX;
    assert rest[|rest| - |MANIFEST_SUFFIX|..] == MANIFEST_SUFFIX;
    assert rest[..|rest| - |MANIFEST_SUFFIX|] == text;
  }

  lemma {:induction false} ManifestKeyRoundTrip(id: Uuid)
    ensures SnapshotIdOf(ManifestKey(id)) == Some(id)
  {
    ParseUuidOfText(id);
    ParsedBetween(id);
  }

  lemma {:induction false} ManifestKeyIsInjective(a: Uuid, b: Uuid)
    requires ManifestKey(a) == ManifestKey(b)
    ensures a == b
  {
    ManifestKeyRoundTrip(a);
    ManifestKeyRoundTrip(b);
  }

  lemma {:induction false} BracesAreParsed(id: Uuid)
    ensures var braced := "{" + id + "}"; ParseUuid(braced) == Some(id) && '/' !in braced
  {
    ParseUuidOfText(id);
    assert ("{" + id + "}")[1..37] == id;
  }

  // The parser also accepts spellings the builder never produces: every id has a second manifest key.
  lemma {:induction false} ManifestKeyParserIsNotInjective(id: Uuid)
    ensures exists key :: SnapshotIdOf(key) == Some(id) && key != ManifestKey(id)
  {
    var braced := "{" + id + "}";
    var key := "snapshots/" + braced + "/manifest.json";
    BracesAreParsed(id);
    ParsedBetween(braced);
    assert SnapshotIdOf(key) == Some(id);
    assert |key| != |ManifestKey(id)|;
  }

  // The spellings of one id that the parser accepts: in either case, with hyphens, without, in braces, as a URN.
  lemma {:induction false} SpellingsAreParsed(id: Uuid, text: string)
    requires Lowered(text) == id
    ensures ParseUuid(text) == ParseUuid("{" + text + "}") == ParseUuid("urn:uuid:" + text) == Some(id)
    ensures ParseUuid(text[..8] + text[9..13] + text[14..18] + text[19..23] + text[24..]) == Some(id)
  {
    TextIsParsed(id, text);
    DecoratedIsParsed(text);
    BareIsParsed(id, text);
  }

  // Case does not matter.
  lemma {:induction false} CaseIsIgnored()
    ensures Lowered("ABCDEF-09af") == "abcdef-09af"
  {
  }

  lemma {:induction false} TextIsParsed(id: Uuid, text: string)
    requires Lowered(text) == id
    ensures |text| == 36 && ParseUuid(text) == Some(id)
  {
  }

  lemma {:induction false} DecoratedIsParsed(text: string)
    requires |text| == 36
    ensures ParseUuid("{" + text + "}") == ParseUuid("urn:uuid:" + text) == ParseUuid(text)
  {
    var braced, urn := "{" + text + "}", "urn:uuid:" + text;
    assert |braced| == 38 && braced[0] == '{' && braced[37] == '}' && braced[1..37] == text;
    assert |urn| == 45 && urn[..9] == "urn:uuid:" && urn[9..] == text;
  }

  lemma {:induction false} BareIsParsed(id: Uuid, text: string)
    requires Lowered(text) == id && |text| == 36
    ensures ParseUuid(text[..8] + text[9..13] + text[14..18] + text[19..23] + text[24..]) == Some(id)
  {
    HyphensAreRestored(id, text);
  }

  lemma {:induction false} HyphensAreRestored(id: Uuid, text: string)
    requires Lowered(text) == id && |text| == 36
    ensures Hyphenated(text[..8] + text[9..13] + text[14..18] + text[19..23] + text[24..]) == text
  {
    forall i | 0 <= i < 36 && IsHyphenPosition(i) ensures text[i] == '-' {
      assert Lowered(text)[i] == '-';
    }
    var bare := text[..8] + text[9..13] + text[14..18] + text[19..23] + text[24..];
    assert bare[..8] == text[..8] && bare[8..12] == text[9..13] && bare[12..16] == text[14..18];
    assert bare[16..20] == text[19..23] && bare[20..] == text[24..];
    assert text == text[..8] + [text[8]] + text[9..13] + [text[13]] + text[14..18] + [text[18]] + text[19..23]
                   + [text[23]] + text[24..];
  }

  // The builder undoes the parser exactly on the keys whose id is written in canonical form.
  lemma {:induction false} ParsedKeyIsBuiltIff(key: string)
    requires SnapshotIdOf(key).Some?
    ensures key == ManifestKey(SnapshotIdOf(key).value) <==> |key| == 60 && IsUuidText(key[10..46])
  {
    var rest := key[10..];
    var n := |rest| - |MANIFEST_SUFFIX|;
    assert key == "snapshots/" + rest[..n] + MANIFEST_SUFFIX by {
      assert key == key[..10] + rest && rest == rest[..n] + rest[n..];
    }
    assert rest[..n] == key[10..10 + n];
    if |key| == 60 && IsUuidText(key[10..46]) {
      ParseUuidOfText(key[10..46]);
    }
    if key == ManifestKey(SnapshotIdOf(key).value) {
      assert key[10..46] == SnapshotIdOf(key).value;
    }
  }

  // Listing one snapshot never matches another: ids have a fixed width.
  lemma {:induction false} SnapshotsAreDisjoint(a: Uuid, b: Uuid, key: string)
    requires UnderSnapshot(a, key) && UnderSnapshot(b, key)
    ensures a == b
  {
    assert SnapshotPrefix(a) == key[..46] == SnapshotPrefix(b);
    assert a == SnapshotPrefix(a)[10..] && b == SnapshotPrefix(b)[10..];
  }

  lemma {:induction false} ManifestKeyIsUnder(id: Uuid)
    ensures UnderSnapshot(id, ManifestKey(id))
    ensures Under(SNAPSHOTS_PREFIX, ManifestKey(id))
    ensures !Under(OBJECTS_PREFIX, ManifestKey(id)) && ManifestKey(id) != LOCK_KEY
  {
    assert ManifestKey(id)[..46] == SnapshotPrefix(id);
    assert ManifestKey(id)[..9] == "snapshots";
    assert ManifestKey(id)[0] == 's' && OBJECTS_PREFIX[0] == 'o' && LOCK_KEY[0] == 'l';
  }

  // The keys an object or payload blob may have: never a manifest key, whatever the table name.
  lemma {:induction false} TableKeyFacts(id: Uuid, table: string)
    ensures UnderSnapshot(id, TableKey(id, table))
    ensures SnapshotIdOf(TableKey(id, table)) == None
  {
    var key := TableKey(id, table);
    assert key[..46] == SnapshotPrefix(id);
    if SnapshotIdOf(key).Some? { ManifestKeyShape(key); }
  }

  lemma {:induction false} ChangesKeyFacts(id: Uuid, table: string)
    ensures UnderSnapshot(id, ChangesKey(id, table))
    ensures SnapshotIdOf(ChangesKey(id, table)) == None
  {
    var key := ChangesKey(id, table);
    assert key[..46] == SnapshotPrefix(id);
    if SnapshotIdOf(key).Some? { ManifestKeyShape(key); }
  }

  lemma {:induction false} ManifestKeyShape(key: string)
    requires SnapshotIdOf(key).Some?
    ensures key != [] && key[0] == 's' && key[|key| - 1] == 'n'
  {
    assert key[0] == "snapshots/"[0];
    var rest := key[10..];
    assert key[|key| - 1] == rest[|rest| - |MANIFEST_SUFFIX|..][|MANIFEST_SUFFIX| - 1];
  }

  lemma {:induction false} TableKeyIsInjective(id: Uuid, a: string, b: string)
    requires TableKey(id, a) == TableKey(id, b)
    ensures a == b
  {
    var ka, kb := TableKey(id, a), TableKey(id, b);
    assert a == ka[63..|ka| - 10];
    assert b == kb[63..|kb| - 10];
  }

  lemma {:induction false} ChangesKeyIsInjective(id: Uuid, a: string, b: string)
    requires ChangesKey(id, a) == ChangesKey(id, b)
    ensures a == b
  {
    var ka, kb := ChangesKey(id, a), ChangesKey(id, b);
    assert a == ka[64..|ka| - 10];
    assert b == kb[64..|kb| - 10];
  }

  lemma {:induction false} TableAndChangesKeysDiffer(id: Uuid, a: string, b: string)
    ensures TableKey(id, a) != ChangesKey(id, b)
  {
    assert TableKey(id, a)[56] == 't' && ChangesKey(id, b)[56] == 'c';
  }

  lemma {:induction false} ObjectKeyFacts(sha: string)
    ensures Under(OBJECTS_PREFIX, ObjectKey(sha))
    ensures SnapshotIdOf(ObjectKey(sha)) == None
    ensures forall id: Uuid :: !UnderSnapshot(id, ObjectKey(sha))
    ensures !Under(SNAPSHOTS_PREFIX, ObjectKey(sha)) && ObjectKey(sha) != LOCK_KEY
  {
    var key := ObjectKey(sha);
    assert key[..14] == OBJECTS_PREFIX;
    assert key[0] == 'o' && SNAPSHOTS_PREFIX[0] == 's' && LOCK_KEY[0] == 'l';
    if SnapshotIdOf(key).Some? { ManifestKeyShape(key); }
    forall id: Uuid ensures !UnderSnapshot(id, key) {
      assert SnapshotPrefix(id)[0] == 's';
    }
  }

  lemma {:induction false} ObjectsAreOutsideSnapshots(id: Uuid, key: string)
    requires Under(OBJECTS_PREFIX, key)
    ensures !UnderSnapshot(id, key)
  {
    assert key[0] == OBJECTS_PREFIX[0] == 'o';
    assert SnapshotPrefix(id)[0] == 's';
  }

  lemma {:induction false} ObjectKeyIsInjective(a: string, b: string)
    requires ObjectKey(a) == ObjectKey(b)
    ensures a == b
  {
    assert ObjectKey(a)[21..] == a;
    assert ObjectKey(b)[21..] == b;
  }
}
