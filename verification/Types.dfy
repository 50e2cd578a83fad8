// The values a backup repository stores and the external codecs it relies on.
module Types {

  datatype Option<+T> = None | Some(value: T)

  // The error distinctions the properties need.
  datatype Error =
    | MissingBlob(key: string)
    | ChecksumMismatch(key: string, expected: string, actual: string)
    | InvalidManifestChain
    | Serialization
    | Compression
    | UnsupportedOperation
    | RepositoryLocked
    | RestoreTargetNotEmpty
    | RestoreSchemaMismatch
    | Storage  // a failed write or delete of the underlying blob store
    | Source   // the application's object index could not deliver an object
    | Adapter  // a call of the database adapter failed
    | Sink     // the application could not take a restored object

  // What is stored is at fault: something is absent, altered, or not what it should be.
  predicate IsDataError(e: Error) {
    e.MissingBlob? || e.ChecksumMismatch? || e.InvalidManifestChain? || e.Serialization? || e.Compression?
    || e.UnsupportedOperation?
  }

  datatype Result<+T> = Ok(value: T) | Err(error: Error) {
    predicate IsFailure() {
      Err?
    }

    function PropagateFailure<U>(): Result<U>
      requires Err?
    {
      Err(error)
    }

    function Extract(): T
      requires Ok?
    {
      value
    }
  }

  newtype byte = x: int | 0 <= x < 256

  type Bytes = seq<byte>

  // The contents of a repository: a blob per key.
  type Store = map<string, Bytes>

  const NEWLINE: byte := 10

  predicate IsLowerHex(ch: char) {
    '0' <= ch <= '9' || 'a' <= ch <= 'f'
  }

  predicate IsHyphenPosition(i: int) {
    i == 8 || i == 13 || i == 18 || i == 23
  }

  // The canonical text of a UUID: 36 characters, section 4 of RFC 9562.
  predicate IsUuidText(s: string) {
    |s| == 36 &&
    forall i :: 0 <= i < |s| ==> if IsHyphenPosition(i) then s[i] == '-' else IsLowerHex(s[i])
  }

  // A UUID is identified with its canonical text; the textual order is the order of the 128-bit values.
  type Uuid = s: string | IsUuidText(s) witness "00000000-0000-0000-0000-000000000000"

  // `values` is the JSON text of the column values.
  datatype Row = Row(tableName: string, primaryKey: string, rowHash: string, values: string)

  datatype Action = Create | Update | Delete

  datatype Change = Change(tableName: string, primaryKey: string, action: Action, row: Option<Row>, changedAt: int)

  datatype TableExport = TableExport(tableName: string, rows: seq<Row>)

  datatype Schema = Schema(backend: string, migrationVersion: string, schemaHash: string)

  datatype ObjectRef = ObjectRef(objectId: Uuid, storageKey: string, sha: string, sizeBytes: nat,
    mimeType: Option<string>)

  datatype BackupKind = Full | Incremental | SyntheticFull

  datatype Compression = Uncompressed | Zstd

  datatype TableEntry = TableEntry(tableName: string, rowCount: nat, contentKey: string, sha: string)

  datatype DatabaseManifest = DatabaseManifest(
    exportFormat: string,
    compression: Compression,
    rowCount: nat,
    tableCount: nat,
    tables: seq<TableEntry>,
    changes: seq<TableEntry>)

  datatype ObjectEntry = ObjectEntry(
    objectId: Uuid,
    storageKey: string,
    contentKey: string,
    sha: string,
    sizeBytes: nat,
    mimeType: Option<string>)

  datatype Tombstone = Tombstone(
    tableName: Option<string>,
    primaryKey: Option<string>,
    objectId: Option<Uuid>,
    deletedAt: int)

  datatype Manifest = Manifest(
    formatVersion: nat,
    snapshotId: Uuid,
    parent: Option<Uuid>,
    createdAt: int,
    appId: string,
    appVersion: string,
    schemaVersion: string,
    schemaHash: string,
    backend: string,
    kind: BackupKind,
    database: DatabaseManifest,
    objects: seq<ObjectEntry>,
    tombstones: seq<Tombstone>,
    checksum: string)

  const FORMAT_VERSION: nat := 1
  const EXPORT_FORMAT := "jsonl"

  // A key and the hash its blob is expected to have.
  datatype BlobRef = BlobRef(key: string, sha: string)

  // A serializer for one JSON Lines entry.
  datatype EntryCodec<!T(!new)> = EntryCodec(encode: T -> Bytes, decode: Bytes -> Option<T>) {
    // A JSON text is not empty and, written compactly, holds no raw newline (section 7 of RFC 8259).
    ghost predicate Framed() {
      forall e: T :: encode(e) != [] && NEWLINE !in encode(e) && decode(encode(e)) == Some(e)
    }
  }

  // The libraries the code calls: SHA-256 in hex, zstd and serde_json.
  datatype Codec = Codec(
    hash: Bytes -> string,
    compress: Bytes -> Bytes,
    decompress: Bytes -> Option<Bytes>,
    rows: EntryCodec<Row>,
    changes: EntryCodec<Change>,
    prettyManifest: Manifest -> Bytes,
    compactManifest: Manifest -> Bytes,
    parseManifest: Bytes -> Option<Manifest>) {

    // What the code relies on: each writer has an inverse. Nothing is assumed about the hash.
    ghost predicate Lawful() {
      && rows.Framed()
      && changes.Framed()
      && (forall b :: decompress(compress(b)) == Some(b))
      && (forall m :: parseManifest(prettyManifest(m)) == Some(m))
    }
  }
}
