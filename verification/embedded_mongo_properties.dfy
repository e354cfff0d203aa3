/** EmbeddedMongoProperties, the "de.flapdoodle.mongodb.embedded" settings:
    version, database directory, start timeout and the nested storage
    settings (oplog size and replica-set name). The mutable bean becomes an
    immutable record whose setters return the updated record. */
module EmbeddedProperties {
  import opened Wrappers
  import JavaText

  /** org.springframework.util.unit.DataSize: a size in bytes. */
  datatype DataSize = DataSize(bytes: int)

  const BytesPerKilobyte: int := 1024
  const BytesPerMegabyte: int := 1024 * 1024

  function OfKilobytes(n: int): DataSize {
    DataSize(n * BytesPerKilobyte)
  }

  function OfMegabytes(n: int): DataSize {
    DataSize(n * BytesPerMegabyte)
  }

  /** DataSize.toMegabytes: the number of whole megabytes, truncated toward zero. */
  function ToMegabytes(s: DataSize): (mb: int)
    ensures s.bytes >= 0 ==> 0 <= mb * BytesPerMegabyte <= s.bytes < (mb + 1) * BytesPerMegabyte
    ensures s.bytes < 0 ==> (mb - 1) * BytesPerMegabyte < s.bytes <= mb * BytesPerMegabyte <= 0
  {
    JavaText.JavaDiv(s.bytes, BytesPerMegabyte)
  }

  /** A bare number bound to the oplog size is read in megabytes (the property's
      declared unit), so converting back to megabytes returns the number. */
  function BindBareOplogSize(n: int): (s: DataSize)
    ensures ToMegabytes(s) == n
    ensures s.bytes == n * BytesPerMegabyte
  {
    var s := OfMegabytes(n);
    assert s.bytes >= 0 ==> s.bytes / BytesPerMegabyte == n;
    assert s.bytes < 0 ==> (-s.bytes) / BytesPerMegabyte == -n;
    s
  }

  datatype Storage = Storage(oplogSize: Option<DataSize>, replSetName: Option<string>)

  datatype EmbeddedMongoProperties = EmbeddedMongoProperties(
    version: Option<string>,
    databaseDir: Option<string>,
    startTimeout: int,
    storage: Storage)

  /** A freshly bound bean before any property is applied. */
  function Defaults(): (p: EmbeddedMongoProperties)
    ensures p.version.None? && p.databaseDir.None? && p.startTimeout == 0
    ensures p.storage.oplogSize.None? && p.storage.replSetName.None?
  {
    EmbeddedMongoProperties(None, None, 0, Storage(None, None))
  }

  /** Each setter stores its value, and putting the old value back gives the
      original record, so no other field changed. */
  function SetVersion(p: EmbeddedMongoProperties, v: Option<string>): (r: EmbeddedMongoProperties)
    ensures r.version == v
    ensures r.(version := p.version) == p
  {
    p.(version := v)
  }

  function SetDatabaseDir(p: EmbeddedMongoProperties, d: Option<string>): (r: EmbeddedMongoProperties)
    ensures r.databaseDir == d
    ensures r.(databaseDir := p.databaseDir) == p
  {
    p.(databaseDir := d)
  }

  function SetStartTimeout(p: EmbeddedMongoProperties, t: int): (r: EmbeddedMongoProperties)
    ensures r.startTimeout == t
    ensures r.(startTimeout := p.startTimeout) == p
  {
    p.(startTimeout := t)
  }

  /** getStorage().setOplogSize(size): changes the storage settings and nothing else. */
  function SetOplogSize(p: EmbeddedMongoProperties, size: Option<DataSize>): (r: EmbeddedMongoProperties)
    ensures r.storage.oplogSize == size
    ensures r.storage.replSetName == p.storage.replSetName
    ensures r.(storage := p.storage) == p
  {
    p.(storage := p.storage.(oplogSize := size))
  }

  /** getStorage().setReplSetName(name): changes the storage settings and nothing else. */
  function SetReplSetName(p: EmbeddedMongoProperties, name: Option<string>): (r: EmbeddedMongoProperties)
    ensures r.storage.replSetName == name
    ensures r.storage.oplogSize == p.storage.oplogSize
    ensures r.(storage := p.storage) == p
  {
    p.(storage := p.storage.(replSetName := name))
  }

  /** DataSize.toString: the byte count followed by "B". */
  function DataSizeToString(s: Option<DataSize>): string {
    match s
    case None => "null"
    case Some(d) => JavaText.IntToString(d.bytes) + "B"
  }

  function StorageToString(s: Storage): string {
    "Storage{oplogSize=" + DataSizeToString(s.oplogSize)
      + ", replSetName='" + JavaText.OrNull(s.replSetName) + "'}"
  }

  const ToStringPrefix: string := "EmbeddedMongoProperties{version='"

  /** toString: lists version, database directory and storage, in that order. */
  function ToString(p: EmbeddedMongoProperties): (r: string)
    ensures |r| > |ToStringPrefix| + |JavaText.OrNull(p.version)| + |StorageToString(p.storage)|
    ensures r[..|ToStringPrefix|] == ToStringPrefix
    ensures r[|ToStringPrefix|..|ToStringPrefix| + |JavaText.OrNull(p.version)|] == JavaText.OrNull(p.version)
    ensures r[|ToStringPrefix| + |JavaText.OrNull(p.version)|..|r| - |StorageToString(p.storage)| - 1]
      == "', databaseDir='" + JavaText.OrNull(p.databaseDir) + "', storage="
    ensures r[|r| - |StorageToString(p.storage)| - 1..] == StorageToString(p.storage) + "}"
  {
    ToStringPrefix + JavaText.OrNull(p.version)
      + "', databaseDir='" + JavaText.OrNull(p.databaseDir)
      + "', storage=" + StorageToString(p.storage) + "}"
  }

  /** The start timeout never shows in the rendering. */
  lemma ToStringIgnoresStartTimeout(p: EmbeddedMongoProperties, t: int)
    ensures ToString(SetStartTimeout(p, t)) == ToString(p)
  {
  }

  /** The storage settings a bean ends up with after binding a replica-set
      name and a bare oplog number. */
  lemma BareOplogNumberIsMegabytes(n: int)
    ensures var p := SetOplogSize(SetReplSetName(Defaults(), Some("testing")), Some(BindBareOplogSize(n)));
      ToMegabytes(p.storage.oplogSize.value) == n && p.storage.replSetName == Some("testing")
  {
  }
}
