/** The PostgreSQL tables of the metadata layer, their constraints
    (src/metadata/schema.cpp) and the statements the DAOs run on them. */
module Tables {
  import opened Common

  /** Row keys. `gen_random_uuid` is modelled as a supply of unused numbers. */
  type Id = nat

  datatype ContentRow = ContentRow(hash: Hash, size: int, chunks: seq<Hash>, mime: string)
  datatype FileRow = FileRow(name: string, owner: Id, folder: Option<Id>, content: Id, deleted: bool)
  datatype FolderRow = FolderRow(name: string, parent: Option<Id>, owner: Id, deleted: bool)
  datatype ShareRow = ShareRow(file: Id, owner: Id, token: string, password: string,
                               maxDownloads: int, downloads: nat, revoked: bool)

  datatype Db = Db(contents: map<Id, ContentRow>, files: map<Id, FileRow>,
                   folders: map<Id, FolderRow>, shares: map<Id, ShareRow>, nextId: Id)

  const EMPTY := Db(map[], map[], map[], map[], 0)

  // ---- constraints ----

  /** Foreign keys: a row, tombstoned or not, points to existing rows. */
  ghost predicate References(db: Db) {
    && (forall f | f in db.files :: db.files[f].content in db.contents)
    && (forall f | f in db.files && db.files[f].folder.Some? :: db.files[f].folder.value in db.folders)
    && (forall s | s in db.shares :: db.shares[s].file in db.files)
    && (forall d | d in db.folders && db.folders[d].parent.Some? :: db.folders[d].parent.value in db.folders)
  }

  /** Unique indexes; those on names cover live rows only. */
  ghost predicate UniqueKeys(db: Db) {
    UniqueHashes(db.contents) && UniqueTokens(db.shares) && UniqueEntries(db.files) && UniqueFolders(db.folders)
  }

  ghost predicate UniqueHashes(contents: map<Id, ContentRow>) {
    forall c, d {:trigger SameHash(contents[c], contents[d])} |
      c in contents && d in contents && SameHash(contents[c], contents[d]) :: c == d
  }

  ghost predicate UniqueTokens(shares: map<Id, ShareRow>) {
    forall s, t {:trigger SameToken(shares[s], shares[t])} |
      s in shares && t in shares && SameToken(shares[s], shares[t]) :: s == t
  }

  ghost predicate UniqueEntries(files: map<Id, FileRow>) {
    forall f, g {:trigger SameEntry(files[f], files[g])} |
      f in files && g in files && SameEntry(files[f], files[g]) :: f == g
  }

  ghost predicate UniqueFolders(folders: map<Id, FolderRow>) {
    forall d, e {:trigger SameFolderName(folders[d], folders[e])} |
      d in folders && e in folders && SameFolderName(folders[d], folders[e]) :: d == e
  }

  predicate SameHash(a: ContentRow, b: ContentRow) { a.hash == b.hash }

  predicate SameToken(a: ShareRow, b: ShareRow) { a.token == b.token }

  predicate SameEntry(a: FileRow, b: FileRow) {
    !a.deleted && !b.deleted && a.owner == b.owner && a.folder == b.folder && a.name == b.name
  }

  predicate SameFolderName(a: FolderRow, b: FolderRow) {
    !a.deleted && !b.deleted && a.owner == b.owner && a.parent == b.parent && a.name == b.name
  }

  ghost predicate IdsBelow(db: Db) {
    && (forall i | i in db.contents :: i < db.nextId)
    && (forall i | i in db.files :: i < db.nextId)
    && (forall i | i in db.folders :: i < db.nextId)
    && (forall i | i in db.shares :: i < db.nextId)
  }

  ghost predicate Consistent(db: Db) {
    References(db) && UniqueKeys(db) && IdsBelow(db)
  }

  // ---- queries ----

  predicate Live(db: Db, f: Id) { f in db.files && !db.files[f].deleted }

  predicate LiveFolder(db: Db, d: Id) { d in db.folders && !db.folders[d].deleted }

  /** `find_by_hash`; the hash index makes the answer unique. */
  ghost function ContentOf(db: Db, hash: Hash): (c: Option<Id>)
    ensures c.Some? ==> c.value in db.contents && db.contents[c.value].hash == hash
    ensures c.None? ==> forall i | i in db.contents :: db.contents[i].hash != hash
  {
    if exists i :: i in db.contents && db.contents[i].hash == hash
    then var i :| i in db.contents && db.contents[i].hash == hash; Some(i)
    else None
  }

  ghost function ShareOf(db: Db, token: string): (s: Option<Id>)
    ensures s.Some? ==> s.value in db.shares && db.shares[s.value].token == token
    ensures s.None? ==> forall i | i in db.shares :: db.shares[i].token != token
  {
    if exists i :: i in db.shares && db.shares[i].token == token
    then var i :| i in db.shares && db.shares[i].token == token; Some(i)
    else None
  }

  predicate HasLiveReference(db: Db, c: Id) {
    exists f | f in db.files :: db.files[f].content == c && !db.files[f].deleted
  }

  predicate ChunkInUse(db: Db, h: Hash) {
    exists c | c in db.contents :: h in db.contents[c].chunks
  }

  /** Names of the live files of one owner in one folder. */
  function LiveNames(db: Db, owner: Id, folder: Option<Id>): set<string> {
    set f | f in db.files && !db.files[f].deleted && db.files[f].owner == owner && db.files[f].folder == folder
      :: db.files[f].name
  }

  predicate FolderNameTaken(db: Db, owner: Id, parent: Option<Id>, name: string) {
    exists d | d in db.folders ::
      !db.folders[d].deleted && db.folders[d].owner == owner && db.folders[d].parent == parent && db.folders[d].name == name
  }

  predicate HasChildren(db: Db, id: Id) {
    || (exists d | d in db.folders :: db.folders[d].parent == Some(id) && !db.folders[d].deleted)
    || (exists f | f in db.files :: db.files[f].folder == Some(id) && !db.files[f].deleted)
  }

  // ---- statements ----

  /** INSERT INTO files; `None` is a constraint violation. The new key is `db.nextId`. */
  function InsertFile(db: Db, row: FileRow): (r: Option<Db>) {
    if row.name in LiveNames(db, row.owner, row.folder)
       || (row.folder.Some? && row.folder.value !in db.folders)
       || row.content !in db.contents
    then None
    else Some(db.(files := db.files[db.nextId := row], nextId := db.nextId + 1))
  }

  /** INSERT INTO content_objects of a hash not stored yet. */
  function InsertContent(db: Db, row: ContentRow): Db {
    db.(contents := db.contents[db.nextId := row], nextId := db.nextId + 1)
  }

  function SoftDelete(db: Db, f: Id): Db {
    if f in db.files then db.(files := db.files[f := db.files[f].(deleted := true)]) else db
  }

  function Revoke(db: Db, ids: set<Id>): Db {
    db.(shares := map s | s in db.shares :: if s in ids then db.shares[s].(revoked := true) else db.shares[s])
  }

  function SharesOfFile(db: Db, f: Id): set<Id> {
    set s | s in db.shares && db.shares[s].file == f
  }

  predicate Tombstone(db: Db, f: Id, c: Id) {
    f in db.files && db.files[f].content == c && db.files[f].deleted
  }

  /** First statement of a purge: shares of tombstoned files of content `c`. */
  function DeleteTombstoneShares(db: Db, c: Id): Db {
    db.(shares := map s | s in db.shares && !Tombstone(db, db.shares[s].file, c) :: db.shares[s])
  }

  /** Second statement: the tombstoned files themselves. */
  function DeleteTombstones(db: Db, c: Id): Db {
    db.(files := map f | f in db.files && !Tombstone(db, f, c) :: db.files[f])
  }

  /** Third statement: the content row, if nothing live points to it. */
  function DeleteContent(db: Db, c: Id): Option<Db> {
    if c in db.contents && !HasLiveReference(db, c) then Some(db.(contents := db.contents - {c})) else None
  }

  /** The whole purge transaction; `None` when it is rolled back. */
  function PurgeTables(db: Db, c: Id): Option<Db> {
    DeleteContent(DeleteTombstones(DeleteTombstoneShares(db, c), c), c)
  }

  // ---- the deletion order of a purge ----

  /** Every prefix of the three statements leaves the foreign keys intact. */
  lemma PurgeOrderKeepsReferences(db: Db, c: Id)
    requires References(db)
    ensures References(DeleteTombstoneShares(db, c))
    ensures References(DeleteTombstones(DeleteTombstoneShares(db, c), c))
    ensures PurgeTables(db, c).Some? ==> References(PurgeTables(db, c).value)
    ensures PurgeTables(db, c).Some? <==> c in db.contents && !HasLiveReference(db, c)
  {
    var d2 := DeleteTombstones(DeleteTombstoneShares(db, c), c);
    if HasLiveReference(db, c) {
      var f :| f in db.files && db.files[f].content == c && !db.files[f].deleted;
      assert f in d2.files;
    }
  }

  /** The order matters: deleting the tombstones first breaks a foreign key exactly
      when some share still names one of them. */
  lemma TombstonesFirstBreaksReferences(db: Db, c: Id)
    requires References(db)
    ensures References(DeleteTombstones(db, c))
            <==> forall s | s in db.shares :: !Tombstone(db, db.shares[s].file, c)
  {
    var d := DeleteTombstones(db, c);
    forall s | s in db.shares ensures db.shares[s].file in d.files <==> !Tombstone(db, db.shares[s].file, c) {
    }
  }
}
