/** The request handlers as they run: statements on the tables, loops over chunks and
    parts, sessions and hints in Redis. Each is proved to perform its step of `DriveSpec`. */
module SolarDrive {
  import opened Common
  import opened ObjectStore
  import opened Tables
  import opened DriveSpec
  import opened DriveInvariant
  import UniqueName

  function CountTrue(flags: seq<bool>): (n: nat)
    ensures n <= |flags|
    ensures n == |flags| <==> false !in flags
  {
    if flags == [] then 0
    else
      assert flags == flags[..|flags| - 1] + [flags[|flags| - 1]];
      CountTrue(flags[..|flags| - 1]) + if flags[|flags| - 1] then 1 else 0
  }

  function PercentDone(done: nat, count: nat): nat {
    if count > 0 then done * 100 / count else 0
  }

  function BytesDone(done: nat, size: nat, total: nat): nat {
    Min(done * size, total)
  }

  /** The progress bar is full exactly when every part has arrived. */
  lemma ProgressMeaning(t: Session)
    requires WellShaped(t) && t.total > 0 && t.count > 0
    ensures PercentDone(CountTrue(t.uploaded), t.count) <= 100
    ensures PercentDone(CountTrue(t.uploaded), t.count) == 100 <==> false !in t.uploaded
    ensures false !in t.uploaded && t.count * t.chunkSize >= t.total
            ==> BytesDone(CountTrue(t.uploaded), t.chunkSize, t.total) == t.total
  {
    PercentOf(CountTrue(t.uploaded), t.count);
  }

  lemma PercentOf(part: nat, whole: nat)
    requires part <= whole && whole > 0
    ensures 0 <= part * 100 / whole <= 100 && (part * 100 / whole == 100 <==> part == whole)
  {
    if part < whole {
      assert part * 100 / whole < 100 by {
        assert part * 100 < 100 * whole;
      }
    }
  }

  class Server {
    const cfg: Config
    const store: Store
    var db: Db
    var sessions: map<Id, Session>
    var hints: map<Hash, Id>

    ghost function Snapshot(): State
      reads this, store
    {
      State(store.disk, db, sessions, hints)
    }

    ghost predicate Valid()
      reads this, store
    {
      store.Valid() && store.sha == cfg.sha && store.chunkSize == cfg.chunkSize && Inv(cfg, Snapshot())
    }

    constructor (sha: HashFn, chunkSize: nat, partSize: nat, maxFileSize: int, redis: bool)
      requires CollisionFree(sha)
      ensures Valid() && fresh(store) && Snapshot() == INITIAL
      ensures cfg.partSize == if partSize > 0 then partSize else cfg.chunkSize
    {
      var s := new Store(sha, chunkSize);
      store := s;
      cfg := Config(sha, s.chunkSize, if partSize > 0 then partSize else s.chunkSize, maxFileSize, redis);
      db, sessions, hints := EMPTY, map[], map[];
      new;
      InvInitial(cfg);
    }

    // ---- data access ----

    method FindContent(hash: Hash) returns (c: Option<Id>)
      requires UniqueKeys(db)
      ensures c == ContentOf(db, hash)
    {
      if i :| i in db.contents && db.contents[i].hash == hash {
        assert SameHash(db.contents[i], db.contents[ContentOf(db, hash).value]);
        c := Some(i);
      } else {
        c := None;
      }
    }

    method FindShare(token: string) returns (s: Option<Id>)
      requires UniqueKeys(db)
      ensures s == ShareOf(db, token)
    {
      if i :| i in db.shares && db.shares[i].token == token {
        assert SameToken(db.shares[i], db.shares[ShareOf(db, token).value]);
        s := Some(i);
      } else {
        s := None;
      }
    }

    method MakeUniqueName(name: string, owner: Id, folder: Option<Id>, now: nat) returns (unique: string)
      ensures unique == UniqueName.Fresh(LiveNames(db, owner, folder), name, now)
    {
      if name !in LiveNames(db, owner, folder) {
        return name;
      }
      var n := 1;
      while n < 10000
        invariant 1 <= n <= 10000
        invariant UniqueName.Fresh(LiveNames(db, owner, folder), name, now)
               == UniqueName.FirstFree(LiveNames(db, owner, folder), name, n, now)
      {
        var candidate := UniqueName.Candidate(name, n);
        if candidate !in LiveNames(db, owner, folder) {
          return candidate;
        }
        n := n + 1;
      }
      unique := UniqueName.Candidate(name, now);
    }

    /** A new entry for stored content; `None` when the insert is rejected. */
    method LinkExisting(c: Id, name: string, user: Id, folder: Option<Id>, now: nat) returns (file: Option<Id>)
      modifies this`db
      ensures var linked := LinkFile(old(db), user, folder, name, c, now);
              if linked.Some? then db == linked.value && file == Some(old(db.nextId)) else db == old(db) && file == None
    {
      var unique := MakeUniqueName(name, user, folder, now);
      var txn := InsertFile(db, FileRow(unique, user, folder, c, false));
      if txn.None? {
        return None;
      }
      file := Some(db.nextId);
      db := txn.value;
    }

    /** `FileDao::insert` of content not stored yet: both rows or neither. */
    method InsertFresh(row: ContentRow, name: string, user: Id, folder: Option<Id>) returns (file: Option<Id>)
      modifies this`db
      ensures var inserted := InsertNew(old(db), user, folder, name, row);
              if inserted.Some? then db == inserted.value && file == Some(old(db.nextId) + 1) else db == old(db) && file == None
    {
      var txn := db;
      var c := txn.nextId;
      txn := InsertContent(txn, row);
      var committed := InsertFile(txn, FileRow(name, user, folder, c, false));
      if committed.None? {
        return None;
      }
      file := Some(txn.nextId);
      db := committed.value;
    }

    // ---- garbage collection ----

    /** `purge_content`: the three deletions in one transaction, then the chunk files
        that no remaining row lists. */
    method PurgeContent(c: Id) returns (rows: nat, chunks: nat)
      requires store.Valid()
      modifies this`db, store`disk
      ensures store.Valid() && (Snapshot(), rows, chunks) == Purge(old(Snapshot()), c)
    {
      rows, chunks := 0, 0;
      if c !in db.contents || HasLiveReference(db, c) {
        return;
      }
      var hashes := db.contents[c].chunks;
      var txn := DeleteTombstoneShares(db, c);
      txn := DeleteTombstones(txn, c);
      var deleted := DeleteContent(txn, c);
      if deleted.None? {
        return;
      }
      txn := deleted.value;
      rows := 1;
      chunks := RemoveUnused(txn, hashes);
      db := txn;
    }

    /** Unlinks, one after the other, the chunk files that no row of `txn` lists. */
    method RemoveUnused(txn: Db, hashes: seq<Hash>) returns (chunks: nat)
      requires store.Valid()
      modifies store`disk
      ensures store.Valid()
      ensures store.disk == old(store.disk) - Garbage(old(store.disk), txn, hashes)
      ensures chunks == |Garbage(old(store.disk), txn, hashes)|
    {
      chunks := 0;
      ghost var disk := store.disk;
      for k := 0 to |hashes|
        invariant store.Valid()
        invariant store.disk == disk - Garbage(disk, txn, hashes[..k])
        invariant chunks == |Garbage(disk, txn, hashes[..k])|
      {
        GarbageSnoc(disk, txn, hashes, k);
        if !ChunkInUse(txn, hashes[k]) {
          var removed := store.Remove(hashes[k]);
          if removed {
            chunks := chunks + 1;
          }
        }
      }
      assert hashes[..|hashes|] == hashes;
    }

    method CollectOrphans(batch: seq<Id>) returns (rows: nat, chunks: nat)
      requires Valid()
      modifies this`db, store`disk
      ensures Valid() && (Snapshot(), rows, chunks) == PurgeAll(old(Snapshot()), batch)
    {
      ghost var start := Snapshot();
      rows, chunks := 0, 0;
      for k := 0 to |batch|
        invariant store.Valid() && sessions == old(sessions) && hints == old(hints)
        invariant Swept(start, batch[..k], Snapshot(), rows, chunks)
      {
        ghost var s := Snapshot();
        var r, n := PurgeContent(batch[k]);
        PurgeAllNext(start, batch, k, s, rows, chunks, Snapshot(), r, n);
        rows, chunks := rows + r, chunks + n;
      }
      assert batch[..|batch|] == batch;
      PurgeAllInv(cfg, start, batch);
    }

    // ---- uploads ----

    method HandleUpload(user: Id, folder: Option<Id>, name: string, mime: string, body: Bytes, now: nat) returns (resp: Resp)
      requires Valid()
      modifies this, store
      ensures Valid() && (Snapshot(), resp) == StepUpload(cfg, old(Snapshot()), Upload(user, folder, name, mime, body, now))
    {
      UploadInv(cfg, Snapshot(), Upload(user, folder, name, mime, body, now));
      resp := HandleSingleUpload(user, folder, name, mime, body, now);
    }

    method HandleSingleUpload(user: Id, folder: Option<Id>, name: string, mime: string, body: Bytes, now: nat) returns (resp: Resp)
      requires store.Valid() && store.sha == cfg.sha && store.chunkSize == cfg.chunkSize && UniqueKeys(db)
      modifies this, store
      ensures store.Valid() && (Snapshot(), resp) == StepUpload(cfg, old(Snapshot()), Upload(user, folder, name, mime, body, now))
    {
      if body == [] {
        return Error(400);
      }
      if Oversized(cfg, |body|) {
        return Error(413);
      }
      if !FolderAllowed(db, user, folder) {
        return Error(404);
      }
      var hash := cfg.sha(body);
      if cfg.redis && hash in hints {
        var hinted := FindContent(hash);
        if hinted.Some? {
          var file := LinkExisting(hinted.value, name, user, folder, now);
          return if file.Some? then Created(file.value, true) else Error(500);
        }
      }
      var found := FindContent(hash);
      if found.Some? {
        if cfg.redis {
          hints := if hash in hints then hints else hints[hash := found.value];
        }
        var file := LinkExisting(found.value, name, user, folder, now);
        return if file.Some? then Created(file.value, true) else Error(500);
      }
      resp := StoreNew(user, folder, name, mime, body, now);
    }

    /** The rest of an upload whose content is not known yet. */
    method StoreNew(user: Id, folder: Option<Id>, name: string, mime: string, body: Bytes, now: nat) returns (resp: Resp)
      requires store.Valid() && store.sha == cfg.sha && store.chunkSize == cfg.chunkSize
      requires body != [] && !Oversized(cfg, |body|) && FolderAllowed(db, user, folder) && ContentOf(db, cfg.sha(body)).None?
      modifies this, store
      ensures store.Valid() && (Snapshot(), resp) == StepUpload(cfg, old(Snapshot()), Upload(user, folder, name, mime, body, now))
    {
      var hash := cfg.sha(body);
      var chunks := store.PutChunked(body);
      var c := db.nextId;
      var file := InsertFresh(ContentRow(hash, |body|, chunks, MimeOrDefault(mime)), name, user, folder);
      if file.None? {
        return Error(500);
      }
      if cfg.redis {
        hints := hints[hash := c];
      }
      resp := Created(file.value, false);
    }

    method HandleInit(user: Id, folder: Option<Id>, name: string, mime: string, total: int) returns (resp: Resp)
      requires Valid()
      modifies this
      ensures Valid() && (Snapshot(), resp) == StepInit(cfg, old(Snapshot()), Init(user, folder, name, mime, total))
    {
      InitInv(cfg, Snapshot(), Init(user, folder, name, mime, total));
      resp := OpenSession(user, folder, name, mime, total);
    }

    /** `handle_init`. */
    method OpenSession(user: Id, folder: Option<Id>, name: string, mime: string, total: int) returns (resp: Resp)
      requires cfg.partSize > 0
      modifies this
      ensures (Snapshot(), resp) == StepInit(cfg, old(Snapshot()), Init(user, folder, name, mime, total))
    {
      if name == "" || total <= 0 {
        return Error(400);
      }
      if Oversized(cfg, total) {
        return Error(413);
      }
      if !FolderAllowed(db, user, folder) {
        return Error(404);
      }
      var count := ChunkCount(total, cfg.partSize);
      if count < 0 {
        return Error(500);
      }
      var id := db.nextId;
      db := db.(nextId := id + 1);
      var session := Session(user, folder, name, mime, total, cfg.partSize, count,
                             seq(count, _ => false), seq(count, _ => ""));
      if cfg.redis {
        sessions := sessions[id := session];
      }
      resp := Opened(id, cfg.partSize, count);
    }

    method HandlePart(user: Id, upload: Id, part: int, body: Bytes) returns (resp: Resp)
      requires Valid()
      modifies this`sessions, store`disk
      ensures Valid() && (Snapshot(), resp) == StepPart(cfg, old(Snapshot()), Part(user, upload, part, body))
    {
      PartInv(cfg, Snapshot(), Part(user, upload, part, body));
      if body == [] {
        return Error(400);
      }
      var err := SessionError(State(map[], db, sessions, hints), user, upload);
      if err.Some? {
        return Error(err.value);
      }
      var session := sessions[upload];
      if part < 0 || part >= session.count {
        return Error(400);
      }
      if |body| > session.chunkSize {
        return Error(413);
      }
      StoredSnoc(cfg.sha, store.disk, [], body);
      assert [] + [body] == [body];
      var hash := store.Put(body);
      session := session.(uploaded := session.uploaded[part := true], parts := session.parts[part := hash]);
      sessions := sessions[upload := session];
      resp := Stored(hash);
    }

    /** Progress pushed to the browser after a part: percentage of parts and bytes. */
    method Progress(session: Session) returns (percent: nat, bytes: nat)
      requires WellShaped(session) && session.total > 0
      ensures percent == PercentDone(CountTrue(session.uploaded), session.count)
      ensures bytes == BytesDone(CountTrue(session.uploaded), session.chunkSize, session.total)
    {
      var uploaded := 0;
      for i := 0 to |session.uploaded|
        invariant uploaded == CountTrue(session.uploaded[..i])
      {
        assert session.uploaded[..i + 1][..i] == session.uploaded[..i];
        if session.uploaded[i] {
          uploaded := uploaded + 1;
        }
      }
      assert session.uploaded[..|session.uploaded|] == session.uploaded;
      percent := PercentDone(uploaded, session.count);
      bytes := BytesDone(uploaded, session.chunkSize, session.total);
    }

    method HandleComplete(user: Id, upload: Id, now: nat) returns (resp: Resp)
      requires Valid()
      modifies this
      ensures Valid() && (Snapshot(), resp) == StepComplete(cfg, old(Snapshot()), Complete(user, upload, now))
    {
      CompleteInv(cfg, Snapshot(), Complete(user, upload, now));
      resp := CompleteSession(user, upload, now);
    }

    /** `handle_complete`: every part must have arrived, and every chunk is read before a row is written. */
    method CompleteSession(user: Id, upload: Id, now: nat) returns (resp: Resp)
      requires store.Valid() && UniqueKeys(db) && SessionsSound(Snapshot())
      modifies this
      ensures (Snapshot(), resp) == StepComplete(cfg, old(Snapshot()), Complete(user, upload, now))
    {
      var err := SessionError(State(map[], db, sessions, hints), user, upload);
      if err.Some? {
        return Error(err.value);
      }
      var t := sessions[upload];
      for i := 0 to t.count
        invariant false !in t.uploaded[..i]
      {
        if !t.uploaded[i] {
          return Error(400);
        }
        assert t.uploaded[..i + 1] == t.uploaded[..i] + [t.uploaded[i]];
      }
      assert t.uploaded[..t.count] == t.uploaded;
      var full := store.GetChunked(t.parts);
      if full.None? {
        return Error(500);
      }
      var hash := cfg.sha(full.value);
      var found := FindContent(hash);
      var c := if found.Some? then found.value else db.nextId;
      var file: Option<Id>;
      if found.Some? {
        file := LinkExisting(found.value, t.name, user, t.folder, now);
      } else {
        file := InsertFresh(ContentRow(hash, t.total, t.parts, MimeOrDefault(t.mime)), t.name, user, t.folder);
      }
      if file.None? {
        return Error(500);
      }
      if cfg.redis {
        hints := hints[hash := c];
      }
      sessions := sessions - {upload};
      resp := Created(file.value, found.Some?);
    }

    method HandleAbort(user: Id, upload: Id) returns (resp: Resp)
      requires Valid()
      modifies this`sessions
      ensures Valid() && (Snapshot(), resp) == StepAbort(old(Snapshot()), Abort(user, upload))
    {
      var err := SessionError(State(map[], db, sessions, hints), user, upload);
      if err.Some? {
        return Error(err.value);
      }
      sessions := sessions - {upload};
      resp := Done;
    }

    // ---- download and delete ----

    method ReadContent(file: Id) returns (resp: Resp)
      requires Valid() && file in db.files
      ensures resp == ReadFile(Snapshot(), file)
    {
      var data := store.GetChunked(db.contents[db.files[file].content].chunks);
      resp := if data.Some? then Data(data.value) else Error(500);
    }

    method HandleDownload(user: Id, file: Id) returns (resp: Resp)
      requires Valid()
      ensures resp == StepDownload(Snapshot(), Download(user, file))
    {
      if !Owned(db, user, file) {
        return Error(404);
      }
      resp := ReadContent(file);
    }

    method HandleDelete(user: Id, file: Id) returns (resp: Resp)
      requires Valid()
      modifies this`db, store`disk
      ensures Valid() && (Snapshot(), resp) == StepDelete(old(Snapshot()), Delete(user, file))
    {
      if !Owned(db, user, file) {
        return Error(404);
      }
      var c := db.files[file].content;
      DeleteTablesInv(db, file);
      var shares := SharesOfFile(db, file);
      db := SoftDelete(db, file);
      db := Revoke(db, shares);
      PurgeInv(cfg, Snapshot(), c);
      var rows, chunks := PurgeContent(c);
      resp := Collected(rows, chunks);
    }

    // ---- shares ----

    method GenerateToken(draws: seq<string>) returns (token: Option<string>)
      ensures token == FirstUnused(db, draws, 10)
    {
      var attempt := 0;
      while attempt < 10 && attempt < |draws|
        invariant 0 <= attempt <= 10 && attempt <= |draws|
        invariant FirstUnused(db, draws, 10) == FirstUnused(db, draws[attempt..], 10 - attempt)
      {
        if !(exists s | s in db.shares :: db.shares[s].token == draws[attempt]) {
          return Some(draws[attempt]);
        }
        assert draws[attempt..][1..] == draws[attempt + 1..];
        attempt := attempt + 1;
      }
      token := None;
    }

    method HandleCreateShare(user: Id, file: Id, password: Bytes, maxDownloads: int, draws: seq<string>) returns (resp: Resp)
      requires Valid()
      modifies this`db
      ensures Valid()
      ensures (Snapshot(), resp) == StepCreateShare(cfg, old(Snapshot()), CreateShare(user, file, password, maxDownloads, draws))
    {
      ghost var s, e := Snapshot(), CreateShare(user, file, password, maxDownloads, draws);
      CreateShareInv(cfg, s, e);
      if !Owned(db, user, file) {
        return Error(404);
      }
      var token := GenerateToken(draws);
      if token.None? {
        return Error(500);
      }
      var id := db.nextId;
      var hash := if password == [] then "" else cfg.sha(password);
      var row := ShareRow(file, user, token.value, hash, maxDownloads, 0, false);
      db := db.(shares := db.shares[id := row], nextId := id + 1);
      assert Snapshot() == StepCreateShare(cfg, s, e).0;
      resp := Shared(id);
    }

    method HandleRevoke(user: Id, token: string) returns (resp: Resp)
      requires Valid()
      modifies this`db
      ensures Valid() && (Snapshot(), resp) == StepRevokeShare(old(Snapshot()), RevokeShare(user, token))
    {
      RevokeShareInv(cfg, Snapshot(), RevokeShare(user, token));
      if token == "" {
        return Error(400);
      }
      var share := FindShare(token);
      if share.None? {
        return Error(404);
      }
      if db.shares[share.value].owner != user {
        return Error(403);
      }
      db := Revoke(db, {share.value});
      resp := Done;
    }

    /** `resolve_share`: the share, or the error; a counted download bumps the counter. */
    method ResolveShare(token: string, password: Bytes, counted: bool, expired: bool) returns (share: Option<Id>, err: int)
      requires Valid()
      modifies this`db
      ensures Valid()
      ensures var e := ShareError(cfg, old(db), token, password, counted, expired);
              if e.Some? then share == None && err == e.value && db == old(db)
              else share == ShareOf(old(db), token) && db == if counted then CountDownload(old(db), share.value) else old(db)
    {
      share, err := None, 0;
      if token == "" {
        err := 400;
        return;
      }
      var found := FindShare(token);
      if found.None? {
        err := 404;
        return;
      }
      var row := db.shares[found.value];
      if row.revoked {
        err := 403;
        return;
      }
      if expired {
        err := 410;
        return;
      }
      if row.password != "" {
        if password == [] {
          err := 401;
          return;
        }
        if cfg.sha(password) != row.password {
          err := 403;
          return;
        }
      }
      if counted && row.maxDownloads > 0 && row.downloads >= row.maxDownloads {
        err := 403;
        return;
      }
      if counted {
        CountDownloadInv(db, found.value);
        db := CountDownload(db, found.value);
      }
      share := found;
    }

    method HandleShareDownload(token: string, password: Bytes, counted: bool, expired: bool) returns (resp: Resp)
      requires Valid()
      modifies this`db
      ensures Valid()
      ensures (Snapshot(), resp) == StepShareDownload(cfg, old(Snapshot()), ShareDownload(token, password, counted, expired))
    {
      var share, err := ResolveShare(token, password, counted, expired);
      if share.None? {
        return Error(err);
      }
      var file := db.shares[share.value].file;
      if !Live(db, file) {
        return Error(404);
      }
      var read := ReadContent(file);
      resp := if read.Data? then Granted(share.value, file, read.bytes) else read;
    }

    method HandleSave(user: Id, token: string, password: Bytes, expired: bool, now: nat) returns (resp: Resp)
      requires Valid()
      modifies this`db
      ensures Valid() && (Snapshot(), resp) == StepSave(cfg, old(Snapshot()), Save(user, token, password, expired, now))
    {
      SaveInv(cfg, Snapshot(), Save(user, token, password, expired, now));
      resp := SaveShared(user, token, password, expired, now);
    }

    method SaveShared(user: Id, token: string, password: Bytes, expired: bool, now: nat) returns (resp: Resp)
      requires Valid()
      modifies this`db
      ensures (Snapshot(), resp) == StepSave(cfg, old(Snapshot()), Save(user, token, password, expired, now))
    {
      var share, err := ResolveShare(token, password, false, expired);
      if share.None? {
        return Error(err);
      }
      var from := db.shares[share.value].file;
      if !Live(db, from) {
        return Error(404);
      }
      var file := LinkExisting(db.files[from].content, db.files[from].name, user, None, now);
      resp := if file.Some? then Saved(file.value, from, share.value) else Error(500);
    }

    // ---- folders ----

    method HandleCreateFolder(user: Id, parent: Option<Id>, name: string) returns (resp: Resp)
      requires Valid()
      modifies this`db
      ensures Valid() && (Snapshot(), resp) == StepCreateFolder(old(Snapshot()), CreateFolder(user, parent, name))
    {
      ghost var s, e := Snapshot(), CreateFolder(user, parent, name);
      CreateFolderInv(cfg, s, e);
      if name == "" {
        return Error(400);
      }
      if !FolderAllowed(db, user, parent) {
        return Error(404);
      }
      if FolderNameTaken(db, user, parent, name) {
        return Error(409);
      }
      var id := db.nextId;
      db := db.(folders := db.folders[id := FolderRow(name, parent, user, false)], nextId := id + 1);
      assert Snapshot() == StepCreateFolder(s, e).0;
      resp := FolderMade(id);
    }

    method HandleDeleteFolder(user: Id, folder: Id) returns (resp: Resp)
      requires Valid()
      modifies this`db
      ensures Valid() && (Snapshot(), resp) == StepDeleteFolder(old(Snapshot()), DeleteFolder(user, folder))
    {
      DeleteFolderInv(cfg, Snapshot(), DeleteFolder(user, folder));
      if !FolderAllowed(db, user, Some(folder)) {
        return Error(404);
      }
      if HasChildren(db, folder) {
        return Error(400);
      }
      db := db.(folders := db.folders[folder := db.folders[folder].(deleted := true)]);
      resp := Done;
    }

    method HandleRenameFolder(user: Id, folder: Id, name: string) returns (resp: Resp)
      requires Valid()
      modifies this`db
      ensures Valid() && (Snapshot(), resp) == StepRenameFolder(old(Snapshot()), RenameFolder(user, folder, name))
    {
      RenameFolderInv(cfg, Snapshot(), RenameFolder(user, folder, name));
      if !FolderAllowed(db, user, Some(folder)) {
        return Error(404);
      }
      if name == "" {
        return Error(400);
      }
      if FolderNameTaken(db, user, db.folders[folder].parent, name) && name != db.folders[folder].name {
        return Error(409);
      }
      db := db.(folders := db.folders[folder := db.folders[folder].(name := name)]);
      resp := Done;
    }
  }

  ghost predicate Swept(s: State, batch: seq<Id>, s': State, rows: nat, chunks: nat) {
    PurgeAll(s, batch) == (s', rows, chunks)
  }

  lemma PurgeAllNext(s: State, batch: seq<Id>, k: nat, s1: State, r1: nat, k1: nat, s2: State, r2: nat, k2: nat)
    requires k < |batch| && Swept(s, batch[..k], s1, r1, k1) && Purge(s1, batch[k]) == (s2, r2, k2)
    ensures Swept(s, batch[..k + 1], s2, r1 + r2, k1 + k2)
  {
    assert batch[..k + 1][..k] == batch[..k];
  }

  lemma GarbageSnoc(disk: Disk, db: Db, hashes: seq<Hash>, k: nat)
    requires k < |hashes|
    ensures var before := Garbage(disk, db, hashes[..k]); var after := Garbage(disk, db, hashes[..k + 1]); var h := hashes[k];
            && after == (if ChunkInUse(db, h) || h !in disk then before else before + {h})
            && |after| == |before| + (if h in disk - before && !ChunkInUse(db, h) then 1 else 0)
            && disk - after == if ChunkInUse(db, h) then disk - before else disk - before - {h}
  {
    assert hashes[..k + 1] == hashes[..k] + [hashes[k]];
    var before, h := Garbage(disk, db, hashes[..k]), hashes[k];
    if h in before { assert before + {h} == before; }
  }
}
