/** The invariant of the server state and its preservation by every step. */
module DriveInvariant {
  import opened Common
  import opened ObjectStore
  import opened Tables
  import opened DriveSpec
  import UniqueName

  /** Every content row can be read back, and what is read has the recorded hash. */
  ghost predicate Intact(cfg: Config, disk: Disk, db: Db) {
    forall c | c in db.contents :: IntactRow(cfg, disk, db.contents[c])
  }

  ghost predicate IntactRow(cfg: Config, disk: Disk, row: ContentRow) {
    Readable(disk, row.chunks) && cfg.sha(Assembled(disk, row.chunks)) == row.hash
  }

  /** A deleted file has no usable share, and limited shares are within their limit. */
  ghost predicate SharesSound(db: Db) {
    && (forall s | s in db.shares && db.shares[s].file in db.files && db.files[db.shares[s].file].deleted :: db.shares[s].revoked)
    && (forall s | s in db.shares && db.shares[s].maxDownloads > 0 :: db.shares[s].downloads <= db.shares[s].maxDownloads)
  }

  ghost predicate SessionsSound(s: State) {
    forall u | u in s.sessions :: WellShaped(s.sessions[u]) && u < s.db.nextId
  }

  ghost predicate Inv(cfg: Config, s: State) {
    && GoodConfig(cfg)
    && Addressed(cfg.sha, s.disk)
    && Consistent(s.db)
    && Intact(cfg, s.disk, s.db)
    && SharesSound(s.db)
    && SessionsSound(s)
  }

  lemma InvInitial(cfg: Config)
    requires GoodConfig(cfg)
    ensures Inv(cfg, INITIAL)
  {
  }

  // ---- the disk ----

  lemma IntactAfterStore(cfg: Config, disk: Disk, db: Db, ps: seq<Bytes>)
    requires GoodConfig(cfg) && Addressed(cfg.sha, disk) && Intact(cfg, disk, db)
    ensures Addressed(cfg.sha, ObjectStore.Stored(cfg.sha, disk, ps))
    ensures Intact(cfg, ObjectStore.Stored(cfg.sha, disk, ps), db)
  {
    var d := ObjectStore.Stored(cfg.sha, disk, ps);
    StoredAddressed(cfg.sha, disk, ps);
    forall c | c in db.contents ensures IntactRow(cfg, d, db.contents[c]) {
      assert IntactRow(cfg, disk, db.contents[c]);
      AssembledAgrees(cfg.sha, disk, d, db.contents[c].chunks);
    }
  }

  lemma IntactAfterRemove(cfg: Config, disk: Disk, db: Db, chunks: seq<Hash>)
    requires GoodConfig(cfg) && Addressed(cfg.sha, disk) && Intact(cfg, disk, db)
    ensures Intact(cfg, disk - Garbage(disk, db, chunks), db)
  {
    var gone := Garbage(disk, db, chunks);
    forall c | c in db.contents ensures IntactRow(cfg, disk - gone, db.contents[c]) {
      assert IntactRow(cfg, disk, db.contents[c]);
      AssembledAfterRemove(cfg.sha, disk, gone, db.contents[c].chunks);
    }
  }

  // ---- inserts ----

  lemma LiveNamesListed(db: Db, owner: Id, folder: Option<Id>)
    ensures forall f | f in db.files && !db.files[f].deleted && db.files[f].owner == owner && db.files[f].folder == folder
              :: db.files[f].name in LiveNames(db, owner, folder)
  {
  }

  lemma InsertFileConsistent(db: Db, row: FileRow)
    requires Consistent(db) && SharesSound(db) && InsertFile(db, row).Some?
    ensures Consistent(InsertFile(db, row).value) && SharesSound(InsertFile(db, row).value)
  {
    var d := InsertFile(db, row).value;
    LiveNamesListed(db, row.owner, row.folder);
  }

  lemma InsertContentConsistent(db: Db, row: ContentRow)
    requires Consistent(db) && SharesSound(db) && ContentOf(db, row.hash).None?
    ensures Consistent(InsertContent(db, row)) && SharesSound(InsertContent(db, row))
  {
  }

  lemma InsertNewInv(cfg: Config, disk: Disk, db: Db, user: Id, folder: Option<Id>, name: string, row: ContentRow)
    requires Consistent(db) && SharesSound(db) && Intact(cfg, disk, db)
    requires ContentOf(db, row.hash).None? && IntactRow(cfg, disk, row)
    requires InsertNew(db, user, folder, name, row).Some?
    ensures var d := InsertNew(db, user, folder, name, row).value;
            Consistent(d) && SharesSound(d) && Intact(cfg, disk, d)
  {
    InsertContentConsistent(db, row);
    InsertFileConsistent(InsertContent(db, row), FileRow(name, user, folder, db.nextId, false));
  }

  lemma LinkInv(cfg: Config, disk: Disk, db: Db, user: Id, folder: Option<Id>, name: string, c: Id, now: nat)
    requires Consistent(db) && SharesSound(db) && Intact(cfg, disk, db)
    requires LinkFile(db, user, folder, name, c, now).Some?
    ensures var d := LinkFile(db, user, folder, name, c, now).value;
            Consistent(d) && SharesSound(d) && Intact(cfg, disk, d)
  {
    InsertFileConsistent(db, FileRow(UniqueName.Fresh(LiveNames(db, user, folder), name, now), user, folder, c, false));
  }

  // ---- purge ----

  lemma PurgeInv(cfg: Config, s: State, c: Id)
    requires Inv(cfg, s)
    ensures Inv(cfg, Purge(s, c).0)
  {
    if c in s.db.contents && !HasLiveReference(s.db, c) {
      PurgeOrderKeepsReferences(s.db, c);
      var d := PurgeTables(s.db, c).value;
      assert UniqueKeys(d) && IdsBelow(d) && SharesSound(d);
      assert Intact(cfg, s.disk, d) by {
        forall i | i in d.contents ensures IntactRow(cfg, s.disk, d.contents[i]) {
          assert IntactRow(cfg, s.disk, s.db.contents[i]);
        }
      }
      IntactAfterRemove(cfg, s.disk, d, s.db.contents[c].chunks);
    }
  }

  lemma {:induction false} PurgeAllInv(cfg: Config, s: State, batch: seq<Id>)
    requires Inv(cfg, s)
    ensures Inv(cfg, PurgeAll(s, batch).0)
    decreases |batch|
  {
    if batch != [] {
      PurgeAllInv(cfg, s, batch[..|batch| - 1]);
      PurgeInv(cfg, PurgeAll(s, batch[..|batch| - 1]).0, batch[|batch| - 1]);
    }
  }

  // ---- the handlers ----

  lemma UploadInv(cfg: Config, s: State, e: Event)
    requires Inv(cfg, s) && e.Upload?
    ensures Inv(cfg, StepUpload(cfg, s, e).0)
  {
    if e.body != [] && !Oversized(cfg, |e.body|) && FolderAllowed(s.db, e.user, e.folder) {
      var hash := cfg.sha(e.body);
      var found := ContentOf(s.db, hash);
      if found.Some? {
        if LinkFile(s.db, e.user, e.folder, e.name, found.value, e.now).Some? {
          LinkInv(cfg, s.disk, s.db, e.user, e.folder, e.name, found.value, e.now);
        }
      } else {
        var ps := Chunks(e.body, cfg.chunkSize);
        var disk := ObjectStore.Stored(cfg.sha, s.disk, ps);
        var row := ContentRow(hash, |e.body|, Hashes(cfg.sha, ps), MimeOrDefault(e.mime));
        IntactAfterStore(cfg, s.disk, s.db, ps);
        ChunkedRoundTrip(cfg.sha, s.disk, e.body, cfg.chunkSize);
        if InsertNew(s.db, e.user, e.folder, e.name, row).Some? {
          InsertNewInv(cfg, disk, s.db, e.user, e.folder, e.name, row);
        }
      }
    }
  }

  lemma InitInv(cfg: Config, s: State, e: Event)
    requires Inv(cfg, s) && e.Init?
    ensures Inv(cfg, StepInit(cfg, s, e).0)
  {
    OpenedSound(cfg, s, e);
    NextIdConsistent(s.db, StepInit(cfg, s, e).0.db);
  }

  lemma OpenedSound(cfg: Config, s: State, e: Event)
    requires SessionsSound(s) && e.Init? && cfg.partSize > 0
    ensures SessionsSound(StepInit(cfg, s, e).0)
    ensures StepInit(cfg, s, e).0.db == s.db.(nextId := StepInit(cfg, s, e).0.db.nextId)
  { }

  /** Handing out a key changes no table. */
  lemma NextIdConsistent(db: Db, d: Db)
    requires Consistent(db) && SharesSound(db) && d == db.(nextId := d.nextId) && db.nextId <= d.nextId
    ensures Consistent(d) && SharesSound(d)
  { }

  lemma PartInv(cfg: Config, s: State, e: Event)
    requires Inv(cfg, s) && e.Part?
    ensures Inv(cfg, StepPart(cfg, s, e).0)
  {
    IntactAfterStore(cfg, s.disk, s.db, [e.body]);
  }

  lemma CompleteInv(cfg: Config, s: State, e: Event)
    requires Inv(cfg, s) && e.Complete?
    ensures Inv(cfg, StepComplete(cfg, s, e).0)
  {
    if SessionError(s, e.user, e.upload).None? {
      var t := s.sessions[e.upload];
      if false !in t.uploaded && Readable(s.disk, t.parts) {
        var hash := cfg.sha(Assembled(s.disk, t.parts));
        var found := ContentOf(s.db, hash);
        var row := ContentRow(hash, t.total, t.parts, MimeOrDefault(t.mime));
        if found.Some? {
          if LinkFile(s.db, e.user, t.folder, t.name, found.value, e.now).Some? {
            LinkInv(cfg, s.disk, s.db, e.user, t.folder, t.name, found.value, e.now);
          }
        } else if InsertNew(s.db, e.user, t.folder, t.name, row).Some? {
          InsertNewInv(cfg, s.disk, s.db, e.user, t.folder, t.name, row);
        }
      }
    }
  }

  lemma RevokeInv(db: Db, ids: set<Id>)
    requires Consistent(db)
    ensures Consistent(Revoke(db, ids)) && (SharesSound(db) ==> SharesSound(Revoke(db, ids)))
  {
    var d := Revoke(db, ids);
    forall s, t | s in d.shares && t in d.shares && SameToken(d.shares[s], d.shares[t]) ensures s == t {
      assert SameToken(db.shares[s], db.shares[t]);
    }
  }

  /** A live file of this content still refers to it until it is deleted; then its shares are revoked. */
  lemma DeleteTablesInv(db: Db, f: Id)
    requires Consistent(db) && SharesSound(db) && Live(db, f)
    ensures var d := Revoke(SoftDelete(db, f), SharesOfFile(db, f)); Consistent(d) && SharesSound(d)
  {
    SoftDeleteConsistent(db, f);
    RevokeInv(SoftDelete(db, f), SharesOfFile(db, f));
    SharesOfDeleted(db, f);
  }

  lemma SoftDeleteConsistent(db: Db, f: Id)
    requires Consistent(db) && Live(db, f)
    ensures Consistent(SoftDelete(db, f))
  {
    var d := SoftDelete(db, f);
    forall g, h | g in d.files && h in d.files && SameEntry(d.files[g], d.files[h]) ensures g == h {
      assert SameEntry(db.files[g], db.files[h]);
    }
  }

  lemma SharesOfDeleted(db: Db, f: Id)
    requires SharesSound(db) && Live(db, f)
    ensures SharesSound(Revoke(SoftDelete(db, f), SharesOfFile(db, f)))
  { }

  lemma DeleteInv(cfg: Config, s: State, e: Event)
    requires Inv(cfg, s) && e.Delete?
    ensures Inv(cfg, StepDelete(s, e).0)
  {
    if Owned(s.db, e.user, e.file) {
      DeleteTablesInv(s.db, e.file);
      var db := Revoke(SoftDelete(s.db, e.file), SharesOfFile(s.db, e.file));
      PurgeInv(cfg, s.(db := db), s.db.files[e.file].content);
    }
  }

  lemma FirstUnusedIsUnused(db: Db, draws: seq<string>, n: nat)
    requires FirstUnused(db, draws, n).Some?
    ensures forall s | s in db.shares :: db.shares[s].token != FirstUnused(db, draws, n).value
    ensures FirstUnused(db, draws, n).value in draws
  {
  }

  lemma AddShareInv(db: Db, id: Id, row: ShareRow)
    requires Consistent(db) && SharesSound(db) && id == db.nextId && row.file in db.files && !db.files[row.file].deleted
    requires !row.revoked && row.downloads == 0 && forall s | s in db.shares :: db.shares[s].token != row.token
    ensures var d := db.(shares := db.shares[id := row], nextId := id + 1); Consistent(d) && SharesSound(d)
  { }

  lemma CreateShareInv(cfg: Config, s: State, e: Event)
    requires Inv(cfg, s) && e.CreateShare?
    ensures Inv(cfg, StepCreateShare(cfg, s, e).0)
  {
    var token := FirstUnused(s.db, e.draws, 10);
    if Owned(s.db, e.user, e.file) && token.Some? {
      FirstUnusedIsUnused(s.db, e.draws, 10);
      var hash := if e.password == [] then "" else cfg.sha(e.password);
      AddShareInv(s.db, s.db.nextId, ShareRow(e.file, e.user, token.value, hash, e.maxDownloads, 0, false));
      var s' := StepCreateShare(cfg, s, e).0;
      assert Consistent(s'.db) && SharesSound(s'.db);
      assert Intact(cfg, s'.disk, s'.db) && SessionsSound(s');
    }
  }

  lemma RevokeShareInv(cfg: Config, s: State, e: Event)
    requires Inv(cfg, s) && e.RevokeShare?
    ensures Inv(cfg, StepRevokeShare(s, e).0)
  {
    if ShareOf(s.db, e.token).Some? {
      RevokeInv(s.db, {ShareOf(s.db, e.token).value});
    }
  }

  lemma CountDownloadInv(db: Db, id: Id)
    requires Consistent(db) && SharesSound(db) && id in db.shares
    requires db.shares[id].maxDownloads > 0 ==> db.shares[id].downloads < db.shares[id].maxDownloads
    ensures Consistent(CountDownload(db, id)) && SharesSound(CountDownload(db, id))
  {
    var d := CountDownload(db, id);
    forall a, b | a in d.shares && b in d.shares && SameToken(d.shares[a], d.shares[b]) ensures a == b {
      assert SameToken(db.shares[a], db.shares[b]);
    }
  }

  lemma ShareDownloadInv(cfg: Config, s: State, e: Event)
    requires Inv(cfg, s) && e.ShareDownload?
    ensures Inv(cfg, StepShareDownload(cfg, s, e).0)
  {
    if ShareError(cfg, s.db, e.token, e.password, e.counted, e.expired).None? && e.counted {
      CountDownloadInv(s.db, ShareOf(s.db, e.token).value);
    }
  }

  lemma SaveInv(cfg: Config, s: State, e: Event)
    requires Inv(cfg, s) && e.Save?
    ensures Inv(cfg, StepSave(cfg, s, e).0)
  {
    if ShareError(cfg, s.db, e.token, e.password, false, e.expired).None? {
      var f := s.db.shares[ShareOf(s.db, e.token).value].file;
      if Live(s.db, f) && LinkFile(s.db, e.user, None, s.db.files[f].name, s.db.files[f].content, e.now).Some? {
        LinkInv(cfg, s.disk, s.db, e.user, None, s.db.files[f].name, s.db.files[f].content, e.now);
      }
    }
  }

  lemma CreateFolderInv(cfg: Config, s: State, e: Event)
    requires Inv(cfg, s) && e.CreateFolder?
    ensures Inv(cfg, StepCreateFolder(s, e).0)
  {
    if StepCreateFolder(s, e).1.FolderMade? {
      AddKeepsUnique(s.db.folders, s.db.nextId, FolderRow(e.name, e.parent, e.user, false));
    }
  }

  lemma AddKeepsUnique(folders: map<Id, FolderRow>, id: Id, row: FolderRow)
    requires UniqueFolders(folders) && id !in folders
    requires forall d | d in folders :: !SameFolderName(folders[d], row) && !SameFolderName(row, folders[d])
    ensures UniqueFolders(folders[id := row])
  { }

  lemma DeleteKeepsUnique(folders: map<Id, FolderRow>, id: Id)
    requires UniqueFolders(folders) && id in folders
    ensures UniqueFolders(folders[id := folders[id].(deleted := true)])
  { }

  lemma DeleteFolderInv(cfg: Config, s: State, e: Event)
    requires Inv(cfg, s) && e.DeleteFolder?
    ensures Inv(cfg, StepDeleteFolder(s, e).0)
  {
    if e.target in s.db.folders { DeleteKeepsUnique(s.db.folders, e.target); }
  }

  lemma RenameKeepsUnique(folders: map<Id, FolderRow>, id: Id, name: string)
    requires UniqueFolders(folders) && id in folders && !folders[id].deleted
    requires forall d | d in folders && d != id :: !SameFolderName(folders[d], folders[id].(name := name))
    ensures UniqueFolders(folders[id := folders[id].(name := name)])
  {
  }

  lemma RenameFolderInv(cfg: Config, s: State, e: Event)
    requires Inv(cfg, s) && e.RenameFolder?
    ensures Inv(cfg, StepRenameFolder(s, e).0)
  {
    if StepRenameFolder(s, e).1.Done? {
      var row := s.db.folders[e.target];
      forall d | d in s.db.folders && d != e.target ensures !SameFolderName(s.db.folders[d], row.(name := e.name)) {
        if e.name == row.name { assert row.(name := e.name) == row; }
      }
      RenameKeepsUnique(s.db.folders, e.target, e.name);
    }
  }

  lemma MetadataInv(cfg: Config, s: State, e: Event)
    requires Inv(cfg, s) && IsMetadata(e)
    ensures Inv(cfg, StepMetadata(cfg, s, e).0)
  {
    match e
    case CreateShare(_, _, _, _, _) => CreateShareInv(cfg, s, e);
    case RevokeShare(_, _) => RevokeShareInv(cfg, s, e);
    case RevokeExpired(shares) => RevokeInv(s.db, shares);
    case ShareDownload(_, _, _, _) => ShareDownloadInv(cfg, s, e);
    case CreateFolder(_, _, _) => CreateFolderInv(cfg, s, e);
    case DeleteFolder(_, _) => DeleteFolderInv(cfg, s, e);
    case RenameFolder(_, _, _) => RenameFolderInv(cfg, s, e);
    case ForgetHint(_) =>
  }

  lemma EndSessionInv(cfg: Config, s: State, u: Id)
    requires Inv(cfg, s)
    ensures Inv(cfg, s.(sessions := s.sessions - {u}))
  { }

  lemma SessionInv(cfg: Config, s: State, e: Event)
    requires Inv(cfg, s) && IsSession(e)
    ensures Inv(cfg, StepSession(cfg, s, e).0)
  {
    match e
    case Init(_, _, _, _, _) => InitInv(cfg, s, e);
    case Part(_, _, _, _) => PartInv(cfg, s, e);
    case Complete(_, _, _) => CompleteInv(cfg, s, e);
    case Abort(_, u) => EndSessionInv(cfg, s, u);
    case ForgetSession(u) => EndSessionInv(cfg, s, u);
  }

  /** Every step keeps the invariant. */
  lemma StepInv(cfg: Config, s: State, e: Event)
    requires Inv(cfg, s)
    ensures Inv(cfg, Step(cfg, s, e).0)
  {
    if IsSession(e) {
      SessionInv(cfg, s, e);
    } else if IsMetadata(e) {
      MetadataInv(cfg, s, e);
    } else {
      match e
      case Upload(_, _, _, _, _, _) => UploadInv(cfg, s, e);
      case Download(_, _) =>
      case Delete(_, _) => DeleteInv(cfg, s, e);
      case Sweep(batch) => PurgeAllInv(cfg, s, batch);
      case Save(_, _, _, _, _) => SaveInv(cfg, s, e);
    }
  }

  // ---- runs ----

  /** A run: `states[n]` before event `n`, `answers[n]` its response. */
  datatype Trace = Trace(events: seq<Event>, states: seq<State>, answers: seq<Resp>)

  /** Event `n` of the run is one handler step. */
  ghost predicate Link(cfg: Config, t: Trace, n: nat)
    requires n < |t.events| == |t.answers| == |t.states| - 1
  {
    Ready(cfg, t.states[n]) && Step(cfg, t.states[n], t.events[n]) == (t.states[n + 1], t.answers[n])
  }

  /** A run of the server, from empty tables and an empty disk. */
  ghost predicate IsRun(cfg: Config, t: Trace) {
    && GoodConfig(cfg)
    && |t.events| == |t.answers| == |t.states| - 1
    && t.states[0] == INITIAL
    && forall n: nat {:trigger Link(cfg, t, n)} :: n < |t.events| ==> Link(cfg, t, n)
  }

  /** The invariant holds in every reachable state. */
  lemma {:induction false} RunInv(cfg: Config, t: Trace, n: nat)
    requires IsRun(cfg, t) && n <= |t.events|
    ensures Inv(cfg, t.states[n])
  {
    if n > 0 {
      RunInv(cfg, t, n - 1);
      assert Link(cfg, t, n - 1);
      StepInv(cfg, t.states[n - 1], t.events[n - 1]);
    }
  }

  lemma RunIdsGrowOnce(cfg: Config, t: Trace, n: nat)
    requires IsRun(cfg, t) && n < |t.events|
    ensures t.states[n].db.nextId <= t.states[n + 1].db.nextId
  {
    assert Link(cfg, t, n);
  }

  /** Keys are handed out in increasing order. */
  lemma {:induction false} RunIdsGrow(cfg: Config, t: Trace, m: nat, n: nat)
    requires IsRun(cfg, t) && m <= n <= |t.events|
    ensures t.states[m].db.nextId <= t.states[n].db.nextId
    decreases n
  {
    if m < n {
      RunIdsGrow(cfg, t, m, n - 1);
      RunIdsGrowOnce(cfg, t, n - 1);
    }
  }

  /** Every sequence of events has a run: no handler is ever called outside what it
      relies on. */
  lemma {:induction false} RunExists(cfg: Config, es: seq<Event>) returns (t: Trace)
    requires GoodConfig(cfg)
    ensures IsRun(cfg, t) && t.events == es
  {
    if es == [] {
      t := Trace([], [INITIAL], []);
    } else {
      var m := |es| - 1;
      var front := RunExists(cfg, es[..m]);
      RunInv(cfg, front, m);
      var (s', r) := Step(cfg, front.states[m], es[m]);
      t := Trace(es, front.states + [s'], front.answers + [r]);
      forall n: nat | n < |es| ensures Link(cfg, t, n) {
        if n < m { assert Link(cfg, front, n); }
      }
    }
  }

  // ---- a name is always found ----

  /** Linking stored content fails exactly when all 10000 numbered names and the clock's
      name are taken. */
  lemma LinkFailsOnlyIfFull(db: Db, user: Id, folder: Option<Id>, name: string, c: Id, now: nat)
    requires c in db.contents && (folder.Some? ==> folder.value in db.folders)
    ensures LinkFile(db, user, folder, name, c, now).None? <==>
              var taken := LiveNames(db, user, folder);
              UniqueName.Tried(name, 9999) <= taken && UniqueName.Candidate(name, now) in taken
    ensures |LiveNames(db, user, folder)| < 10000 ==> LinkFile(db, user, folder, name, c, now).Some?
  {
    UniqueName.FreshClashes(LiveNames(db, user, folder), name, now);
    if |LiveNames(db, user, folder)| < 10000 { UniqueName.FreshBelowLimit(LiveNames(db, user, folder), name, now); }
  }

  /** Saving a usable share of a live file, or uploading content the server already has,
      succeeds whenever the target holds fewer than 10000 live names. */
  lemma LinkingSucceeds(cfg: Config, s: State, e: Event)
    requires Inv(cfg, s)
    ensures e.Save? && ShareError(cfg, s.db, e.token, e.password, false, e.expired).None?
            && Live(s.db, s.db.shares[ShareOf(s.db, e.token).value].file) && |LiveNames(s.db, e.user, None)| < 10000
            ==> StepSave(cfg, s, e).1.Saved?
    ensures e.Upload? && e.body != [] && !Oversized(cfg, |e.body|) && FolderAllowed(s.db, e.user, e.folder)
            && ContentOf(s.db, cfg.sha(e.body)).Some? && |LiveNames(s.db, e.user, e.folder)| < 10000
            ==> StepUpload(cfg, s, e).1 == Created(s.db.nextId, true)
  {
    if e.Save? && ShareError(cfg, s.db, e.token, e.password, false, e.expired).None? {
      var f := s.db.shares[ShareOf(s.db, e.token).value].file;
      if Live(s.db, f) { LinkFailsOnlyIfFull(s.db, e.user, None, s.db.files[f].name, s.db.files[f].content, e.now); }
    }
    if e.Upload? && FolderAllowed(s.db, e.user, e.folder) {
      var found := ContentOf(s.db, cfg.sha(e.body));
      if found.Some? { LinkFailsOnlyIfFull(s.db, e.user, e.folder, e.name, found.value, e.now); }
    }
  }

  // ---- which session requests succeed, judged before the call ----

  /** A part is stored: it is not empty, and session, owner, index and size are right. */
  predicate CanStorePart(s: State, e: Event)
    requires e.Part?
  {
    && e.body != [] && e.upload in s.sessions && s.sessions[e.upload].user == e.user
    && 0 <= e.part < s.sessions[e.upload].count && |e.body| <= s.sessions[e.upload].chunkSize
  }

  lemma PartAnswer(cfg: Config, s: State, e: Event)
    requires e.Part? && forall u | u in s.sessions :: WellShaped(s.sessions[u])
    ensures StepPart(cfg, s, e).1.Stored? <==> CanStorePart(s, e)
  { }

  /** A session completes: it is the user's, every part is marked and every chunk is still on
      disk, its folder row exists, and there is a name for the new entry: any of the numbered
      ones if the content is known, its own if not. */
  ghost predicate CanComplete(cfg: Config, s: State, e: Event)
    requires e.Complete?
  {
    && e.upload in s.sessions && s.sessions[e.upload].user == e.user
    && var t := s.sessions[e.upload];
       && false !in t.uploaded && Readable(s.disk, t.parts)
       && (t.folder.Some? ==> t.folder.value in s.db.folders)
       && var taken := LiveNames(s.db, e.user, t.folder);
          if ContentOf(s.db, cfg.sha(Assembled(s.disk, t.parts))).Some?
          then !(UniqueName.Tried(t.name, 9999) <= taken && UniqueName.Candidate(t.name, e.now) in taken)
          else t.name !in taken
  }

  lemma CompleteAnswer(cfg: Config, s: State, e: Event)
    requires e.Complete?
    ensures StepComplete(cfg, s, e).1.Created? <==> CanComplete(cfg, s, e)
  {
    if e.upload in s.sessions && s.sessions[e.upload].user == e.user && Readable(s.disk, s.sessions[e.upload].parts) {
      var t := s.sessions[e.upload];
      var hash := cfg.sha(Assembled(s.disk, t.parts));
      var found := ContentOf(s.db, hash);
      var row := ContentRow(hash, t.total, t.parts, MimeOrDefault(t.mime));
      if found.Some? && (t.folder.Some? ==> t.folder.value in s.db.folders) {
        LinkFailsOnlyIfFull(s.db, e.user, t.folder, t.name, found.value, e.now);
      }
      assert LiveNames(InsertContent(s.db, row), e.user, t.folder) == LiveNames(s.db, e.user, t.folder);
    }
  }

  // ---- building a run event by event ----

  lemma Extended(cfg: Config, t: Trace, e: Event) returns (t': Trace)
    requires IsRun(cfg, t)
    ensures IsRun(cfg, t') && Ready(cfg, t.states[|t.events|])
    ensures var (s, r) := Step(cfg, t.states[|t.events|], e);
            t' == Trace(t.events + [e], t.states + [s], t.answers + [r])
  {
    RunInv(cfg, t, |t.events|);
    var (s, r) := Step(cfg, t.states[|t.events|], e);
    t' := Trace(t.events + [e], t.states + [s], t.answers + [r]);
    forall n: nat | n < |t'.events| ensures Link(cfg, t', n) {
      if n < |t.events| { assert Link(cfg, t, n); }
    }
  }

  function OnePart(cfg: Config, folder: Option<Id>, total: int): Session {
    Session(1, folder, "f", "", total, cfg.partSize, 1, [false], [""])
  }

  lemma OnePartOpened(cfg: Config, s: State, folder: Option<Id>, total: int)
    requires cfg.partSize > 0 && cfg.redis && FolderAllowed(s.db, 1, folder)
    requires total > 0 && !Oversized(cfg, total) && ChunkCount(total, cfg.partSize) == 1
    ensures var u := s.db.nextId;
            StepInit(cfg, s, Init(1, folder, "f", "", total))
            == (s.(db := s.db.(nextId := u + 1), sessions := s.sessions[u := OnePart(cfg, folder, total)]), Opened(u, cfg.partSize, 1))
  {
    var session := StepInit(cfg, s, Init(1, folder, "f", "", total)).0.sessions[s.db.nextId];
    assert session.uploaded == [false] && session.parts == [""];
  }

  lemma OnePartStored(cfg: Config, s: State, u: Id, folder: Option<Id>, total: int, body: Bytes)
    requires Ready(cfg, s) && 0 < |body| <= cfg.partSize && u in s.sessions && s.sessions[u] == OnePart(cfg, folder, total)
    ensures StepPart(cfg, s, Part(1, u, 0, body))
            == (s.(disk := s.disk[cfg.sha(body) := body],
                   sessions := s.sessions[u := OnePart(cfg, folder, total).(uploaded := [true], parts := [cfg.sha(body)])]),
                DriveSpec.Stored(cfg.sha(body)))
  {
    assert [body][..0] == [] && ObjectStore.Stored(cfg.sha, s.disk, [body]) == s.disk[cfg.sha(body) := body];
    var session := StepPart(cfg, s, Part(1, u, 0, body)).0.sessions[u];
    assert session.uploaded == [true] && session.parts == [cfg.sha(body)];
  }

  /** User 1 opens an upload of one part and sends that part. */
  lemma OnePartSent(cfg: Config, t: Trace, folder: Option<Id>, total: int, body: Bytes) returns (t': Trace)
    requires IsRun(cfg, t) && cfg.redis && FolderAllowed(t.states[|t.events|].db, 1, folder)
    requires total > 0 && !Oversized(cfg, total) && ChunkCount(total, cfg.partSize) == 1 && 0 < |body| <= cfg.partSize
    ensures var s := t.states[|t.events|]; var u := s.db.nextId;
            && IsRun(cfg, t') && t'.events == t.events + [Init(1, folder, "f", "", total), Part(1, u, 0, body)]
            && t'.answers == t.answers + [Opened(u, cfg.partSize, 1), DriveSpec.Stored(cfg.sha(body))]
            && |t'.states| == |t.states| + 2 && t'.states[..|t.states|] == t.states
            && t'.states[|t'.events|] == State(s.disk[cfg.sha(body) := body], s.db.(nextId := u + 1),
                 s.sessions[u := OnePart(cfg, folder, total).(uploaded := [true], parts := [cfg.sha(body)])], s.hints)
  {
    var s := t.states[|t.events|];
    var u := s.db.nextId;
    OnePartOpened(cfg, s, folder, total);
    var t1 := Extended(cfg, t, Init(1, folder, "f", "", total));
    var s1 := t1.states[|t1.events|];
    t' := Extended(cfg, t1, Part(1, u, 0, body));
    OnePartStored(cfg, s1, u, folder, total, body);
    var session := OnePart(cfg, folder, total).(uploaded := [true], parts := [cfg.sha(body)]);
    assert s1.sessions[u := session] == s.sessions[u := session];
  }
}
