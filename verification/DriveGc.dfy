/** Garbage collection is exact: it removes all that is unreferenced and nothing else,
    and its counters are the true numbers of rows and chunk files removed. */
module DriveGc {
  import opened Common
  import opened ObjectStore
  import opened Tables
  import opened DriveSpec
  import opened DriveInvariant
  import UniqueName

  /** The chunks some content row lists. */
  function Listed(db: Db): set<Hash> {
    set c, h | c in db.contents && h in db.contents[c].chunks :: h
  }

  /** No orphaned row and no orphaned chunk. */
  ghost predicate Exact(s: State) {
    (forall c | c in s.db.contents :: HasLiveReference(s.db, c)) && s.disk.Keys == Listed(s.db)
  }

  // ---- one purge ----

  /** The counters of a purge are exact, however often a chunk repeats in the row. */
  lemma PurgeCounts(s: State, c: Id)
    ensures var (s', rows, chunks) := Purge(s, c);
            && s'.disk.Keys <= s.disk.Keys && s'.db.contents.Keys <= s.db.contents.Keys
            && rows == |s.db.contents.Keys - s'.db.contents.Keys|
            && chunks == |s.disk.Keys - s'.disk.Keys|
  {
    var (s', rows, chunks) := Purge(s, c);
    if rows == 0 {
      assert s.disk.Keys - s'.disk.Keys == {} && s.db.contents.Keys - s'.db.contents.Keys == {};
    } else {
      var gone := Garbage(s.disk, s'.db, s.db.contents[c].chunks);
      KeysRemoved(s.db.contents, {c});
      KeysRemoved(s.disk, gone);
    }
  }

  lemma KeysRemoved<K, V>(m: map<K, V>, gone: set<K>)
    requires gone <= m.Keys
    ensures (m - gone).Keys <= m.Keys && m.Keys - (m - gone).Keys == gone
  { }

  lemma RemovedTwice<T>(a: set<T>, b: set<T>, c: set<T>)
    requires c <= b <= a
    ensures |a - c| == |a - b| + |b - c|
  {
    assert a - c == (a - b) + (b - c);
  }

  /** The totals of a sweep are exact too. */
  lemma {:induction false} SweepCounts(s: State, batch: seq<Id>)
    ensures var (s', rows, chunks) := PurgeAll(s, batch);
            && s'.disk.Keys <= s.disk.Keys && s'.db.contents.Keys <= s.db.contents.Keys
            && rows == |s.db.contents.Keys - s'.db.contents.Keys|
            && chunks == |s.disk.Keys - s'.disk.Keys|
    decreases |batch|
  {
    if batch == [] {
      assert s.disk.Keys - s.disk.Keys == {} && s.db.contents.Keys - s.db.contents.Keys == {};
    } else {
      var front, c := batch[..|batch| - 1], batch[|batch| - 1];
      var s1 := PurgeAll(s, front).0;
      SweepCounts(s, front);
      PurgeCounts(s1, c);
      RemovedTwice(s.disk.Keys, s1.disk.Keys, Purge(s1, c).0.disk.Keys);
      RemovedTwice(s.db.contents.Keys, s1.db.contents.Keys, Purge(s1, c).0.db.contents.Keys);
    }
  }

  /** A row that some live file refers to is never purged; any other row is. */
  lemma PurgeExactlyOrphans(s: State, c: Id)
    ensures c in Purge(s, c).0.db.contents <==> c in s.db.contents && HasLiveReference(s.db, c)
    ensures c in s.db.contents && HasLiveReference(s.db, c) ==> Purge(s, c) == (s, 0, 0)
    ensures forall d | d != c :: d in Purge(s, c).0.db.contents <==> d in s.db.contents
    ensures forall d | d in Purge(s, c).0.db.contents :: HasLiveReference(Purge(s, c).0.db, d) <==> HasLiveReference(s.db, d)
  {
    var s' := Purge(s, c).0;
    if c in s.db.contents && !HasLiveReference(s.db, c) {
      PurgeKeepsLiveFiles(s, c);
    }
    forall d | d in s'.db.contents ensures HasLiveReference(s'.db, d) <==> HasLiveReference(s.db, d) {
      if HasLiveReference(s.db, d) {
        var f :| f in s.db.files && s.db.files[f].content == d && !s.db.files[f].deleted;
        assert f in s'.db.files;
      }
    }
  }

  lemma PurgeKeepsLiveFiles(s: State, c: Id)
    ensures forall f | f in s.db.files && !s.db.files[f].deleted :: f in Purge(s, c).0.db.files
    ensures c in s.db.contents && !HasLiveReference(s.db, c) ==> Purge(s, c).1 == 1
  {
    var d2 := DeleteTombstones(DeleteTombstoneShares(s.db, c), c);
    assert !HasLiveReference(s.db, c) ==> !HasLiveReference(d2, c);
  }

  /** A sweep whose batch names every orphan leaves none. */
  lemma {:induction false} SweepCollectsAll(s: State, batch: seq<Id>)
    ensures forall c | c in PurgeAll(s, batch).0.db.contents ::
              c in s.db.contents && (HasLiveReference(PurgeAll(s, batch).0.db, c) <==> HasLiveReference(s.db, c))
    ensures forall c | c in s.db.contents ::
              c in PurgeAll(s, batch).0.db.contents <==> HasLiveReference(s.db, c) || c !in batch
    decreases |batch|
  {
    if batch != [] {
      var front, last := batch[..|batch| - 1], batch[|batch| - 1];
      SweepCollectsAll(s, front);
      PurgeExactlyOrphans(PurgeAll(s, front).0, last);
      assert batch == front + [last];
    }
  }

  lemma ListedIsInUse(db: Db, h: Hash)
    ensures h in Listed(db) <==> ChunkInUse(db, h)
  {
  }

  /** Disk contents after a purge that starts with no orphaned chunk. */
  lemma PurgeKeepsListed(s: State, c: Id)
    requires s.disk.Keys == Listed(s.db)
    ensures Purge(s, c).0.disk.Keys == Listed(Purge(s, c).0.db)
  {
    var s' := Purge(s, c).0;
    if Purge(s, c).1 == 1 {
      forall h ensures h in s'.disk <==> h in Listed(s'.db) {
        ListedIsInUse(s.db, h);
        ListedIsInUse(s'.db, h);
        if ChunkInUse(s.db, h) {
          var d :| d in s.db.contents && h in s.db.contents[d].chunks;
          assert d != c ==> d in s'.db.contents;
        }
      }
    }
  }

  // ---- whole steps ----

  /** A fresh upload under a name already used in its folder is rejected by the unique
      index, after its chunks were written. */
  ghost predicate RejectedUpload(cfg: Config, s: State, e: Event) {
    && e.Upload? && e.body != [] && !Oversized(cfg, |e.body|) && FolderAllowed(s.db, e.user, e.folder)
    && ContentOf(s.db, cfg.sha(e.body)).None?
    && e.name in LiveNames(s.db, e.user, e.folder)
  }

  /** The events that leave a chunk no content row lists. */
  ghost predicate LeavesChunks(cfg: Config, s: State, e: Event)
    requires Ready(cfg, s)
  {
    || (RejectedUpload(cfg, s, e) && exists h :: h in Hashes(cfg.sha, Chunks(e.body, cfg.chunkSize)) && h !in Listed(s.db))
    || (e.Part? && CanStorePart(s, e) && cfg.sha(e.body) !in Listed(s.db))
  }

  lemma LinkExact(s: State, row: FileRow)
    requires Exact(s) && Consistent(s.db) && InsertFile(s.db, row).Some?
    ensures Exact(s.(db := InsertFile(s.db, row).value))
  {
    var d := InsertFile(s.db, row).value;
    assert d.contents == s.db.contents;
    forall c | c in d.contents ensures HasLiveReference(d, c) {
      assert HasLiveReference(s.db, c);
      var f :| f in s.db.files && s.db.files[f].content == c && !s.db.files[f].deleted;
      assert f in d.files && d.files[f] == s.db.files[f];
    }
    assert Listed(d) == Listed(s.db);
  }

  lemma InsertNewExact(s: State, disk: Disk, user: Id, folder: Option<Id>, name: string, row: ContentRow)
    requires Exact(s) && Consistent(s.db) && InsertNew(s.db, user, folder, name, row).Some?
    requires disk.Keys == s.disk.Keys + set h | h in row.chunks
    ensures Exact(s.(disk := disk, db := InsertNew(s.db, user, folder, name, row).value))
  {
    var d := InsertNew(s.db, user, folder, name, row).value;
    var c' := s.db.nextId;
    assert d.contents == s.db.contents[c' := row];
    forall c | c in d.contents ensures HasLiveReference(d, c) {
      if c == c' {
        assert d.files[c' + 1].content == c' && !d.files[c' + 1].deleted;
      } else {
        assert HasLiveReference(s.db, c);
        var f :| f in s.db.files && s.db.files[f].content == c && !s.db.files[f].deleted;
        assert f in d.files && d.files[f] == s.db.files[f];
      }
    }
    forall h ensures h in Listed(d) <==> h in Listed(s.db) || h in row.chunks {
      if h in row.chunks { assert c' in d.contents && h in d.contents[c'].chunks; }
      if h in Listed(s.db) {
        var c :| c in s.db.contents && h in s.db.contents[c].chunks;
        assert c in d.contents && h in d.contents[c].chunks;
      }
    }
  }

  lemma UploadExact(cfg: Config, s: State, e: Event)
    requires GoodConfig(cfg) && Addressed(cfg.sha, s.disk) && Consistent(s.db) && Exact(s) && e.Upload?
    requires Ready(cfg, s)
    ensures Exact(StepUpload(cfg, s, e).0) <==> !LeavesChunks(cfg, s, e)
  {
    if e.body != [] && !Oversized(cfg, |e.body|) && FolderAllowed(s.db, e.user, e.folder) {
      var found := ContentOf(s.db, cfg.sha(e.body));
      if found.Some? {
        if LinkFile(s.db, e.user, e.folder, e.name, found.value, e.now).Some? {
          LinkExact(s, FileRow(UniqueName.Fresh(LiveNames(s.db, e.user, e.folder), e.name, e.now), e.user, e.folder, found.value, false));
        }
      } else {
        FreshUploadExact(cfg, s, e);
      }
    }
  }

  lemma FreshUploadExact(cfg: Config, s: State, e: Event)
    requires GoodConfig(cfg) && Addressed(cfg.sha, s.disk) && Consistent(s.db) && Exact(s) && e.Upload?
    requires Ready(cfg, s)
    requires e.body != [] && !Oversized(cfg, |e.body|) && FolderAllowed(s.db, e.user, e.folder)
    requires ContentOf(s.db, cfg.sha(e.body)).None?
    ensures Exact(StepUpload(cfg, s, e).0) <==> !LeavesChunks(cfg, s, e)
  {
    var ps := Chunks(e.body, cfg.chunkSize);
    var disk := ObjectStore.Stored(cfg.sha, s.disk, ps);
    var row := ContentRow(cfg.sha(e.body), |e.body|, Hashes(cfg.sha, ps), MimeOrDefault(e.mime));
    StoredAddressed(cfg.sha, s.disk, ps);
    assert LiveNames(InsertContent(s.db, row), e.user, e.folder) == LiveNames(s.db, e.user, e.folder);
    if InsertNew(s.db, e.user, e.folder, e.name, row).Some? {
      InsertNewExact(s, disk, e.user, e.folder, e.name, row);
    }
  }

  lemma PartExact(cfg: Config, s: State, e: Event)
    requires Ready(cfg, s) && Addressed(cfg.sha, s.disk) && Exact(s) && e.Part?
    ensures Exact(StepPart(cfg, s, e).0) <==> !LeavesChunks(cfg, s, e)
  {
    PartAnswer(cfg, s, e);
    StoredAddressed(cfg.sha, s.disk, [e.body]);
    assert Hashes(cfg.sha, [e.body]) == [cfg.sha(e.body)];
  }

  lemma CompleteExact(cfg: Config, s: State, e: Event)
    requires Ready(cfg, s) && Consistent(s.db) && Exact(s) && e.Complete?
    ensures Exact(StepComplete(cfg, s, e).0)
  {
    if StepComplete(cfg, s, e).1.Created? {
      var t := s.sessions[e.upload];
      var hash := cfg.sha(Assembled(s.disk, t.parts));
      var found := ContentOf(s.db, hash);
      if found.Some? {
        LinkExact(s, FileRow(UniqueName.Fresh(LiveNames(s.db, e.user, t.folder), t.name, e.now), e.user, t.folder, found.value, false));
      } else {
        var row := ContentRow(hash, t.total, t.parts, MimeOrDefault(t.mime));
        assert s.disk.Keys == s.disk.Keys + set h | h in row.chunks;
        InsertNewExact(s, s.disk, e.user, t.folder, t.name, row);
      }
    }
  }

  lemma DeleteExact(s: State, e: Event)
    requires References(s.db) && Exact(s) && e.Delete?
    ensures Exact(StepDelete(s, e).0)
  {
    if Owned(s.db, e.user, e.file) {
      var db := Revoke(SoftDelete(s.db, e.file), SharesOfFile(s.db, e.file));
      var c := s.db.files[e.file].content;
      assert Listed(db) == Listed(s.db);
      PurgeKeepsListed(s.(db := db), c);
      PurgeExactlyOrphans(s.(db := db), c);
      var d := Purge(s.(db := db), c).0.db;
      forall i | i in d.contents ensures HasLiveReference(d, i) {
        if i != c {
          assert HasLiveReference(s.db, i);
          var f :| f in s.db.files && s.db.files[f].content == i && !s.db.files[f].deleted;
          assert f != e.file && f in db.files;
          assert HasLiveReference(db, i);
        }
      }
    }
  }

  lemma {:induction false} SweepExact(s: State, batch: seq<Id>)
    requires Exact(s)
    ensures PurgeAll(s, batch).0 == s
    decreases |batch|
  {
    if batch != [] { SweepExact(s, batch[..|batch| - 1]); }
  }

  lemma SaveExact(cfg: Config, s: State, e: Event)
    requires Ready(cfg, s) && Consistent(s.db) && Exact(s) && e.Save?
    ensures Exact(StepSave(cfg, s, e).0)
  {
    if StepSave(cfg, s, e).1.Saved? {
      var row := s.db.files[s.db.shares[ShareOf(s.db, e.token).value].file];
      LinkExact(s, FileRow(UniqueName.Fresh(LiveNames(s.db, e.user, None), row.name, e.now), e.user, None, row.content, false));
    }
  }

  lemma MetadataExact(s: State, s': State)
    requires Exact(s) && SameContent(s, s')
    ensures Exact(s')
  {
    forall c | c in s'.db.contents ensures HasLiveReference(s'.db, c) {
      assert HasLiveReference(s.db, c);
    }
    assert Listed(s'.db) == Listed(s.db);
  }

  lemma UnchangedStepExact(cfg: Config, s: State, e: Event)
    requires Ready(cfg, s) && Exact(s)
    requires IsMetadata(e) || e.Init? || e.Abort? || e.Download? || e.ForgetSession?
    ensures Exact(Step(cfg, s, e).0)
  {
    assert SameContent(s, Step(cfg, s, e).0);
    MetadataExact(s, Step(cfg, s, e).0);
  }

  lemma ContentStepExact(cfg: Config, s: State, e: Event)
    requires Ready(cfg, s) && Addressed(cfg.sha, s.disk) && Consistent(s.db) && Exact(s)
    requires e.Upload? || e.Part? || e.Complete? || e.Delete? || e.Sweep? || e.Save?
    ensures Exact(Step(cfg, s, e).0) <==> !LeavesChunks(cfg, s, e)
  {
    match e
    case Upload(_, _, _, _, _, _) => UploadExact(cfg, s, e);
    case Part(_, _, _, _) => PartExact(cfg, s, e);
    case Complete(_, _, _) => CompleteExact(cfg, s, e);
    case Delete(_, _) => DeleteExact(s, e);
    case Sweep(batch) => SweepExact(s, batch);
    case Save(_, _, _, _, _) => SaveExact(cfg, s, e);
  }

  /** From an exact state, a step leads to an exact state unless it leaves chunks behind. */
  lemma StepExact(cfg: Config, s: State, e: Event)
    requires Inv(cfg, s) && Exact(s)
    ensures Exact(Step(cfg, s, e).0) <==> !LeavesChunks(cfg, s, e)
  {
    if e.Upload? || e.Part? || e.Complete? || e.Delete? || e.Sweep? || e.Save? {
      ContentStepExact(cfg, s, e);
    } else {
      UnchangedStepExact(cfg, s, e);
    }
  }

  /** No event of the run up to `n` left chunks behind. */
  ghost predicate Tidy(cfg: Config, t: Trace, n: nat)
    requires IsRun(cfg, t) && n <= |t.events|
  {
    forall m: nat {:trigger TidyAt(cfg, t, m)} :: m < n ==> TidyAt(cfg, t, m)
  }

  ghost predicate TidyAt(cfg: Config, t: Trace, m: nat)
    requires IsRun(cfg, t) && m < |t.events|
  {
    Ready(cfg, t.states[m]) && !LeavesChunks(cfg, t.states[m], t.events[m])
  }

  lemma RunStepExact(cfg: Config, t: Trace, n: nat)
    requires IsRun(cfg, t) && n < |t.events| && TidyAt(cfg, t, n) && Exact(t.states[n])
    ensures Exact(t.states[n + 1])
  {
    assert Link(cfg, t, n);
    RunInv(cfg, t, n);
    StepExact(cfg, t.states[n], t.events[n]);
  }

  /** Main result: on every run without such events, after each step the disk holds
      exactly the chunks that content rows list, and every row has a live file. */
  lemma {:induction false} RunExact(cfg: Config, t: Trace, n: nat)
    requires IsRun(cfg, t) && n <= |t.events| && Tidy(cfg, t, n)
    ensures Exact(t.states[n])
  {
    if n > 0 {
      RunExact(cfg, t, n - 1);
      assert TidyAt(cfg, t, n - 1);
      RunStepExact(cfg, t, n - 1);
    }
  }

  /** A run that is not tidy: an upload is opened and its only part is sent. */
  lemma UnlistedChunk(cfg: Config) returns (t: Trace)
    requires GoodConfig(cfg) && cfg.redis && !Oversized(cfg, 1)
    ensures IsRun(cfg, t) && |t.events| == 2 && t.answers[1].Stored?
    ensures !Exact(t.states[2]) && t.states[2].disk.Keys == {cfg.sha([0])} && Listed(t.states[2].db) == {}
  {
    var start := RunExists(cfg, []);
    t := OnePartSent(cfg, start, None, 1, [0]);
    assert cfg.sha([0]) in t.states[2].disk.Keys;
  }
}
