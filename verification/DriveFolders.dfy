/** The folder tree over whole runs. */
module DriveFolders {
  import opened Common
  import opened ObjectStore
  import opened Tables
  import opened DriveSpec
  import opened DriveInvariant
  import UniqueName

  /** A live folder hangs under the root or under an older live folder of the same owner. */
  ghost predicate Hangs(folders: map<Id, FolderRow>, d: Id)
    requires d in folders
  {
    var p := folders[d].parent;
    p.Some? ==> p.value < d && p.value in folders && !folders[p.value].deleted && folders[p.value].owner == folders[d].owner
  }

  ghost predicate Tree(folders: map<Id, FolderRow>) {
    forall d | d in folders && !folders[d].deleted :: Hangs(folders, d)
  }

  /** A live file lies at the root or in a live folder of its owner. */
  ghost predicate Placed(db: Db) {
    forall f | f in db.files && !db.files[f].deleted :: FolderAllowed(db, db.files[f].owner, db.files[f].folder)
  }

  // ---- what the tree invariant means ----

  /** `path` climbs from its first folder to the root through live folders of one owner. */
  ghost predicate Climbs(folders: map<Id, FolderRow>, owner: Id, path: seq<Id>) {
    && path != []
    && (forall k | 0 <= k < |path| :: path[k] in folders && !folders[path[k]].deleted && folders[path[k]].owner == owner)
    && (forall k | 0 <= k < |path| - 1 :: folders[path[k]].parent == Some(path[k + 1]))
    && folders[path[|path| - 1]].parent == None
  }

  /** Every live folder reaches the root in finitely many steps. */
  lemma {:induction false} ReachesRoot(folders: map<Id, FolderRow>, d: Id) returns (path: seq<Id>)
    requires Tree(folders) && d in folders && !folders[d].deleted
    ensures path != [] && path[0] == d && Climbs(folders, folders[d].owner, path)
    decreases d
  {
    assert Hangs(folders, d);
    if folders[d].parent.None? {
      path := [d];
    } else {
      var rest := ReachesRoot(folders, folders[d].parent.value);
      path := [d] + rest;
      assert forall k | 0 < k < |path| :: path[k] == rest[k - 1];
    }
  }

  /** Live siblings have distinct names; below the root they even share their owner. */
  lemma SiblingsDiffer(folders: map<Id, FolderRow>, d: Id, e: Id)
    requires Tree(folders) && UniqueFolders(folders) && d != e
    requires d in folders && e in folders && !folders[d].deleted && !folders[e].deleted
    requires folders[d].parent == folders[e].parent
    ensures folders[d].owner == folders[e].owner ==> folders[d].name != folders[e].name
    ensures folders[d].parent.Some? ==> folders[d].owner == folders[e].owner && folders[d].name != folders[e].name
  {
    assert Hangs(folders, d) && Hangs(folders, e);
    assert SameFolderName(folders[d], folders[e]) ==> d == e;
  }

  // ---- steps ----

  lemma CreateKeepsTree(s: State, e: Event)
    requires IdsBelow(s.db) && Tree(s.db.folders) && e.CreateFolder?
    ensures Tree(StepCreateFolder(s, e).0.db.folders)
  {
    var folders := StepCreateFolder(s, e).0.db.folders;
    forall d | d in folders && !folders[d].deleted ensures Hangs(folders, d) {
      assert d in s.db.folders ==> Hangs(s.db.folders, d);
    }
  }

  /** Only a folder without live children can be deleted, so nothing is cut off. */
  lemma DeleteKeepsTree(s: State, e: Event)
    requires Tree(s.db.folders) && e.DeleteFolder?
    ensures Tree(StepDeleteFolder(s, e).0.db.folders)
  {
    var folders := StepDeleteFolder(s, e).0.db.folders;
    forall d | d in folders && !folders[d].deleted ensures Hangs(folders, d) {
      assert Hangs(s.db.folders, d);
    }
  }

  lemma RenameKeepsTree(s: State, e: Event)
    requires Tree(s.db.folders) && e.RenameFolder?
    ensures Tree(StepRenameFolder(s, e).0.db.folders)
  {
    var folders := StepRenameFolder(s, e).0.db.folders;
    forall d | d in folders && !folders[d].deleted ensures Hangs(folders, d) {
      assert Hangs(s.db.folders, d);
    }
  }

  lemma StepTree(cfg: Config, s: State, e: Event)
    requires Ready(cfg, s) && IdsBelow(s.db) && Tree(s.db.folders)
    ensures Tree(Step(cfg, s, e).0.db.folders)
  {
    if e.CreateFolder? { CreateKeepsTree(s, e); }
    else if e.DeleteFolder? { DeleteKeepsTree(s, e); }
    else if e.RenameFolder? { RenameKeepsTree(s, e); }
  }

  lemma RunStepTree(cfg: Config, t: Trace, n: nat)
    requires IsRun(cfg, t) && n < |t.events| && Tree(t.states[n].db.folders)
    ensures Tree(t.states[n + 1].db.folders)
  {
    RunInv(cfg, t, n);
    assert Link(cfg, t, n);
    StepTree(cfg, t.states[n], t.events[n]);
  }

  /** Main result: in every reachable state each live folder reaches the root through
      live folders of its owner. */
  lemma {:induction false} RunTree(cfg: Config, t: Trace, n: nat)
    requires IsRun(cfg, t) && n <= |t.events|
    ensures Tree(t.states[n].db.folders) && UniqueFolders(t.states[n].db.folders)
  {
    RunInv(cfg, t, n);
    if n > 0 {
      RunTree(cfg, t, n - 1);
      RunStepTree(cfg, t, n - 1);
    }
  }

  // ---- where files lie ----

  /** File tables that only lose live files, under the same folders, stay placed. */
  lemma FewerFilesPlaced(db: Db, d: Db)
    requires Placed(db) && d.folders == db.folders
    requires forall f | f in d.files && !d.files[f].deleted :: f in db.files && d.files[f] == db.files[f]
    ensures Placed(d)
  {
    forall f | f in d.files && !d.files[f].deleted ensures FolderAllowed(d, d.files[f].owner, d.files[f].folder) {
      assert FolderAllowed(db, db.files[f].owner, db.files[f].folder);
    }
  }

  lemma InsertPlaced(db: Db, row: FileRow)
    requires Placed(db) && !row.deleted && InsertFile(db, row).Some? && IdsBelow(db)
    ensures InsertFile(db, row).value.folders == db.folders
    ensures Placed(InsertFile(db, row).value) <==> FolderAllowed(db, row.owner, row.folder)
  {
    var d := InsertFile(db, row).value;
    assert d.files[db.nextId] == row;
    forall f | f in d.files && f != db.nextId && !d.files[f].deleted ensures FolderAllowed(d, d.files[f].owner, d.files[f].folder) {
      assert FolderAllowed(db, db.files[f].owner, db.files[f].folder);
    }
  }

  lemma InsertNewPlaced(db: Db, user: Id, folder: Option<Id>, name: string, row: ContentRow)
    requires Placed(db) && InsertNew(db, user, folder, name, row).Some? && IdsBelow(db)
    ensures InsertNew(db, user, folder, name, row).value.folders == db.folders
    ensures Placed(InsertNew(db, user, folder, name, row).value) <==> FolderAllowed(db, user, folder)
  {
    var d := InsertContent(db, row);
    FewerFilesPlaced(db, d);
    InsertPlaced(d, FileRow(name, user, folder, db.nextId, false));
  }

  lemma PurgePlaced(s: State, c: Id)
    requires Placed(s.db)
    ensures Placed(Purge(s, c).0.db) && Purge(s, c).0.db.folders == s.db.folders
  {
    FewerFilesPlaced(s.db, Purge(s, c).0.db);
  }

  lemma {:induction false} PurgeAllPlaced(s: State, batch: seq<Id>)
    requires Placed(s.db)
    ensures Placed(PurgeAll(s, batch).0.db) && PurgeAll(s, batch).0.db.folders == s.db.folders
    decreases |batch|
  {
    if batch != [] {
      PurgeAllPlaced(s, batch[..|batch| - 1]);
      PurgePlaced(PurgeAll(s, batch[..|batch| - 1]).0, batch[|batch| - 1]);
    }
  }

  lemma UploadPlaced(cfg: Config, s: State, e: Event)
    requires cfg.chunkSize > 0 && IdsBelow(s.db) && Placed(s.db) && e.Upload?
    ensures var db := StepUpload(cfg, s, e).0.db; db.folders == s.db.folders && Placed(db)
  {
    if StepUpload(cfg, s, e).1.Created? {
      var found := ContentOf(s.db, cfg.sha(e.body));
      if found.Some? {
        InsertPlaced(s.db, FileRow(UniqueName.Fresh(LiveNames(s.db, e.user, e.folder), e.name, e.now), e.user, e.folder, found.value, false));
      } else {
        var row := ContentRow(cfg.sha(e.body), |e.body|, Hashes(cfg.sha, Chunks(e.body, cfg.chunkSize)), MimeOrDefault(e.mime));
        InsertNewPlaced(s.db, e.user, e.folder, e.name, row);
      }
    }
  }

  /** The session remembers the folder resolved when it was opened; by the time it
      completes that folder may be deleted. */
  ghost predicate CompletesIntoDeletedFolder(cfg: Config, s: State, e: Event) {
    && e.Complete? && CanComplete(cfg, s, e)
    && !FolderAllowed(s.db, e.user, s.sessions[e.upload].folder)
  }

  lemma CompletePlaced(cfg: Config, s: State, e: Event)
    requires IdsBelow(s.db) && Placed(s.db) && e.Complete?
    ensures var db := StepComplete(cfg, s, e).0.db;
            db.folders == s.db.folders && (Placed(db) <==> !CompletesIntoDeletedFolder(cfg, s, e))
  {
    CompleteAnswer(cfg, s, e);
    if StepComplete(cfg, s, e).1.Created? {
      var t := s.sessions[e.upload];
      var hash := cfg.sha(Assembled(s.disk, t.parts));
      var found := ContentOf(s.db, hash);
      if found.Some? {
        InsertPlaced(s.db, FileRow(UniqueName.Fresh(LiveNames(s.db, e.user, t.folder), t.name, e.now), e.user, t.folder, found.value, false));
      } else {
        InsertNewPlaced(s.db, e.user, t.folder, t.name, ContentRow(hash, t.total, t.parts, MimeOrDefault(t.mime)));
      }
    }
  }

  lemma DeletePlaced(s: State, e: Event)
    requires Placed(s.db) && e.Delete?
    ensures var db := StepDelete(s, e).0.db; db.folders == s.db.folders && Placed(db)
  {
    if Owned(s.db, e.user, e.file) {
      var db := Revoke(SoftDelete(s.db, e.file), SharesOfFile(s.db, e.file));
      FewerFilesPlaced(s.db, db);
      PurgePlaced(s.(db := db), s.db.files[e.file].content);
    }
  }

  lemma SavePlaced(cfg: Config, s: State, e: Event)
    requires References(s.db) && IdsBelow(s.db) && Placed(s.db) && e.Save?
    ensures var db := StepSave(cfg, s, e).0.db; db.folders == s.db.folders && Placed(db)
  {
    if StepSave(cfg, s, e).1.Saved? {
      var row := s.db.files[s.db.shares[ShareOf(s.db, e.token).value].file];
      InsertPlaced(s.db, FileRow(UniqueName.Fresh(LiveNames(s.db, e.user, None), row.name, e.now), e.user, None, row.content, false));
    }
  }

  lemma FolderEventPlaced(cfg: Config, s: State, e: Event)
    requires Ready(cfg, s) && IdsBelow(s.db) && Placed(s.db) && IsFolderEvent(e)
    ensures Placed(StepMetadata(cfg, s, e).0.db)
  {
    var db := StepMetadata(cfg, s, e).0.db;
    forall f | f in db.files && !db.files[f].deleted ensures FolderAllowed(db, db.files[f].owner, db.files[f].folder) {
      assert FolderAllowed(s.db, s.db.files[f].owner, s.db.files[f].folder);
    }
  }

  lemma SmallStepPlaced(cfg: Config, s: State, e: Event)
    requires Ready(cfg, s) && Placed(s.db)
    requires (IsMetadata(e) && !IsFolderEvent(e)) || e.Init? || e.Part? || e.Abort? || e.Download? || e.ForgetSession?
    ensures Placed(Step(cfg, s, e).0.db)
  {
    FewerFilesPlaced(s.db, Step(cfg, s, e).0.db);
  }

  /** A step keeps files in live folders except exactly when a multipart upload completes
      into a folder deleted meanwhile. */
  lemma StepPlaced(cfg: Config, s: State, e: Event)
    requires Ready(cfg, s) && IdsBelow(s.db) && Placed(s.db)
    ensures Placed(Step(cfg, s, e).0.db) <==> !CompletesIntoDeletedFolder(cfg, s, e)
  {
    if e.Upload? { UploadPlaced(cfg, s, e); }
    else if e.Complete? { CompletePlaced(cfg, s, e); }
    else if e.Delete? { DeletePlaced(s, e); }
    else if e.Sweep? { PurgeAllPlaced(s, e.batch); }
    else if e.Save? { SavePlaced(cfg, s, e); }
    else if IsFolderEvent(e) { FolderEventPlaced(cfg, s, e); }
    else { SmallStepPlaced(cfg, s, e); }
  }

  ghost predicate NoLateCompletion(cfg: Config, t: Trace, n: nat)
    requires n < |t.events| <= |t.states|
  {
    !CompletesIntoDeletedFolder(cfg, t.states[n], t.events[n])
  }

  /** Main result: without such a completion, every live file of every reachable state
      lies at the root or in a live folder of its owner. */
  lemma {:induction false} RunPlaced(cfg: Config, t: Trace, n: nat)
    requires IsRun(cfg, t) && n <= |t.events|
    requires forall m: nat {:trigger NoLateCompletion(cfg, t, m)} :: m < n ==> NoLateCompletion(cfg, t, m)
    ensures Placed(t.states[n].db)
  {
    if n > 0 {
      RunPlaced(cfg, t, n - 1);
      assert NoLateCompletion(cfg, t, n - 1);
      RunStepPlaced(cfg, t, n - 1);
    }
  }

  lemma RunStepPlaced(cfg: Config, t: Trace, n: nat)
    requires IsRun(cfg, t) && n < |t.events| && NoLateCompletion(cfg, t, n) && Placed(t.states[n].db)
    ensures Placed(t.states[n + 1].db)
  {
    RunInv(cfg, t, n);
    assert Link(cfg, t, n);
    StepPlaced(cfg, t.states[n], t.events[n]);
  }

  /** A folder, an upload sent into it, the folder deleted: the completion comes next. */
  lemma FolderDeletedMeanwhile(cfg: Config) returns (t: Trace)
    requires GoodConfig(cfg) && cfg.redis && !Oversized(cfg, 1)
    ensures IsRun(cfg, t) && |t.events| == 4
    ensures t.states[4].db.files == map[] && CompletesIntoDeletedFolder(cfg, t.states[4], Complete(1, 1, 0))
  {
    var start := RunExists(cfg, []);
    var t1 := Extended(cfg, start, CreateFolder(1, None, "d"));
    var t3 := OnePartSent(cfg, t1, Some(0), 1, [0]);
    t := Extended(cfg, t3, DeleteFolder(1, 0));
    DeletedBeforeCompletion(cfg, t3.states[3]);
  }

  lemma DeletedBeforeCompletion(cfg: Config, s: State)
    requires s.db == EMPTY.(folders := map[0 := FolderRow("d", None, 1, false)], nextId := 2)
    requires s.sessions == map[1 := OnePart(cfg, Some(0), 1).(uploaded := [true], parts := [cfg.sha([0])])]
    requires cfg.sha([0]) in s.disk
    ensures CompletesIntoDeletedFolder(cfg, StepDeleteFolder(s, DeleteFolder(1, 0)).0, Complete(1, 1, 0))
  {
    var s' := StepDeleteFolder(s, DeleteFolder(1, 0)).0;
    assert s'.db.folders == map[0 := FolderRow("d", None, 1, true)];
  }

  lemma LiveFileInDeletedFolder(cfg: Config) returns (t: Trace)
    requires GoodConfig(cfg) && cfg.redis && !Oversized(cfg, 1)
    ensures IsRun(cfg, t) && |t.events| == 5 && t.answers[4].Created?
    ensures !Placed(t.states[5].db)
  {
    var late := FolderDeletedMeanwhile(cfg);
    RunInv(cfg, late, 4);
    t := Extended(cfg, late, Complete(1, 1, 0));
    StepPlaced(cfg, late.states[4], Complete(1, 1, 0));
    CompleteAnswer(cfg, late.states[4], Complete(1, 1, 0));
  }
}
