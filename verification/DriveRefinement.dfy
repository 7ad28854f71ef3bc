/** Deduplication, chunking and garbage collection are invisible: the server behaves
    like a plain table of files, each with an owner, a folder and its bytes, plus the
    parts received by open multipart uploads. */
module DriveRefinement {
  import opened Common
  import opened ObjectStore
  import opened Tables
  import opened DriveSpec
  import opened DriveInvariant
  import UniqueName

  datatype PlainFile = PlainFile(owner: Id, folder: Option<Id>, bytes: Bytes)
  datatype PlainSession = PlainSession(user: Id, folder: Option<Id>, parts: seq<Option<Bytes>>)
  datatype Plain = Plain(files: map<Id, PlainFile>, sessions: map<Id, PlainSession>)

  predicate AllReceived(parts: seq<Option<Bytes>>) {
    forall i | 0 <= i < |parts| :: parts[i].Some?
  }

  function Joined(parts: seq<Option<Bytes>>): Bytes
    requires AllReceived(parts)
  {
    Concat(Received(parts))
  }

  function Received(parts: seq<Option<Bytes>>): (ps: seq<Bytes>)
    requires AllReceived(parts)
    ensures |ps| == |parts| && forall i | 0 <= i < |ps| :: parts[i] == Some(ps[i])
  {
    seq(|parts|, i requires 0 <= i < |parts| => parts[i].value)
  }

  /** What a plain file table may answer. */
  predicate Allowed(p: Plain, e: Event, r: Resp) {
    match e
    case Upload(_, _, _, _, _, _) => r.Created? ==> r.file !in p.files
    case Part(user, u, i, _) =>
      r.Stored? ==> u in p.sessions && p.sessions[u].user == user && 0 <= i < |p.sessions[u].parts|
    case Complete(user, u, _) =>
      r.Created? ==> u in p.sessions && p.sessions[u].user == user && AllReceived(p.sessions[u].parts) && r.file !in p.files
    case Download(user, f) =>
      r == if f in p.files && p.files[f].owner == user then Data(p.files[f].bytes) else Error(404)
    case Delete(user, f) =>
      if f in p.files && p.files[f].owner == user then r.Collected? else r == Error(404)
    case ShareDownload(_, _, _, _) =>
      && r != Error(500)
      && (r.Granted? ==> r.file in p.files && r.bytes == p.files[r.file].bytes)
    case Save(_, _, _, _, _) => r.Saved? ==> r.from in p.files && r.file !in p.files
    case _ => true
  }

  /** The effect of an event and its answer on the plain table. */
  function PlainStep(redis: bool, p: Plain, e: Event, r: Resp): Plain
    requires Allowed(p, e, r)
  {
    match e
    case Upload(user, folder, _, _, body, _) =>
      if r.Created? then p.(files := p.files[r.file := PlainFile(user, folder, body)]) else p
    case Init(user, folder, _, _, _) =>
      if r.Opened? && redis && r.count >= 0
      then p.(sessions := p.sessions[r.upload := PlainSession(user, folder, seq(r.count, _ => None))]) else p
    case Part(_, u, i, body) =>
      if r.Stored?
      then p.(sessions := p.sessions[u := p.sessions[u].(parts := p.sessions[u].parts[i := Some(body)])]) else p
    case Complete(user, u, _) =>
      if r.Created?
      then p.(files := p.files[r.file := PlainFile(user, p.sessions[u].folder, Joined(p.sessions[u].parts))],
              sessions := p.sessions - {u}) else p
    case Abort(_, u) => if r.Done? then p.(sessions := p.sessions - {u}) else p
    case Delete(_, f) => if r.Collected? then p.(files := p.files - {f}) else p
    case Save(user, _, _, _, _) =>
      if r.Saved? then p.(files := p.files[r.file := PlainFile(user, None, p.files[r.from].bytes)]) else p
    case ForgetSession(u) => p.(sessions := p.sessions - {u})
    case _ => p
  }

  // ---- the relation between the two ----

  ghost predicate FilesMatch(cfg: Config, db: Db, files: map<Id, PlainFile>) {
    && (forall f :: f in files <==> Live(db, f))
    && (forall f | f in files :: FileMatches(cfg, db, f, files[f]))
  }

  ghost predicate FileMatches(cfg: Config, db: Db, f: Id, file: PlainFile) {
    && f in db.files && db.files[f].content in db.contents
    && file.owner == db.files[f].owner && file.folder == db.files[f].folder
    && cfg.sha(file.bytes) == db.contents[db.files[f].content].hash
  }

  ghost predicate SessionsMatch(cfg: Config, ts: map<Id, Session>, ps: map<Id, PlainSession>) {
    ts.Keys == ps.Keys && forall u | u in ts :: SessionMatches(cfg, ts[u], ps[u])
  }

  ghost predicate SessionMatches(cfg: Config, t: Session, p: PlainSession) {
    && t.user == p.user && t.folder == p.folder
    && |t.uploaded| == |t.parts| == |p.parts|
    && forall i | 0 <= i < |p.parts| ::
         t.uploaded[i] == p.parts[i].Some? && (p.parts[i].Some? ==> t.parts[i] == cfg.sha(p.parts[i].value))
  }

  ghost predicate Represents(cfg: Config, s: State, p: Plain) {
    FilesMatch(cfg, s.db, p.files) && SessionsMatch(cfg, s.sessions, p.sessions)
  }

  /** A represented live file reads back as exactly its bytes. */
  lemma ReadIsExact(cfg: Config, s: State, p: Plain, f: Id)
    requires Inv(cfg, s) && Represents(cfg, s, p) && f in p.files
    ensures ReadFile(s, f) == Data(p.files[f].bytes)
  {
    assert FileMatches(cfg, s.db, f, p.files[f]);
    var row := s.db.contents[s.db.files[f].content];
    assert IntactRow(cfg, s.disk, row);
    assert NoCollision(cfg.sha, Assembled(s.disk, row.chunks), p.files[f].bytes);
  }

  /** Parts all present and all on disk join to what the client sent. */
  lemma JoinedParts(cfg: Config, disk: Disk, t: Session, p: PlainSession)
    requires GoodConfig(cfg) && Addressed(cfg.sha, disk) && SessionMatches(cfg, t, p)
    requires false !in t.uploaded && Readable(disk, t.parts)
    ensures AllReceived(p.parts) && Assembled(disk, t.parts) == Joined(p.parts)
  {
    forall i | 0 <= i < |p.parts| ensures p.parts[i].Some? {
      assert t.uploaded[i] in t.uploaded;
    }
    assert t.parts == Hashes(cfg.sha, Received(p.parts));
    AssembledHashes(cfg.sha, disk, Received(p.parts));
  }

  lemma InsertMatches(cfg: Config, db: Db, files: map<Id, PlainFile>, row: FileRow, file: PlainFile)
    requires Consistent(db) && FilesMatch(cfg, db, files) && InsertFile(db, row).Some? && !row.deleted
    requires file.owner == row.owner && file.folder == row.folder
    requires cfg.sha(file.bytes) == db.contents[row.content].hash
    ensures db.nextId !in files && FilesMatch(cfg, InsertFile(db, row).value, files[db.nextId := file])
  {
    var d := InsertFile(db, row).value;
    forall f | f in files ensures FileMatches(cfg, d, f, files[f]) {
      assert FileMatches(cfg, db, f, files[f]);
    }
  }

  lemma InsertNewMatches(cfg: Config, db: Db, files: map<Id, PlainFile>, user: Id, folder: Option<Id>, name: string,
                         row: ContentRow, bytes: Bytes)
    requires Consistent(db) && FilesMatch(cfg, db, files)
    requires ContentOf(db, row.hash).None? && cfg.sha(bytes) == row.hash
    requires InsertNew(db, user, folder, name, row).Some?
    ensures db.nextId + 1 !in files
    ensures FilesMatch(cfg, InsertNew(db, user, folder, name, row).value,
                       files[db.nextId + 1 := PlainFile(user, folder, bytes)])
  {
    var d := InsertContent(db, row);
    assert FilesMatch(cfg, d, files) by {
      forall f | f in files ensures FileMatches(cfg, d, f, files[f]) {
        assert FileMatches(cfg, db, f, files[f]);
      }
    }
    InsertMatches(cfg, d, files, FileRow(name, user, folder, db.nextId, false), PlainFile(user, folder, bytes));
  }

  lemma LinkMatches(cfg: Config, db: Db, files: map<Id, PlainFile>, user: Id, folder: Option<Id>, name: string,
                    c: Id, now: nat, bytes: Bytes)
    requires Consistent(db) && FilesMatch(cfg, db, files) && LinkFile(db, user, folder, name, c, now).Some?
    requires cfg.sha(bytes) == db.contents[c].hash
    ensures db.nextId !in files
    ensures FilesMatch(cfg, LinkFile(db, user, folder, name, c, now).value,
                       files[db.nextId := PlainFile(user, folder, bytes)])
  {
    var row := FileRow(UniqueName.Fresh(LiveNames(db, user, folder), name, now), user, folder, c, false);
    InsertMatches(cfg, db, files, row, PlainFile(user, folder, bytes));
  }

  /** Garbage collection is a step that changes nothing a user can see. */
  lemma PurgeMatches(cfg: Config, s: State, p: Plain, c: Id)
    requires Inv(cfg, s) && Represents(cfg, s, p)
    ensures Represents(cfg, Purge(s, c).0, p)
  {
    var d := Purge(s, c).0.db;
    forall f | f in p.files ensures FileMatches(cfg, d, f, p.files[f]) {
      assert FileMatches(cfg, s.db, f, p.files[f]);
    }
  }

  lemma {:induction false} PurgeAllMatches(cfg: Config, s: State, p: Plain, batch: seq<Id>)
    requires Inv(cfg, s) && Represents(cfg, s, p)
    ensures Represents(cfg, PurgeAll(s, batch).0, p)
    decreases |batch|
  {
    if batch != [] {
      PurgeAllMatches(cfg, s, p, batch[..|batch| - 1]);
      PurgeAllInv(cfg, s, batch[..|batch| - 1]);
      PurgeMatches(cfg, PurgeAll(s, batch[..|batch| - 1]).0, p, batch[|batch| - 1]);
    }
  }

  // ---- step by step ----

  ghost predicate Refines(cfg: Config, p: Plain, e: Event, out: (State, Resp)) {
    Allowed(p, e, out.1) && Represents(cfg, out.0, PlainStep(cfg.redis, p, e, out.1))
  }

  /** For a step that leaves the sessions alone, the files decide. */
  lemma FilesRefine(cfg: Config, s: State, p: Plain, e: Event, out: (State, Resp), files: map<Id, PlainFile>)
    requires Represents(cfg, s, p) && Allowed(p, e, out.1) && out.0.sessions == s.sessions
    requires PlainStep(cfg.redis, p, e, out.1) == p.(files := files) && FilesMatch(cfg, out.0.db, files)
    ensures Refines(cfg, p, e, out)
  { }

  lemma LinkRefines(cfg: Config, s: State, p: Plain, e: Event)
    requires GoodConfig(cfg) && Consistent(s.db) && Represents(cfg, s, p) && e.Upload?
    requires ContentOf(s.db, cfg.sha(e.body)).Some? && e.body != []
    ensures Refines(cfg, p, e, StepUpload(cfg, s, e))
  {
    var found := ContentOf(s.db, cfg.sha(e.body)).value;
    if LinkFile(s.db, e.user, e.folder, e.name, found, e.now).Some? {
      LinkMatches(cfg, s.db, p.files, e.user, e.folder, e.name, found, e.now, e.body);
    }
  }

  lemma NewRefines(cfg: Config, s: State, p: Plain, e: Event)
    requires GoodConfig(cfg) && Consistent(s.db) && Represents(cfg, s, p) && e.Upload?
    requires ContentOf(s.db, cfg.sha(e.body)).None? && e.body != []
    ensures Refines(cfg, p, e, StepUpload(cfg, s, e))
  {
    var row := ContentRow(cfg.sha(e.body), |e.body|, Hashes(cfg.sha, Chunks(e.body, cfg.chunkSize)), MimeOrDefault(e.mime));
    if StepUpload(cfg, s, e).1.Created? {
      InsertNewMatches(cfg, s.db, p.files, e.user, e.folder, e.name, row, e.body);
      FilesRefine(cfg, s, p, e, StepUpload(cfg, s, e), p.files[s.db.nextId + 1 := PlainFile(e.user, e.folder, e.body)]);
    }
  }

  lemma UploadRefines(cfg: Config, s: State, p: Plain, e: Event)
    requires GoodConfig(cfg) && Consistent(s.db) && Represents(cfg, s, p) && e.Upload?
    ensures Refines(cfg, p, e, StepUpload(cfg, s, e))
  {
    if e.body != [] {
      if ContentOf(s.db, cfg.sha(e.body)).Some? {
        LinkRefines(cfg, s, p, e);
      } else {
        NewRefines(cfg, s, p, e);
      }
    }
  }

  lemma InitRefines(cfg: Config, s: State, p: Plain, e: Event)
    requires Inv(cfg, s) && Represents(cfg, s, p) && e.Init?
    ensures Refines(cfg, p, e, StepInit(cfg, s, e))
  {
    var (s', r) := StepInit(cfg, s, e);
    if r.Opened? {
      TablesUnchangedMatch(cfg, s.db, s'.db, p.files);
      if cfg.redis {
        var ps := PlainStep(cfg.redis, p, e, r).sessions;
        assert SessionMatches(cfg, s'.sessions[r.upload], ps[r.upload]);
        forall u | u in s.sessions ensures SessionMatches(cfg, s'.sessions[u], ps[u]) {
          assert SessionMatches(cfg, s.sessions[u], p.sessions[u]);
        }
      }
    }
  }

  lemma PartRefines(cfg: Config, s: State, p: Plain, e: Event)
    requires Ready(cfg, s) && Represents(cfg, s, p) && e.Part?
    ensures Refines(cfg, p, e, StepPart(cfg, s, e))
  {
    if StepPart(cfg, s, e).1.Stored? {
      PartMatches(cfg, s.sessions[e.upload], p.sessions[e.upload], e.part, e.body);
      TablesUnchangedMatch(cfg, s.db, StepPart(cfg, s, e).0.db, p.files);
    }
  }

  lemma PartMatches(cfg: Config, t: Session, ps: PlainSession, i: nat, body: Bytes)
    requires SessionMatches(cfg, t, ps) && i < |t.parts|
    ensures SessionMatches(cfg, t.(uploaded := t.uploaded[i := true], parts := t.parts[i := cfg.sha(body)]),
                           ps.(parts := ps.parts[i := Some(body)]))
  { }

  /** A completed session becomes one plain file, its parts joined. */
  lemma CompletedMatches(cfg: Config, s: State, p: Plain, e: Event)
    requires GoodConfig(cfg) && Addressed(cfg.sha, s.disk) && Consistent(s.db) && Represents(cfg, s, p) && e.Complete?
    requires StepComplete(cfg, s, e).1.Created?
    ensures var out := StepComplete(cfg, s, e); var t := p.sessions[e.upload];
            && e.upload in p.sessions && t.user == e.user && AllReceived(t.parts) && out.1.file !in p.files
            && FilesMatch(cfg, out.0.db, p.files[out.1.file := PlainFile(e.user, t.folder, Joined(t.parts))])
  {
    var t := s.sessions[e.upload];
    assert SessionMatches(cfg, t, p.sessions[e.upload]);
    var hash := cfg.sha(Assembled(s.disk, t.parts));
    var found := ContentOf(s.db, hash);
    JoinedParts(cfg, s.disk, t, p.sessions[e.upload]);
    var bytes := Joined(p.sessions[e.upload].parts);
    if found.Some? {
      LinkMatches(cfg, s.db, p.files, e.user, t.folder, t.name, found.value, e.now, bytes);
    } else {
      InsertNewMatches(cfg, s.db, p.files, e.user, t.folder, t.name, ContentRow(hash, t.total, t.parts, MimeOrDefault(t.mime)), bytes);
    }
  }

  lemma CompleteRefines(cfg: Config, s: State, p: Plain, e: Event)
    requires GoodConfig(cfg) && Addressed(cfg.sha, s.disk) && Consistent(s.db) && Represents(cfg, s, p) && e.Complete?
    ensures Refines(cfg, p, e, StepComplete(cfg, s, e))
  {
    if StepComplete(cfg, s, e).1.Created? {
      CompletedMatches(cfg, s, p, e);
      SessionGone(cfg, s.sessions, p.sessions, e.upload);
    }
  }

  lemma SessionGone(cfg: Config, sessions: map<Id, Session>, ps: map<Id, PlainSession>, u: Id)
    requires SessionsMatch(cfg, sessions, ps)
    ensures SessionsMatch(cfg, sessions - {u}, ps - {u})
  { }

  lemma DeleteRefines(cfg: Config, s: State, p: Plain, e: Event)
    requires Inv(cfg, s) && Represents(cfg, s, p) && e.Delete?
    ensures Refines(cfg, p, e, StepDelete(s, e))
  {
    if Owned(s.db, e.user, e.file) {
      DeleteTablesInv(s.db, e.file);
      var db := Revoke(SoftDelete(s.db, e.file), SharesOfFile(s.db, e.file));
      var p' := p.(files := p.files - {e.file});
      forall f | f in p'.files ensures FileMatches(cfg, db, f, p'.files[f]) {
        assert FileMatches(cfg, s.db, f, p.files[f]);
      }
      PurgeMatches(cfg, s.(db := db), p', s.db.files[e.file].content);
      assert FileMatches(cfg, s.db, e.file, p.files[e.file]);
    } else if e.file in p.files {
      assert FileMatches(cfg, s.db, e.file, p.files[e.file]);
    }
  }

  lemma DownloadRefines(cfg: Config, s: State, p: Plain, e: Event)
    requires Inv(cfg, s) && Represents(cfg, s, p) && e.Download?
    ensures Refines(cfg, p, e, (s, StepDownload(s, e)))
  {
    if e.file in p.files {
      assert FileMatches(cfg, s.db, e.file, p.files[e.file]);
      ReadIsExact(cfg, s, p, e.file);
    }
  }

  lemma LiveReads(cfg: Config, s: State, p: Plain, f: Id)
    requires Inv(cfg, s) && Represents(cfg, s, p) && Live(s.db, f)
    ensures f in p.files && ReadFile(s, f) == Data(p.files[f].bytes)
  {
    ReadIsExact(cfg, s, p, f);
  }

  lemma ShareDownloadRefines(cfg: Config, s: State, p: Plain, e: Event)
    requires Inv(cfg, s) && Represents(cfg, s, p) && e.ShareDownload?
    ensures Refines(cfg, p, e, StepMetadata(cfg, s, e))
  {
    if ShareError(cfg, s.db, e.token, e.password, e.counted, e.expired).None? {
      var f := s.db.shares[ShareOf(s.db, e.token).value].file;
      if Live(s.db, f) { LiveReads(cfg, s, p, f); }
    }
    MetadataRefines(cfg, s, p, e, StepMetadata(cfg, s, e));
  }

  lemma SaveRefines(cfg: Config, s: State, p: Plain, e: Event)
    requires Inv(cfg, s) && Represents(cfg, s, p) && e.Save?
    ensures Refines(cfg, p, e, StepSave(cfg, s, e))
  {
    var (s', r) := StepSave(cfg, s, e);
    if r.Saved? {
      SavedMatches(cfg, s, p, e, r.from);
      FilesRefine(cfg, s, p, e, (s', r), p.files[r.file := PlainFile(e.user, None, p.files[r.from].bytes)]);
    }
  }

  lemma SavedMatches(cfg: Config, s: State, p: Plain, e: Event, f: Id)
    requires Inv(cfg, s) && Represents(cfg, s, p) && Live(s.db, f) && e.Save?
    requires LinkFile(s.db, e.user, None, s.db.files[f].name, s.db.files[f].content, e.now).Some?
    ensures f in p.files && s.db.nextId !in p.files
    ensures FilesMatch(cfg, LinkFile(s.db, e.user, None, s.db.files[f].name, s.db.files[f].content, e.now).value,
                       p.files[s.db.nextId := PlainFile(e.user, None, p.files[f].bytes)])
  {
    assert FileMatches(cfg, s.db, f, p.files[f]);
    LinkMatches(cfg, s.db, p.files, e.user, None, s.db.files[f].name, s.db.files[f].content, e.now, p.files[f].bytes);
  }

  lemma TablesUnchangedMatch(cfg: Config, db: Db, d: Db, files: map<Id, PlainFile>)
    requires FilesMatch(cfg, db, files) && d.files == db.files && d.contents == db.contents
    ensures FilesMatch(cfg, d, files)
  {
    forall f | f in files ensures FileMatches(cfg, d, f, files[f]) {
      assert FileMatches(cfg, db, f, files[f]);
    }
  }

  /** Bookkeeping that touches neither files, contents nor sessions. */
  lemma MetadataRefines(cfg: Config, s: State, p: Plain, e: Event, out: (State, Resp))
    requires Represents(cfg, s, p) && IsMetadata(e) && OnlyMetadata(s, out.0)
    requires e.ShareDownload? ==> Allowed(p, e, out.1)
    ensures Refines(cfg, p, e, out)
  {
    TablesUnchangedMatch(cfg, s.db, out.0.db, p.files);
  }

  lemma SweepRefines(cfg: Config, s: State, p: Plain, e: Event)
    requires Inv(cfg, s) && Represents(cfg, s, p) && e.Sweep?
    ensures Refines(cfg, p, e, Step(cfg, s, e))
  {
    PurgeAllMatches(cfg, s, p, e.batch);
  }

  lemma SessionEndRefines(cfg: Config, s: State, p: Plain, e: Event)
    requires Represents(cfg, s, p) && (e.Abort? || e.ForgetSession?)
    ensures Refines(cfg, p, e, if e.Abort? then StepAbort(s, e) else (s.(sessions := s.sessions - {e.upload}), Done))
  { }

  lemma SessionRefines(cfg: Config, s: State, p: Plain, e: Event)
    requires Inv(cfg, s) && Represents(cfg, s, p) && IsSession(e)
    ensures Refines(cfg, p, e, StepSession(cfg, s, e))
  {
    match e
    case Init(_, _, _, _, _) => InitRefines(cfg, s, p, e);
    case Part(_, _, _, _) => PartRefines(cfg, s, p, e);
    case Complete(_, _, _) => CompleteRefines(cfg, s, p, e);
    case Abort(_, _) => SessionEndRefines(cfg, s, p, e);
    case ForgetSession(_) => SessionEndRefines(cfg, s, p, e);
  }

  /** Every step of the server is a step of the plain file table. */
  lemma StepRefines(cfg: Config, s: State, p: Plain, e: Event)
    requires Inv(cfg, s) && Represents(cfg, s, p)
    ensures Refines(cfg, p, e, Step(cfg, s, e))
  {
    if IsSession(e) {
      SessionRefines(cfg, s, p, e);
    } else if e.ShareDownload? {
      ShareDownloadRefines(cfg, s, p, e);
    } else if IsMetadata(e) {
      MetadataRefines(cfg, s, p, e, StepMetadata(cfg, s, e));
    } else {
      match e
      case Upload(_, _, _, _, _, _) => UploadRefines(cfg, s, p, e);
      case Download(_, _) => DownloadRefines(cfg, s, p, e);
      case Delete(_, _) => DeleteRefines(cfg, s, p, e);
      case Sweep(_) => SweepRefines(cfg, s, p, e);
      case Save(_, _, _, _, _) => SaveRefines(cfg, s, p, e);
    }
  }

  // ---- whole runs ----

  /** The plain table before event `n`, computed from the events and the answers alone. */
  ghost function PlainAt(cfg: Config, t: Trace, n: nat): (p: Plain)
    requires IsRun(cfg, t) && n <= |t.events|
    ensures Represents(cfg, t.states[n], p)
  {
    if n == 0 then Plain(map[], map[])
    else
      var p := PlainAt(cfg, t, n - 1);
      RunStepRefines(cfg, t, n - 1, p);
      PlainStep(cfg.redis, p, t.events[n - 1], t.answers[n - 1])
  }

  lemma RunStepRefines(cfg: Config, t: Trace, n: nat, p: Plain)
    requires IsRun(cfg, t) && n < |t.events| && Represents(cfg, t.states[n], p)
    ensures Refines(cfg, p, t.events[n], (t.states[n + 1], t.answers[n]))
  {
    assert Link(cfg, t, n);
    RunInv(cfg, t, n);
    StepRefines(cfg, t.states[n], p, t.events[n]);
  }

  /** Main result: in every run, each answer is one the plain file table allows, and the
      table evolves by `PlainStep`. In particular a download of a live file returns
      exactly the bytes uploaded, and a share download exactly those of its file. */
  lemma RunRefines(cfg: Config, t: Trace, n: nat)
    requires IsRun(cfg, t) && n < |t.events|
    ensures Allowed(PlainAt(cfg, t, n), t.events[n], t.answers[n])
    ensures PlainAt(cfg, t, n + 1) == PlainStep(cfg.redis, PlainAt(cfg, t, n), t.events[n], t.answers[n])
  {
    RunStepRefines(cfg, t, n, PlainAt(cfg, t, n));
  }
}
