/** What each request handler does to the whole server state. One handler call, one
    timer-driven sweep or one expiry of a Redis key is one step. */
module DriveSpec {
  import opened Common
  import opened ObjectStore
  import opened Tables
  import UniqueName

  /** Construction parameters. `partSize` is the multipart chunk size,
      `maxFileSize <= 0` means no limit, `redis` whether Redis is configured. */
  datatype Config = Config(sha: HashFn, chunkSize: nat, partSize: nat, maxFileSize: int, redis: bool)

  ghost predicate GoodConfig(cfg: Config) {
    CollisionFree(cfg.sha) && cfg.chunkSize > 0 && cfg.partSize > 0
  }

  /** A multipart session as stored in Redis. An empty part hash means "not uploaded". */
  datatype Session = Session(user: Id, folder: Option<Id>, name: string, mime: string, total: int,
                             chunkSize: nat, count: int, uploaded: seq<bool>, parts: seq<Hash>)

  /** `hints` are the `file:hash:` keys. */
  datatype State = State(disk: Disk, db: Db, sessions: map<Id, Session>, hints: map<Hash, Id>)

  const INITIAL := State(map[], EMPTY, map[], map[])

  datatype Event =
    | Upload(user: Id, folder: Option<Id>, name: string, mime: string, body: Bytes, now: nat)
    | Init(user: Id, folder: Option<Id>, name: string, mime: string, total: int)
    | Part(user: Id, upload: Id, part: int, body: Bytes)
    | Complete(user: Id, upload: Id, now: nat)
    | Abort(user: Id, upload: Id)
    | Download(user: Id, file: Id)
    | Delete(user: Id, file: Id)
    | Sweep(batch: seq<Id>)
    | CreateShare(user: Id, file: Id, password: Bytes, maxDownloads: int, draws: seq<string>)
    | RevokeShare(user: Id, token: string)
    | RevokeExpired(shares: set<Id>)
    | ShareDownload(token: string, password: Bytes, counted: bool, expired: bool)
    | Save(user: Id, token: string, password: Bytes, expired: bool, now: nat)
    | CreateFolder(user: Id, parent: Option<Id>, name: string)
    | DeleteFolder(user: Id, target: Id)
    | RenameFolder(user: Id, target: Id, name: string)
    | ForgetSession(upload: Id)
    | ForgetHint(hash: Hash)

  datatype Resp =
    | Error(code: int)
    | Created(file: Id, instant: bool)
    | Opened(upload: Id, chunkSize: nat, count: int)
    | Stored(hash: Hash)
    | Data(bytes: Bytes)
    | Collected(rows: nat, chunks: nat)
    | Shared(share: Id)
    | Granted(share: Id, file: Id, bytes: Bytes)
    | Saved(file: Id, from: Id, share: Id)
    | FolderMade(folder: Id)
    | Done

  // ---- shared pieces ----

  /** A step that leaves stored content and file entries alone. */
  predicate SameContent(s: State, s': State) {
    s'.disk == s.disk && s'.db.files == s.db.files && s'.db.contents == s.db.contents
  }

  /** A step that leaves upload sessions alone as well. */
  predicate OnlyMetadata(s: State, s': State) {
    SameContent(s, s') && s'.sessions == s.sessions
  }

  /** `resolve_folder_id`: no folder, or a live folder of this user. */
  predicate FolderAllowed(db: Db, user: Id, folder: Option<Id>) {
    folder.None? || (LiveFolder(db, folder.value) && db.folders[folder.value].owner == user)
  }

  predicate Oversized(cfg: Config, size: int) {
    cfg.maxFileSize > 0 && size > cfg.maxFileSize
  }

  predicate Owned(db: Db, user: Id, file: Id) {
    Live(db, file) && db.files[file].owner == user
  }

  /** A new entry for stored content, under a fresh name. */
  function LinkFile(db: Db, user: Id, folder: Option<Id>, name: string, c: Id, now: nat): Option<Db> {
    InsertFile(db, FileRow(UniqueName.Fresh(LiveNames(db, user, folder), name, now), user, folder, c, false))
  }

  /** New content and its first entry, in one transaction. The entry keeps the given name. */
  function InsertNew(db: Db, user: Id, folder: Option<Id>, name: string, row: ContentRow): Option<Db> {
    var db1 := InsertContent(db, row);
    InsertFile(db1, FileRow(name, user, folder, db.nextId, false))
  }

  function MimeOrDefault(mime: string): string {
    if mime == "" then "application/octet-stream" else mime
  }

  // ---- uploads ----

  ghost function StepUpload(cfg: Config, s: State, e: Event): (r: (State, Resp))
    requires e.Upload? && cfg.chunkSize > 0
    ensures s.db.nextId <= r.0.db.nextId && r.0.db.folders == s.db.folders
  {
    if e.body == [] then (s, Error(400))
    else if Oversized(cfg, |e.body|) then (s, Error(413))
    else if !FolderAllowed(s.db, e.user, e.folder) then (s, Error(404))
    else
      var hash := cfg.sha(e.body);
      var found := ContentOf(s.db, hash);
      if found.Some? then
        var hints := if cfg.redis && hash !in s.hints then s.hints[hash := found.value] else s.hints;
        var linked := LinkFile(s.db, e.user, e.folder, e.name, found.value, e.now);
        if linked.None? then (s.(hints := hints), Error(500))
        else (s.(db := linked.value, hints := hints), Created(s.db.nextId, true))
      else
        var ps := Chunks(e.body, cfg.chunkSize);
        var disk := ObjectStore.Stored(cfg.sha, s.disk, ps);
        var row := ContentRow(hash, |e.body|, Hashes(cfg.sha, ps), MimeOrDefault(e.mime));
        var inserted := InsertNew(s.db, e.user, e.folder, e.name, row);
        if inserted.None? then (s.(disk := disk), Error(500))
        else
          (s.(disk := disk, db := inserted.value, hints := if cfg.redis then s.hints[hash := s.db.nextId] else s.hints),
           Created(s.db.nextId + 1, false))
  }

  /** Conversion of the computed chunk count to a 32-bit `int`. */
  function ToInt32(x: int): (r: int)
    ensures -0x8000_0000 <= r < 0x8000_0000
    ensures -0x8000_0000 <= x < 0x8000_0000 ==> r == x
  {
    (x + 0x8000_0000) % 0x1_0000_0000 - 0x8000_0000
  }

  function ChunkCount(total: int, size: nat): int
    requires total > 0 && size > 0
  {
    ToInt32((total + size - 1) / size)
  }

  function StepInit(cfg: Config, s: State, e: Event): (r: (State, Resp))
    requires e.Init? && cfg.partSize > 0
    ensures SameContent(s, r.0) && s.db.nextId <= r.0.db.nextId && r.0.db.folders == s.db.folders
  {
    if e.name == "" || e.total <= 0 then (s, Error(400))
    else if Oversized(cfg, e.total) then (s, Error(413))
    else if !FolderAllowed(s.db, e.user, e.folder) then (s, Error(404))
    else
      var count := ChunkCount(e.total, cfg.partSize);
      if count < 0 then (s, Error(500))
      else
        var id := s.db.nextId;
        var session := Session(e.user, e.folder, e.name, e.mime, e.total, cfg.partSize, count,
                               seq(count, _ => false), seq(count, _ => ""));
        (s.(db := s.db.(nextId := id + 1), sessions := if cfg.redis then s.sessions[id := session] else s.sessions),
         Opened(id, cfg.partSize, count))
  }

  /** The session a request may act on, or the error it gets. */
  function SessionError(s: State, user: Id, upload: Id): Option<int> {
    if upload !in s.sessions then Some(404)
    else if s.sessions[upload].user != user then Some(403)
    else None
  }

  function StepPart(cfg: Config, s: State, e: Event): (r: (State, Resp))
    requires e.Part?
    requires forall u | u in s.sessions :: WellShaped(s.sessions[u])
    ensures s.db.nextId <= r.0.db.nextId && r.0.db.folders == s.db.folders
  {
    if e.body == [] then (s, Error(400))
    else
      var err := SessionError(s, e.user, e.upload);
      if err.Some? then (s, Error(err.value))
      else
        var t := s.sessions[e.upload];
        assert WellShaped(t);
        if e.part < 0 || e.part >= t.count then (s, Error(400))
        else if |e.body| > t.chunkSize then (s, Error(413))
        else
          var hash := cfg.sha(e.body);
          var t' := t.(uploaded := t.uploaded[e.part := true], parts := t.parts[e.part := hash]);
          (s.(disk := ObjectStore.Stored(cfg.sha, s.disk, [e.body]), sessions := s.sessions[e.upload := t']), Stored(hash))
  }

  predicate WellShaped(t: Session) {
    0 <= t.count == |t.uploaded| == |t.parts|
  }

  ghost function StepComplete(cfg: Config, s: State, e: Event): (r: (State, Resp))
    requires e.Complete?
    ensures s.db.nextId <= r.0.db.nextId && r.0.db.folders == s.db.folders
  {
    var err := SessionError(s, e.user, e.upload);
    if err.Some? then (s, Error(err.value))
    else
      var t := s.sessions[e.upload];
      if false in t.uploaded then (s, Error(400))
      else if !Readable(s.disk, t.parts) then (s, Error(500))
      else
        var hash := cfg.sha(Assembled(s.disk, t.parts));
        var found := ContentOf(s.db, hash);
        var row := ContentRow(hash, t.total, t.parts, MimeOrDefault(t.mime));
        var inserted := if found.Some? then LinkFile(s.db, e.user, t.folder, t.name, found.value, e.now)
                        else InsertNew(s.db, e.user, t.folder, t.name, row);
        if inserted.None? then (s, Error(500))
        else
          var c := if found.Some? then found.value else s.db.nextId;
          var file := if found.Some? then s.db.nextId else s.db.nextId + 1;
          (s.(db := inserted.value, hints := if cfg.redis then s.hints[hash := c] else s.hints,
              sessions := s.sessions - {e.upload}),
           Created(file, found.Some?))
  }

  function StepAbort(s: State, e: Event): (r: (State, Resp))
    requires e.Abort?
    ensures s.db.nextId <= r.0.db.nextId && r.0.db.folders == s.db.folders
  {
    var err := SessionError(s, e.user, e.upload);
    if err.Some? then (s, Error(err.value)) else (s.(sessions := s.sessions - {e.upload}), Done)
  }

  // ---- reading ----

  /** The bytes of a live file, or 500 when the store cannot assemble them. */
  function ReadFile(s: State, f: Id): Resp
    requires f in s.db.files && s.db.files[f].content in s.db.contents
  {
    var chunks := s.db.contents[s.db.files[f].content].chunks;
    if Readable(s.disk, chunks) then Data(Assembled(s.disk, chunks)) else Error(500)
  }

  function StepDownload(s: State, e: Event): Resp
    requires e.Download? && References(s.db)
  {
    if !Owned(s.db, e.user, e.file) then Error(404) else ReadFile(s, e.file)
  }

  // ---- deletion and garbage collection ----

  /** Chunks of a purged content row that no remaining row lists. */
  function Garbage(disk: Disk, db: Db, chunks: seq<Hash>): set<Hash> {
    set h | h in chunks && h in disk && !ChunkInUse(db, h)
  }

  /** `purge_content`: counters are the content rows and chunk files removed. */
  function Purge(s: State, c: Id): (r: (State, nat, nat))
    ensures r.0.db.nextId == s.db.nextId && r.0.db.folders == s.db.folders
  {
    if c !in s.db.contents || HasLiveReference(s.db, c) then (s, 0, 0)
    else
      var purged := PurgeTables(s.db, c);
      if purged.None? then (s, 0, 0)
      else
        var gone := Garbage(s.disk, purged.value, s.db.contents[c].chunks);
        (s.(db := purged.value, disk := s.disk - gone), 1, |gone|)
  }

  function PurgeAll(s: State, batch: seq<Id>): (r: (State, nat, nat))
    ensures r.0.db.nextId == s.db.nextId && r.0.db.folders == s.db.folders
    decreases |batch|
  {
    if batch == [] then (s, 0, 0)
    else
      var (s1, r1, k1) := PurgeAll(s, batch[..|batch| - 1]);
      var (s2, r2, k2) := Purge(s1, batch[|batch| - 1]);
      (s2, r1 + r2, k1 + k2)
  }

  function StepDelete(s: State, e: Event): (r: (State, Resp))
    requires e.Delete?
    ensures s.db.nextId <= r.0.db.nextId && r.0.db.folders == s.db.folders
  {
    if !Owned(s.db, e.user, e.file) then (s, Error(404))
    else
      var db := Revoke(SoftDelete(s.db, e.file), SharesOfFile(s.db, e.file));
      var (s', rows, chunks) := Purge(s.(db := db), s.db.files[e.file].content);
      (s', Collected(rows, chunks))
  }

  // ---- shares ----

  /** `generate_token`: the first of at most ten draws that is unused. */
  function FirstUnused(db: Db, draws: seq<string>, n: nat): Option<string> {
    if draws == [] || n == 0 then None
    else if exists s | s in db.shares :: db.shares[s].token == draws[0] then FirstUnused(db, draws[1..], n - 1)
    else Some(draws[0])
  }

  function StepCreateShare(cfg: Config, s: State, e: Event): (r: (State, Resp))
    requires e.CreateShare?
    ensures OnlyMetadata(s, r.0)
  {
    if !Owned(s.db, e.user, e.file) then (s, Error(404))
    else
      var token := FirstUnused(s.db, e.draws, 10);
      if token.None? then (s, Error(500))
      else
        var id := s.db.nextId;
        var row := ShareRow(e.file, e.user, token.value, if e.password == [] then "" else cfg.sha(e.password),
                            e.maxDownloads, 0, false);
        (s.(db := s.db.(shares := s.db.shares[id := row], nextId := id + 1)), Shared(id))
  }

  ghost function StepRevokeShare(s: State, e: Event): (r: (State, Resp))
    requires e.RevokeShare?
    ensures OnlyMetadata(s, r.0)
  {
    if e.token == "" then (s, Error(400))
    else
      var found := ShareOf(s.db, e.token);
      if found.None? then (s, Error(404))
      else if s.db.shares[found.value].owner != e.user then (s, Error(403))
      else (s.(db := Revoke(s.db, {found.value})), Done)
  }

  /** `resolve_share` up to the point where the download is counted. */
  ghost function ShareError(cfg: Config, db: Db, token: string, password: Bytes, counted: bool, expired: bool): Option<int> {
    if token == "" then Some(400)
    else
      var found := ShareOf(db, token);
      if found.None? then Some(404)
      else
        var row := db.shares[found.value];
        if row.revoked then Some(403)
        else if expired then Some(410)
        else if row.password != "" && password == [] then Some(401)
        else if row.password != "" && cfg.sha(password) != row.password then Some(403)
        else if counted && row.maxDownloads > 0 && row.downloads >= row.maxDownloads then Some(403)
        else None
  }

  function CountDownload(db: Db, share: Id): Db
    requires share in db.shares
  {
    db.(shares := db.shares[share := db.shares[share].(downloads := db.shares[share].downloads + 1)])
  }

  ghost function StepShareDownload(cfg: Config, s: State, e: Event): (r: (State, Resp))
    requires e.ShareDownload? && References(s.db)
    ensures OnlyMetadata(s, r.0)
  {
    var err := ShareError(cfg, s.db, e.token, e.password, e.counted, e.expired);
    if err.Some? then (s, Error(err.value))
    else
      var id := ShareOf(s.db, e.token).value;
      var f := s.db.shares[id].file;
      var s' := if e.counted then s.(db := CountDownload(s.db, id)) else s;
      if !Live(s.db, f) then (s', Error(404))
      else
        var read := ReadFile(s, f);
        (s', if read.Data? then Granted(id, f, read.bytes) else read)
  }

  ghost function StepSave(cfg: Config, s: State, e: Event): (r: (State, Resp))
    requires e.Save? && References(s.db)
    ensures s.db.nextId <= r.0.db.nextId && r.0.db.folders == s.db.folders
  {
    var err := ShareError(cfg, s.db, e.token, e.password, false, e.expired);
    if err.Some? then (s, Error(err.value))
    else
      var f := s.db.shares[ShareOf(s.db, e.token).value].file;
      if !Live(s.db, f) then (s, Error(404))
      else
        var linked := LinkFile(s.db, e.user, None, s.db.files[f].name, s.db.files[f].content, e.now);
        if linked.None? then (s, Error(500))
        else (s.(db := linked.value), Saved(s.db.nextId, f, ShareOf(s.db, e.token).value))
  }

  // ---- folders ----

  function StepCreateFolder(s: State, e: Event): (r: (State, Resp))
    requires e.CreateFolder?
    ensures OnlyMetadata(s, r.0)
  {
    if e.name == "" then (s, Error(400))
    else if !FolderAllowed(s.db, e.user, e.parent) then (s, Error(404))
    else if FolderNameTaken(s.db, e.user, e.parent, e.name) then (s, Error(409))
    else
      var id := s.db.nextId;
      var row := FolderRow(e.name, e.parent, e.user, false);
      (s.(db := s.db.(folders := s.db.folders[id := row], nextId := id + 1)), FolderMade(id))
  }

  function StepDeleteFolder(s: State, e: Event): (r: (State, Resp))
    requires e.DeleteFolder?
    ensures OnlyMetadata(s, r.0)
  {
    if !FolderAllowed(s.db, e.user, Some(e.target)) then (s, Error(404))
    else if HasChildren(s.db, e.target) then (s, Error(400))
    else (s.(db := s.db.(folders := s.db.folders[e.target := s.db.folders[e.target].(deleted := true)])), Done)
  }

  function StepRenameFolder(s: State, e: Event): (r: (State, Resp))
    requires e.RenameFolder?
    ensures OnlyMetadata(s, r.0)
  {
    if !FolderAllowed(s.db, e.user, Some(e.target)) then (s, Error(404))
    else if e.name == "" then (s, Error(400))
    else
      var row := s.db.folders[e.target];
      if FolderNameTaken(s.db, e.user, row.parent, e.name) && e.name != row.name then (s, Error(409))
      else (s.(db := s.db.(folders := s.db.folders[e.target := row.(name := e.name)])), Done)
  }

  // ---- one step, and runs ----

  /** What every handler relies on. */
  ghost predicate Ready(cfg: Config, s: State) {
    && GoodConfig(cfg)
    && References(s.db)
    && forall u | u in s.sessions :: WellShaped(s.sessions[u])
  }

  /** Shares, folders and hints: no file appears, disappears or changes its content. */
  predicate IsMetadata(e: Event) {
    || e.CreateShare? || e.RevokeShare? || e.RevokeExpired? || e.ShareDownload?
    || e.CreateFolder? || e.DeleteFolder? || e.RenameFolder? || e.ForgetHint?
  }

  predicate IsFolderEvent(e: Event) {
    e.CreateFolder? || e.DeleteFolder? || e.RenameFolder?
  }

  ghost function StepMetadata(cfg: Config, s: State, e: Event): (r: (State, Resp))
    requires Ready(cfg, s) && IsMetadata(e)
    ensures s.db.nextId <= r.0.db.nextId && OnlyMetadata(s, r.0)
    ensures !IsFolderEvent(e) ==> r.0.db.folders == s.db.folders
  {
    match e
    case CreateShare(_, _, _, _, _) => StepCreateShare(cfg, s, e)
    case RevokeShare(_, _) => StepRevokeShare(s, e)
    case RevokeExpired(shares) => (s.(db := Revoke(s.db, shares)), Done)
    case ShareDownload(_, _, _, _) => StepShareDownload(cfg, s, e)
    case CreateFolder(_, _, _) => StepCreateFolder(s, e)
    case DeleteFolder(_, _) => StepDeleteFolder(s, e)
    case RenameFolder(_, _, _) => StepRenameFolder(s, e)
    case ForgetHint(h) => (s.(hints := s.hints - {h}), Done)
  }

  /** The steps of a multipart session. */
  predicate IsSession(e: Event) {
    e.Init? || e.Part? || e.Complete? || e.Abort? || e.ForgetSession?
  }

  ghost function StepSession(cfg: Config, s: State, e: Event): (r: (State, Resp))
    requires Ready(cfg, s) && IsSession(e)
    ensures s.db.nextId <= r.0.db.nextId && r.0.db.folders == s.db.folders
  {
    match e
    case Init(_, _, _, _, _) => StepInit(cfg, s, e)
    case Part(_, _, _, _) => StepPart(cfg, s, e)
    case Complete(_, _, _) => StepComplete(cfg, s, e)
    case Abort(_, _) => StepAbort(s, e)
    case ForgetSession(u) => (s.(sessions := s.sessions - {u}), Done)
  }

  ghost function Step(cfg: Config, s: State, e: Event): (r: (State, Resp))
    requires Ready(cfg, s)
    ensures s.db.nextId <= r.0.db.nextId
    ensures IsMetadata(e) ==> OnlyMetadata(s, r.0)
    ensures !IsFolderEvent(e) ==> r.0.db.folders == s.db.folders
  {
    if IsSession(e) then StepSession(cfg, s, e)
    else if IsMetadata(e) then StepMetadata(cfg, s, e)
    else
      match e
      case Upload(_, _, _, _, _, _) => StepUpload(cfg, s, e)
      case Download(_, _) => (s, StepDownload(s, e))
      case Delete(_, _) => StepDelete(s, e)
      case Sweep(batch) => var (s', rows, chunks) := PurgeAll(s, batch); (s', Collected(rows, chunks))
      case Save(_, _, _, _, _) => StepSave(cfg, s, e)
  }
}
