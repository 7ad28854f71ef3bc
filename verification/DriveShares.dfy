/** The life of a share over whole runs: revocation is final, deleting a file ends its
    shares, and a download limit is never exceeded. */
module DriveShares {
  import opened Common
  import opened ObjectStore
  import opened Tables
  import opened DriveSpec
  import opened DriveInvariant

  /** The answer lets someone at the file behind share `id`. */
  predicate Uses(r: Resp, id: Id) {
    (r.Granted? && r.share == id) || (r.Saved? && r.share == id)
  }

  /** The answer is a download that counts against the limit of share `id`. */
  predicate Counts(e: Event, r: Resp, id: Id) {
    e.ShareDownload? && e.counted && r.Granted? && r.share == id
  }

  /** How one share row may change: never un-revoked, counted at least as often as granted. */
  predicate Evolves(a: ShareRow, b: ShareRow, counted: bool) {
    && b.file == a.file && b.maxDownloads == a.maxDownloads
    && (a.revoked ==> b.revoked)
    && a.downloads + (if counted then 1 else 0) <= b.downloads
  }

  /** Every old share row evolves; a row that disappears never comes back. */
  ghost predicate SharesEvolve(s: State, e: Event, r: Resp, s': State) {
    forall id: Id | id < s.db.nextId ::
      && (id in s'.db.shares ==> id in s.db.shares && Evolves(s.db.shares[id], s'.db.shares[id], Counts(e, r, id)))
      && (Uses(r, id) ==> id in s.db.shares && !s.db.shares[id].revoked)
  }

  lemma PurgeShares(s: State, c: Id)
    ensures forall id | id in Purge(s, c).0.db.shares :: id in s.db.shares && Purge(s, c).0.db.shares[id] == s.db.shares[id]
  {
  }

  lemma {:induction false} PurgeAllShares(s: State, batch: seq<Id>)
    ensures forall id | id in PurgeAll(s, batch).0.db.shares ::
              id in s.db.shares && PurgeAll(s, batch).0.db.shares[id] == s.db.shares[id]
    decreases |batch|
  {
    if batch != [] {
      PurgeAllShares(s, batch[..|batch| - 1]);
      PurgeShares(PurgeAll(s, batch[..|batch| - 1]).0, batch[|batch| - 1]);
    }
  }

  lemma DeleteShares(s: State, e: Event)
    requires e.Delete?
    ensures SharesEvolve(s, e, StepDelete(s, e).1, StepDelete(s, e).0)
  {
    if Owned(s.db, e.user, e.file) {
      var db := Revoke(SoftDelete(s.db, e.file), SharesOfFile(s.db, e.file));
      PurgeShares(s.(db := db), s.db.files[e.file].content);
    }
  }

  /** Steps that leave the share table alone. */
  lemma SameShares(s: State, e: Event, r: Resp, s': State)
    requires s'.db.shares == s.db.shares && !r.Granted?
    requires r.Saved? ==> r.share in s.db.shares && !s.db.shares[r.share].revoked
    ensures SharesEvolve(s, e, r, s')
  {
  }

  lemma CreateShareShares(cfg: Config, s: State, e: Event)
    requires e.CreateShare?
    ensures SharesEvolve(s, e, StepCreateShare(cfg, s, e).1, StepCreateShare(cfg, s, e).0)
  {
  }

  lemma ShareDownloadShares(cfg: Config, s: State, e: Event)
    requires References(s.db) && e.ShareDownload?
    ensures SharesEvolve(s, e, StepShareDownload(cfg, s, e).1, StepShareDownload(cfg, s, e).0)
  {
  }

  lemma RevokedShares(s: State, e: Event, r: Resp, ids: set<Id>)
    requires r.Done?
    ensures SharesEvolve(s, e, r, s.(db := Revoke(s.db, ids)))
  {
  }

  lemma RevokeShareShares(s: State, e: Event)
    requires e.RevokeShare?
    ensures SharesEvolve(s, e, StepRevokeShare(s, e).1, StepRevokeShare(s, e).0)
  {
  }

  lemma MetadataShares(cfg: Config, s: State, e: Event)
    requires Ready(cfg, s) && IsMetadata(e)
    ensures SharesEvolve(s, e, StepMetadata(cfg, s, e).1, StepMetadata(cfg, s, e).0)
  {
    match e
    case CreateShare(_, _, _, _, _) => CreateShareShares(cfg, s, e);
    case RevokeShare(_, _) => RevokeShareShares(s, e);
    case RevokeExpired(ids) => RevokedShares(s, e, Done, ids);
    case ShareDownload(_, _, _, _) => ShareDownloadShares(cfg, s, e);
    case CreateFolder(_, _, _) => SameShares(s, e, StepCreateFolder(s, e).1, StepCreateFolder(s, e).0);
    case DeleteFolder(_, _) => SameShares(s, e, StepDeleteFolder(s, e).1, StepDeleteFolder(s, e).0);
    case RenameFolder(_, _, _) => SameShares(s, e, StepRenameFolder(s, e).1, StepRenameFolder(s, e).0);
    case ForgetHint(_) =>
  }

  lemma UploadShares(cfg: Config, s: State, e: Event)
    requires cfg.chunkSize > 0 && e.Upload?
    ensures SharesEvolve(s, e, StepUpload(cfg, s, e).1, StepUpload(cfg, s, e).0)
  {
    SameShares(s, e, StepUpload(cfg, s, e).1, StepUpload(cfg, s, e).0);
  }

  lemma CompleteShares(cfg: Config, s: State, e: Event)
    requires e.Complete?
    ensures SharesEvolve(s, e, StepComplete(cfg, s, e).1, StepComplete(cfg, s, e).0)
  {
    SameShares(s, e, StepComplete(cfg, s, e).1, StepComplete(cfg, s, e).0);
  }

  lemma SaveShares(cfg: Config, s: State, e: Event)
    requires References(s.db) && e.Save?
    ensures SharesEvolve(s, e, StepSave(cfg, s, e).1, StepSave(cfg, s, e).0)
  {
    SameShares(s, e, StepSave(cfg, s, e).1, StepSave(cfg, s, e).0);
  }

  lemma SessionShares(cfg: Config, s: State, e: Event)
    requires Ready(cfg, s) && (e.Init? || e.Part? || e.Abort? || e.Download? || e.ForgetSession?)
    ensures SharesEvolve(s, e, Step(cfg, s, e).1, Step(cfg, s, e).0)
  {
    SameShares(s, e, Step(cfg, s, e).1, Step(cfg, s, e).0);
  }

  lemma StepShares(cfg: Config, s: State, e: Event)
    requires Ready(cfg, s)
    ensures SharesEvolve(s, e, Step(cfg, s, e).1, Step(cfg, s, e).0)
  {
    if IsMetadata(e) {
      MetadataShares(cfg, s, e);
    } else if e.Delete? {
      DeleteShares(s, e);
    } else if e.Sweep? {
      PurgeAllShares(s, e.batch);
    } else if e.Upload? {
      UploadShares(cfg, s, e);
    } else if e.Complete? {
      CompleteShares(cfg, s, e);
    } else if e.Save? {
      SaveShares(cfg, s, e);
    } else {
      SessionShares(cfg, s, e);
    }
  }

  /** Along a run, each step evolves the shares. */
  lemma RunShares(cfg: Config, t: Trace, n: nat)
    requires IsRun(cfg, t) && n < |t.events|
    ensures SharesEvolve(t.states[n], t.events[n], t.answers[n], t.states[n + 1])
    ensures t.states[n].db.nextId <= t.states[n + 1].db.nextId
  {
    assert Link(cfg, t, n);
    StepShares(cfg, t.states[n], t.events[n]);
  }

  // ---- revocation is final ----

  /** A key handed out already whose share is revoked or gone. */
  ghost predicate Dead(db: Db, id: Id) {
    id < db.nextId && (id in db.shares ==> db.shares[id].revoked)
  }

  /** From then on no answer uses it: not a download, not a save. */
  lemma {:induction false} DeadStaysDead(cfg: Config, t: Trace, n: nat, m: nat, id: Id)
    requires IsRun(cfg, t) && n <= m < |t.events| && Dead(t.states[n].db, id)
    ensures !Uses(t.answers[m], id) && Dead(t.states[m + 1].db, id)
    decreases m
  {
    if n < m { DeadStaysDead(cfg, t, n, m - 1, id); }
    RunShares(cfg, t, m);
  }

  lemma RevokeKills(s: State, e: Event)
    requires IdsBelow(s.db) && e.RevokeShare? && StepRevokeShare(s, e).1.Done?
    ensures ShareOf(s.db, e.token).Some? && Dead(StepRevokeShare(s, e).0.db, ShareOf(s.db, e.token).value)
  {
  }

  lemma DeleteKills(s: State, e: Event, id: Id)
    requires IdsBelow(s.db) && e.Delete? && StepDelete(s, e).1.Collected?
    requires id in s.db.shares ==> s.db.shares[id].file == e.file
    requires id < s.db.nextId
    ensures Dead(StepDelete(s, e).0.db, id)
  {
    var db := Revoke(SoftDelete(s.db, e.file), SharesOfFile(s.db, e.file));
    PurgeShares(s.(db := db), s.db.files[e.file].content);
  }

  lemma CreatedFresh(cfg: Config, s: State, e: Event)
    requires e.CreateShare? && StepCreateShare(cfg, s, e).1.Shared?
    ensures var (s', r) := StepCreateShare(cfg, s, e);
            && r.share == s.db.nextId < s'.db.nextId
            && r.share in s'.db.shares && s'.db.shares[r.share].file == e.file
            && s'.db.shares[r.share].maxDownloads == e.maxDownloads && s'.db.shares[r.share].downloads == 0
  {
  }

  /** Event `i` created share `answers[i].share`. */
  predicate Creates(t: Trace, i: nat)
    requires i < |t.events| == |t.answers|
  {
    t.events[i].CreateShare? && t.answers[i].Shared?
  }

  lemma CreatedAt(cfg: Config, t: Trace, i: nat)
    requires IsRun(cfg, t) && i < |t.events| && Creates(t, i)
    ensures var id := t.answers[i].share; var db := t.states[i + 1].db;
            && id == t.states[i].db.nextId < db.nextId
            && id in db.shares && db.shares[id].file == t.events[i].file
            && db.shares[id].maxDownloads == t.events[i].maxDownloads && db.shares[id].downloads == 0
  {
    assert Link(cfg, t, i);
    CreatedFresh(cfg, t.states[i], t.events[i]);
  }

  /** What a created share looks like in every later state. */
  lemma {:induction false} CreatedShare(cfg: Config, t: Trace, i: nat, n: nat)
    requires IsRun(cfg, t) && i < n <= |t.events| && Creates(t, i)
    ensures var id := t.answers[i].share; var db := t.states[n].db;
            && id < db.nextId
            && (id in db.shares ==> db.shares[id].file == t.events[i].file && db.shares[id].maxDownloads == t.events[i].maxDownloads)
    decreases n
  {
    if n == i + 1 {
      CreatedAt(cfg, t, i);
    } else {
      CreatedShare(cfg, t, i, n - 1);
      RunShares(cfg, t, n - 1);
    }
  }

  lemma RevokedAt(cfg: Config, t: Trace, n: nat)
    requires IsRun(cfg, t) && n < |t.events| && t.events[n].RevokeShare? && t.answers[n].Done?
    ensures var found := ShareOf(t.states[n].db, t.events[n].token);
            found.Some? && Dead(t.states[n + 1].db, found.value)
  {
    assert Link(cfg, t, n);
    RunInv(cfg, t, n);
    RevokeKills(t.states[n], t.events[n]);
  }

  lemma DeletedAt(cfg: Config, t: Trace, n: nat, id: Id)
    requires IsRun(cfg, t) && n < |t.events| && t.events[n].Delete? && t.answers[n].Collected?
    requires var db := t.states[n].db; id < db.nextId && (id in db.shares ==> db.shares[id].file == t.events[n].file)
    ensures Dead(t.states[n + 1].db, id)
  {
    assert Link(cfg, t, n);
    RunInv(cfg, t, n);
    DeleteKills(t.states[n], t.events[n], id);
  }

  /** Main result: once the owner revokes a share, nobody gets in through it again. */
  lemma RevokedNeverUsed(cfg: Config, t: Trace, n: nat, m: nat)
    requires IsRun(cfg, t) && n < m < |t.events| && t.events[n].RevokeShare? && t.answers[n].Done?
    ensures var found := ShareOf(t.states[n].db, t.events[n].token);
            found.Some? && !Uses(t.answers[m], found.value)
  {
    RevokedAt(cfg, t, n);
    DeadStaysDead(cfg, t, n + 1, m, ShareOf(t.states[n].db, t.events[n].token).value);
  }

  /** Main result: deleting a file ends every share ever made of it. */
  lemma DeletedNeverShared(cfg: Config, t: Trace, i: nat, n: nat, m: nat)
    requires IsRun(cfg, t) && i < n < m < |t.events| && Creates(t, i)
    requires t.events[n].Delete? && t.events[n].file == t.events[i].file && t.answers[n].Collected?
    ensures !Uses(t.answers[m], t.answers[i].share)
  {
    CreatedShare(cfg, t, i, n);
    DeletedAt(cfg, t, n, t.answers[i].share);
    DeadStaysDead(cfg, t, n + 1, m, t.answers[i].share);
  }

  // ---- download limits ----

  /** How many of the first `n` answers granted a counted download of share `id`. */
  function GrantedCount(t: Trace, n: nat, id: Id): nat
    requires n <= |t.events| == |t.answers|
  {
    if n == 0 then 0
    else GrantedCount(t, n - 1, id) + if Counts(t.events[n - 1], t.answers[n - 1], id) then 1 else 0
  }

  /** Grants so far are covered by the counter in the row, and by the limit even after
      the row is gone. */
  ghost predicate WithinBudget(db: Db, id: Id, granted: nat, limit: int) {
    && id < db.nextId && granted <= limit
    && (id in db.shares ==> db.shares[id].maxDownloads == limit && granted <= db.shares[id].downloads <= limit)
  }

  /** A grant needs the row, before and after. */
  lemma GrantUsesRow(cfg: Config, s: State, e: Event)
    requires References(s.db) && e.ShareDownload? && StepShareDownload(cfg, s, e).1.Granted?
    ensures var (s', r) := StepShareDownload(cfg, s, e); r.share in s.db.shares && r.share in s'.db.shares
  {
  }

  lemma GrantAt(cfg: Config, t: Trace, n: nat, id: Id)
    requires IsRun(cfg, t) && n < |t.events| && Counts(t.events[n], t.answers[n], id)
    ensures id in t.states[n].db.shares && id in t.states[n + 1].db.shares
  {
    assert Link(cfg, t, n);
    GrantUsesRow(cfg, t.states[n], t.events[n]);
  }

  /** No answer can use a share before it exists. */
  lemma {:induction false} NotGrantedBefore(cfg: Config, t: Trace, n: nat, id: Id)
    requires IsRun(cfg, t) && n <= |t.events| && id >= t.states[n].db.nextId
    ensures GrantedCount(t, n, id) == 0
    decreases n
  {
    if n > 0 {
      RunShares(cfg, t, n - 1);
      RunInv(cfg, t, n - 1);
      NotGrantedBefore(cfg, t, n - 1, id);
      if Counts(t.events[n - 1], t.answers[n - 1], id) { GrantAt(cfg, t, n - 1, id); }
    }
  }

  lemma {:induction false} BudgetRun(cfg: Config, t: Trace, i: nat, n: nat)
    requires IsRun(cfg, t) && i < n <= |t.events| && Creates(t, i) && t.events[i].maxDownloads > 0
    ensures WithinBudget(t.states[n].db, t.answers[i].share, GrantedCount(t, n, t.answers[i].share), t.events[i].maxDownloads)
    decreases n
  {
    var id := t.answers[i].share;
    var m := n - 1;
    if m == i {
      CreatedAt(cfg, t, i);
      NotGrantedBefore(cfg, t, i, id);
    } else {
      BudgetRun(cfg, t, i, m);
      RunShares(cfg, t, m);
      RunInv(cfg, t, n);
      if Counts(t.events[m], t.answers[m], id) { GrantAt(cfg, t, m, id); }
    }
  }

  /** Main result: a share made with a positive limit grants at most that many counted
      downloads in the whole run, whatever else happens; while its row exists, the
      recorded count lies between the two. */
  lemma LimitHolds(cfg: Config, t: Trace, i: nat, n: nat)
    requires IsRun(cfg, t) && i < n <= |t.events| && Creates(t, i) && t.events[i].maxDownloads > 0
    ensures var id := t.answers[i].share; var shares := t.states[n].db.shares;
            && GrantedCount(t, n, id) <= t.events[i].maxDownloads
            && (id in shares ==> GrantedCount(t, n, id) <= shares[id].downloads <= t.events[i].maxDownloads)
  {
    BudgetRun(cfg, t, i, n);
  }
}
