/** Multipart uploads over whole runs: slices sent in any order, with any repeats and
    any interleaving, join to the original file. */
module DriveMultipart {
  import opened Common
  import opened ObjectStore
  import opened Tables
  import opened DriveSpec
  import opened DriveInvariant
  import opened DriveRefinement

  /** The `j`-th slice the web client sends: bytes `j*size` up to the next multiple. */
  function Slice(data: Bytes, size: nat, j: nat): Bytes {
    data[Min(j * size, |data|)..Min((j + 1) * size, |data|)]
  }

  function Slices(data: Bytes, size: nat, k: nat): (ps: seq<Bytes>)
    ensures |ps| == k && forall j | 0 <= j < k :: ps[j] == Slice(data, size, j)
  {
    seq(k, j requires 0 <= j < k => Slice(data, size, j))
  }

  lemma {:induction false} JoinedSlices(data: Bytes, size: nat, k: nat)
    ensures Concat(Slices(data, size, k)) == data[..Min(k * size, |data|)]
  {
    if k > 0 {
      JoinedSlices(data, size, k - 1);
      assert Slices(data, size, k) == Slices(data, size, k - 1) + [Slice(data, size, k - 1)];
      ConcatAppend(Slices(data, size, k - 1), Slice(data, size, k - 1));
    }
  }

  /** The number of parts covers the file exactly when it fits a 32-bit `int`. */
  lemma CountCovers(total: int, size: nat)
    requires total > 0 && size > 0 && ChunkCount(total, size) >= 0
    ensures ChunkCount(total, size) * size >= total <==> (total + size - 1) / size < 0x8000_0000
  {
    var parts := (total + size - 1) / size;
    var count := ChunkCount(total, size);
    assert total <= parts * size < total + size;
    if parts >= 0x8000_0000 {
      assert count <= parts - 0x1_0000_0000;
      MulMonotone(count, parts - 1, size);
      assert (parts - 1) * size == parts * size - size;
    }
  }

  lemma MulMonotone(a: int, b: int, c: nat)
    requires a <= b
    ensures a * c <= b * c
  {
  }

  // ---- what a session holds ----

  /** Every part received so far is the right slice. */
  ghost predicate Slicing(p: Plain, u: Id, data: Bytes, size: nat, count: nat) {
    u in p.sessions ==>
      && |p.sessions[u].parts| == count
      && forall j | 0 <= j < count :: p.sessions[u].parts[j].Some? ==> p.sessions[u].parts[j].value == Slice(data, size, j)
  }

  /** All parts this run stored for upload `u` carry their slice of `data`. */
  ghost predicate SendsSlices(t: Trace, u: Id, data: Bytes, size: nat)
    requires |t.events| == |t.answers|
  {
    forall n | 0 <= n < |t.events| && t.events[n].Part? && t.events[n].upload == u && t.events[n].part >= 0 && t.answers[n].Stored? ::
      t.events[n].body == Slice(data, size, t.events[n].part)
  }

  lemma OpenedShape(cfg: Config, s: State, e: Event)
    requires Inv(cfg, s) && e.Init? && StepInit(cfg, s, e).1.Opened?
    ensures var (s', o) := StepInit(cfg, s, e);
            && e.total > 0 && o.chunkSize == cfg.partSize && o.count == ChunkCount(e.total, cfg.partSize) >= 0
            && o.upload == s.db.nextId < s'.db.nextId
  {
  }

  /** Event `i` opened upload `answers[i].upload`. */
  ghost predicate Opens(t: Trace, i: nat)
    requires i < |t.events| == |t.answers|
  {
    t.events[i].Init? && t.answers[i].Opened?
  }

  lemma OpenedAt(cfg: Config, t: Trace, i: nat)
    requires IsRun(cfg, t) && i < |t.events| && Opens(t, i)
    ensures var o := t.answers[i]; var total := t.events[i].total;
            && total > 0 && o.chunkSize == cfg.partSize && o.count == ChunkCount(total, cfg.partSize) >= 0
            && o.upload == t.states[i].db.nextId < t.states[i + 1].db.nextId
  {
    assert Link(cfg, t, i);
    RunInv(cfg, t, i);
    OpenedShape(cfg, t.states[i], t.events[i]);
  }

  /** Upload ids are never handed out twice. */
  lemma OpenedOnce(cfg: Config, t: Trace, i: nat, m: nat)
    requires IsRun(cfg, t) && i < m < |t.events| && Opens(t, i) && Opens(t, m)
    ensures t.answers[i].upload != t.answers[m].upload
  {
    OpenedAt(cfg, t, i);
    OpenedAt(cfg, t, m);
    RunIdsGrow(cfg, t, i + 1, m);
  }

  /** One step keeps a session made of right slices, if a part it stores is one too. */
  lemma SlicingStep(redis: bool, p: Plain, e: Event, r: Resp, u: Id, data: Bytes, size: nat, count: nat)
    requires Allowed(p, e, r) && Slicing(p, u, data, size, count)
    requires e.Init? && r.Opened? ==> r.upload != u
    requires e.Part? && e.upload == u && r.Stored? ==> e.body == Slice(data, size, e.part)
    ensures Slicing(PlainStep(redis, p, e, r), u, data, size, count)
  {
  }

  lemma SlicingOpen(redis: bool, p: Plain, e: Event, r: Resp, data: Bytes, size: nat)
    requires Allowed(p, e, r) && e.Init? && r.Opened? && r.count >= 0
    requires !redis ==> r.upload !in p.sessions
    ensures Slicing(PlainStep(redis, p, e, r), r.upload, data, size, r.count)
  {
  }

  /** A session key is below the next free key. */
  lemma SessionBelow(cfg: Config, t: Trace, n: nat, u: Id)
    requires IsRun(cfg, t) && n <= |t.events| && u in PlainAt(cfg, t, n).sessions
    ensures u < t.states[n].db.nextId
  {
    RunInv(cfg, t, n);
  }

  lemma SlicingFirst(cfg: Config, t: Trace, i: nat, data: Bytes)
    requires IsRun(cfg, t) && i < |t.events| && Opens(t, i)
    ensures var o := t.answers[i]; o.count >= 0 && Slicing(PlainAt(cfg, t, i + 1), o.upload, data, o.chunkSize, o.count)
  {
    var o := t.answers[i];
    RunRefines(cfg, t, i);
    OpenedAt(cfg, t, i);
    if o.upload in PlainAt(cfg, t, i).sessions { SessionBelow(cfg, t, i, o.upload); }
    SlicingOpen(cfg.redis, PlainAt(cfg, t, i), t.events[i], o, data, o.chunkSize);
  }

  lemma SlicingNext(cfg: Config, t: Trace, i: nat, m: nat, data: Bytes, size: nat, count: nat)
    requires IsRun(cfg, t) && i < m < |t.events| && Opens(t, i)
    requires SendsSlices(t, t.answers[i].upload, data, size)
    requires Slicing(PlainAt(cfg, t, m), t.answers[i].upload, data, size, count)
    ensures Slicing(PlainAt(cfg, t, m + 1), t.answers[i].upload, data, size, count)
  {
    RunRefines(cfg, t, m);
    if Opens(t, m) { OpenedOnce(cfg, t, i, m); }
    SlicingStep(cfg.redis, PlainAt(cfg, t, m), t.events[m], t.answers[m], t.answers[i].upload, data, size, count);
  }

  /** After the session is opened at event `i`, it only ever holds right slices. */
  lemma {:induction false} SlicingRun(cfg: Config, t: Trace, i: nat, n: nat, data: Bytes)
    requires IsRun(cfg, t) && i < n <= |t.events| && Opens(t, i) && t.answers[i].count >= 0
    requires SendsSlices(t, t.answers[i].upload, data, t.answers[i].chunkSize)
    ensures Slicing(PlainAt(cfg, t, n), t.answers[i].upload, data, t.answers[i].chunkSize, t.answers[i].count)
    decreases n
  {
    if n == i + 1 {
      SlicingFirst(cfg, t, i, data);
    } else {
      SlicingRun(cfg, t, i, n - 1, data);
      SlicingNext(cfg, t, i, n - 1, data, t.answers[i].chunkSize, t.answers[i].count);
    }
  }

  /** Completing a session made of right slices yields a prefix of the file. */
  lemma CompletedFile(redis: bool, p: Plain, e: Event, r: Resp, data: Bytes, size: nat, count: nat)
    requires Allowed(p, e, r) && e.Complete? && r.Created? && Slicing(p, e.upload, data, size, count)
    ensures var files := PlainStep(redis, p, e, r).files;
            r.file in files && files[r.file].owner == e.user && files[r.file].bytes == data[..Min(count * size, |data|)]
  {
    assert Received(p.sessions[e.upload].parts) == Slices(data, size, count);
    JoinedSlices(data, size, count);
  }

  predicate CountFits(total: nat, size: nat)
    requires size > 0
  {
    (total + size - 1) / size < 0x8000_0000
  }

  lemma CompletedWhole(redis: bool, p: Plain, e: Event, r: Resp, data: Bytes, size: nat)
    requires data != [] && size > 0 && ChunkCount(|data|, size) >= 0
    requires Allowed(p, e, r) && e.Complete? && r.Created?
    requires Slicing(p, e.upload, data, size, ChunkCount(|data|, size))
    ensures HoldsWhole(PlainStep(redis, p, e, r).files, r.file, e.user, data, size)
  {
    CompletedFile(redis, p, e, r, data, size, ChunkCount(|data|, size));
    CountCovers(|data|, size);
    PrefixIsWhole(data, ChunkCount(|data|, size) * size);
  }

  /** The file is its owner's and holds all of `data`, or a proper prefix when the part
      count does not fit. */
  ghost predicate HoldsWhole(files: map<Id, PlainFile>, file: Id, owner: Id, data: Bytes, size: nat)
    requires size > 0
  {
    && file in files && files[file].owner == owner
    && (files[file].bytes == data <==> CountFits(|data|, size))
  }

  /** Main result: when the upload opened at event `i` completes at event `k`, the new file
      holds exactly the original bytes, provided the part count fits an `int`; beyond
      that the file is cut short. */
  lemma MultipartExact(cfg: Config, t: Trace, i: nat, k: nat, data: Bytes)
    requires IsRun(cfg, t) && i < k < |t.events| && Opens(t, i) && t.events[i].total == |data|
    requires SendsSlices(t, t.answers[i].upload, data, t.answers[i].chunkSize)
    requires t.events[k].Complete? && t.events[k].upload == t.answers[i].upload && t.answers[k].Created?
    ensures HoldsWhole(PlainAt(cfg, t, k + 1).files, t.answers[k].file, t.events[k].user, data, cfg.partSize)
  {
    OpenedAt(cfg, t, i);
    SlicingRun(cfg, t, i, k, data);
    RunRefines(cfg, t, k);
    CompletedWhole(cfg.redis, PlainAt(cfg, t, k), t.events[k], t.answers[k], data, cfg.partSize);
  }

  lemma PrefixIsWhole(data: Bytes, k: nat)
    ensures data[..Min(k, |data|)] == data <==> k >= |data|
  {
    assert data[..|data|] == data;
  }

  lemma OnePartTooMany(size: nat)
    requires size > 0
    ensures ChunkCount(size * 0x1_0000_0000 + 1, size) == 1 && !CountFits(size * 0x1_0000_0000 + 1, size)
  {
    Quotient(0x1_0000_0001, size);
  }

  lemma Quotient(k: nat, size: nat)
    requires size > 0
    ensures k * size / size == k
  {
    var q := k * size / size;
    assert q * size <= k * size < (q + 1) * size;
    if q < k { MulMonotone(q + 1, k, size); }
    if q > k { MulMonotone(k + 1, q, size); }
  }

  /** A run that cuts a file short: 2^32 + 1 parts are counted as one. */
  lemma CutShort(cfg: Config, data: Bytes) returns (t: Trace)
    requires GoodConfig(cfg) && cfg.redis && |data| == cfg.partSize * 0x1_0000_0000 + 1 && !Oversized(cfg, |data|)
    ensures IsRun(cfg, t) && |t.events| == 3 && t.events[0].Init? && t.events[0].total == |data| && t.answers[0].Opened?
    ensures SendsSlices(t, t.answers[0].upload, data, cfg.partSize) && t.answers[2].Created?
    ensures var files := PlainAt(cfg, t, 3).files;
            t.answers[2].file in files && files[t.answers[2].file].bytes != data
  {
    OnePartTooMany(cfg.partSize);
    var start := RunExists(cfg, []);
    var t2 := OnePartSent(cfg, start, None, |data|, Slice(data, cfg.partSize, 0));
    RunInv(cfg, t2, 2);
    CompleteAnswer(cfg, t2.states[2], Complete(1, 0, 0));
    t := Extended(cfg, t2, Complete(1, 0, 0));
    assert t.events == [Init(1, None, "f", "", |data|), Part(1, 0, 0, Slice(data, cfg.partSize, 0)), Complete(1, 0, 0)];
    MultipartExact(cfg, t, 0, 2, data);
  }

  lemma CompletedReads(cfg: Config, s: State, e: Event)
    requires Inv(cfg, s) && e.Complete? && StepComplete(cfg, s, e).1.Created?
    ensures var (s', r) := StepComplete(cfg, s, e);
            Live(s'.db, r.file) && ReadFile(s', r.file) == Data(Assembled(s.disk, s.sessions[e.upload].parts))
  {
    CompleteInv(cfg, s, e);
    CompletedRow(cfg, s, e);
    var (s', r) := StepComplete(cfg, s, e);
    var row := s'.db.contents[s'.db.files[r.file].content];
    var bytes := Assembled(s.disk, s.sessions[e.upload].parts);
    assert IntactRow(cfg, s'.disk, row) && NoCollision(cfg.sha, Assembled(s'.disk, row.chunks), bytes);
  }

  lemma CompletedRow(cfg: Config, s: State, e: Event)
    requires e.Complete? && StepComplete(cfg, s, e).1.Created?
    ensures var (s', r) := StepComplete(cfg, s, e);
            && Live(s'.db, r.file) && s'.db.files[r.file].content in s'.db.contents
            && s'.db.contents[s'.db.files[r.file].content].hash == cfg.sha(Assembled(s.disk, s.sessions[e.upload].parts))
  { }

  /** A chunk held only by an open session may be collected. `handle_complete` then
      fails and changes nothing, so no row ever names a missing chunk; sending the part
      again makes it readable again. */
  lemma CompleteNeedsEveryPart(cfg: Config, s: State, e: Event)
    requires Inv(cfg, s) && e.Complete?
    ensures var (s', r) := StepComplete(cfg, s, e);
            && (r.Created? <==> CanComplete(cfg, s, e))
            && (r.Created? ==> Live(s'.db, r.file) && ReadFile(s', r.file) == Data(Assembled(s.disk, s.sessions[e.upload].parts)))
            && (!r.Created? ==> s' == s)
  {
    CompleteAnswer(cfg, s, e);
    if CanComplete(cfg, s, e) { CompletedReads(cfg, s, e); }
  }

  lemma ResendRepairs(cfg: Config, s: State, e: Event)
    requires Inv(cfg, s) && e.Part? && StepPart(cfg, s, e).1.Stored?
    ensures var s' := StepPart(cfg, s, e).0; var t := s'.sessions[e.upload];
            && t.uploaded[e.part] && t.parts[e.part] in s'.disk && s'.disk[t.parts[e.part]] == e.body
            && forall j | 0 <= j < |t.parts| && s.sessions[e.upload].parts[j] in s.disk :: t.parts[j] in s'.disk
  {
    assert [e.body][..0] == [];
    StoredAddressed(cfg.sha, s.disk, [e.body]);
  }
}
