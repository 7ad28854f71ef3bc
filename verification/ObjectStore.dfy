/** The content-addressed chunk store (src/storage/object_store.cpp): chunks are
    files named by the hash of what they hold. */
module ObjectStore {
  import opened Common

  type Disk = map<Hash, Bytes>

  /** Every stored object is named by its own hash. */
  ghost predicate Addressed(sha: HashFn, disk: Disk) {
    forall h | h in disk :: sha(disk[h]) == h
  }

  lemma NamesAreLong(sha: HashFn, disk: Disk)
    requires CollisionFree(sha) && Addressed(sha, disk)
    ensures forall h | h in disk :: |h| >= 4
  {
    forall h | h in disk ensures |h| >= 4 {
      assert LongDigest(sha, disk[h]);
    }
  }

  function Min(a: nat, b: nat): nat { if a <= b then a else b }

  /** `data` from `offset` on, cut every `n` bytes; the last piece may be shorter. */
  function Pieces(data: Bytes, offset: nat, n: nat): (ps: seq<Bytes>)
    requires n > 0 && offset <= |data|
    ensures offset == |data| <==> ps == []
    decreases |data| - offset
  {
    if offset == |data| then []
    else
      var end := offset + Min(|data| - offset, n);
      [data[offset..end]] + Pieces(data, end, n)
  }

  function Concat(ps: seq<Bytes>): Bytes {
    if ps == [] then [] else ps[0] + Concat(ps[1..])
  }

  lemma {:induction false} ConcatAppend(ps: seq<Bytes>, p: Bytes)
    ensures Concat(ps + [p]) == Concat(ps) + p
  {
    if ps == [] {
      assert Concat([p]) == p + Concat([]);
    } else {
      assert (ps + [p])[1..] == ps[1..] + [p];
      ConcatAppend(ps[1..], p);
    }
  }

  lemma {:induction false} ConcatPieces(data: Bytes, offset: nat, n: nat)
    requires n > 0 && offset <= |data|
    ensures Concat(Pieces(data, offset, n)) == data[offset..]
    decreases |data| - offset
  {
    if offset < |data| {
      var end := offset + Min(|data| - offset, n);
      ConcatPieces(data, end, n);
      assert data[offset..] == data[offset..end] + data[end..];
    }
  }

  /** What `put_chunked` stores: the pieces, or one empty chunk for no data. */
  function Chunks(data: Bytes, n: nat): (ps: seq<Bytes>)
    requires n > 0
    ensures ps != []
  {
    if data == [] then [[]] else Pieces(data, 0, n)
  }

  lemma ConcatChunks(data: Bytes, n: nat)
    requires n > 0
    ensures Concat(Chunks(data, n)) == data
  {
    ConcatPieces(data, 0, n);
  }

  function Hashes(sha: HashFn, ps: seq<Bytes>): (hs: seq<Hash>)
    ensures |hs| == |ps| && forall i | 0 <= i < |ps| :: hs[i] == sha(ps[i])
  {
    seq(|ps|, i requires 0 <= i < |ps| => sha(ps[i]))
  }

  /** The disk after each piece has been put, in order. */
  function Stored(sha: HashFn, disk: Disk, ps: seq<Bytes>): Disk {
    if ps == [] then disk
    else
      var last := ps[|ps| - 1];
      Stored(sha, disk, ps[..|ps| - 1])[sha(last) := last]
  }

  lemma {:induction false} StoredAddressed(sha: HashFn, disk: Disk, ps: seq<Bytes>)
    requires Addressed(sha, disk)
    ensures Addressed(sha, Stored(sha, disk, ps))
    ensures Stored(sha, disk, ps).Keys == disk.Keys + set h | h in Hashes(sha, ps)
  {
    if ps == [] {
      assert (set h | h in Hashes(sha, ps)) == {};
    } else {
      var n := |ps| - 1;
      StoredAddressed(sha, disk, ps[..n]);
      assert ps == ps[..n] + [ps[n]];
      HashesSnoc(sha, ps[..n], ps[n]);
    }
  }

  lemma HashesSnoc(sha: HashFn, ps: seq<Bytes>, p: Bytes)
    ensures Hashes(sha, ps + [p]) == Hashes(sha, ps) + [sha(p)]
  {
  }

  lemma StoredSnoc(sha: HashFn, disk: Disk, ps: seq<Bytes>, p: Bytes)
    ensures Stored(sha, disk, ps + [p]) == Stored(sha, disk, ps)[sha(p) := p]
  {
    assert (ps + [p])[..|ps|] == ps;
  }

  predicate Readable(disk: Disk, hs: seq<Hash>) {
    forall h | h in hs :: h in disk
  }

  /** The bytes a chunk list denotes, in list order. */
  function Assembled(disk: Disk, hs: seq<Hash>): Bytes
    requires Readable(disk, hs)
  {
    Concat(seq(|hs|, i requires 0 <= i < |hs| => disk[hs[i]]))
  }

  /** Two content-addressed disks give the same bytes for a chunk list both hold. */
  lemma AssembledAgrees(sha: HashFn, d1: Disk, d2: Disk, hs: seq<Hash>)
    requires CollisionFree(sha) && Addressed(sha, d1) && Addressed(sha, d2)
    requires Readable(d1, hs) && Readable(d2, hs)
    ensures Assembled(d1, hs) == Assembled(d2, hs)
  {
    forall i | 0 <= i < |hs| ensures d1[hs[i]] == d2[hs[i]] {
      assert hs[i] in hs;
      assert NoCollision(sha, d1[hs[i]], d2[hs[i]]);
    }
    assert seq(|hs|, i requires 0 <= i < |hs| => d1[hs[i]]) == seq(|hs|, i requires 0 <= i < |hs| => d2[hs[i]]);
  }

  /** Reading back by hash returns exactly what was hashed. */
  lemma AssembledHashes(sha: HashFn, disk: Disk, ps: seq<Bytes>)
    requires CollisionFree(sha) && Addressed(sha, disk)
    requires Readable(disk, Hashes(sha, ps))
    ensures Assembled(disk, Hashes(sha, ps)) == Concat(ps)
  {
    var hs := Hashes(sha, ps);
    forall i | 0 <= i < |ps| ensures disk[hs[i]] == ps[i] {
      assert hs[i] in hs;
      assert NoCollision(sha, disk[hs[i]], ps[i]);
    }
    assert seq(|hs|, i requires 0 <= i < |hs| => disk[hs[i]]) == ps;
  }

  /** Round trip of the store: put in pieces, then read by the returned hashes. */
  lemma ChunkedRoundTrip(sha: HashFn, disk: Disk, data: Bytes, n: nat)
    requires CollisionFree(sha) && Addressed(sha, disk) && n > 0
    ensures var hs := Hashes(sha, Chunks(data, n)); var d := Stored(sha, disk, Chunks(data, n));
            Readable(d, hs) && Assembled(d, hs) == data
  {
    StoredAddressed(sha, disk, Chunks(data, n));
    AssembledHashes(sha, Stored(sha, disk, Chunks(data, n)), Chunks(data, n));
    ConcatChunks(data, n);
  }

  /** Removing chunks that a list does not name leaves that list readable and unchanged. */
  lemma AssembledAfterRemove(sha: HashFn, disk: Disk, gone: set<Hash>, hs: seq<Hash>)
    requires CollisionFree(sha) && Addressed(sha, disk) && Readable(disk, hs)
    requires forall h | h in hs :: h !in gone
    ensures Readable(disk - gone, hs) && Assembled(disk - gone, hs) == Assembled(disk, hs)
  {
    AssembledAgrees(sha, disk, disk - gone, hs);
  }

  /** The directory of chunk files. */
  class Store {
    const sha: HashFn
    const chunkSize: nat
    var disk: Disk

    ghost predicate Valid()
      reads this
    {
      chunkSize > 0 && CollisionFree(sha) && Addressed(sha, disk)
    }

    constructor (sha: HashFn, chunkSize: nat)
      requires CollisionFree(sha)
      ensures Valid() && this.sha == sha && disk == map[]
      ensures this.chunkSize == if chunkSize > 0 then chunkSize else 4 * 1024 * 1024
    {
      this.sha := sha;
      this.chunkSize := if chunkSize > 0 then chunkSize else 4 * 1024 * 1024;
      disk := map[];
    }

    method Put(data: Bytes) returns (hash: Hash)
      requires Valid()
      modifies this`disk
      ensures Valid() && hash == sha(data)
      ensures disk == old(disk)[hash := data]
    {
      hash := sha(data);
      if hash in disk {
        assert NoCollision(sha, disk[hash], data);
        return;
      }
      disk := disk[hash := data];
    }

    /** `None` is the thrown "hash too short" or "object not found". */
    method Get(hash: Hash) returns (data: Option<Bytes>)
      requires Valid()
      ensures data == if hash in disk then Some(disk[hash]) else None
    {
      if |hash| < 4 {
        NamesAreLong(sha, disk);
        return None;
      }
      data := if hash in disk then Some(disk[hash]) else None;
    }

    /** True when a file was unlinked; an empty or unknown name removes nothing. */
    method Remove(hash: Hash) returns (removed: bool)
      requires Valid()
      modifies this`disk
      ensures Valid() && removed == (hash in old(disk)) && disk == old(disk) - {hash}
    {
      if hash == "" {
        NamesAreLong(sha, disk);
        assert disk - {hash} == disk;
        return false;
      }
      removed := hash in disk;
      disk := disk - {hash};
    }

    method PutChunked(data: Bytes) returns (hashes: seq<Hash>)
      requires Valid()
      modifies this`disk
      ensures Valid()
      ensures hashes == Hashes(sha, Chunks(data, chunkSize))
      ensures disk == Stored(sha, old(disk), Chunks(data, chunkSize))
    {
      hashes := PutPieces(data);
      if hashes == [] {
        StoredSnoc(sha, old(disk), [], []);
        assert [] + [[]] == Chunks(data, chunkSize);
        var hash := Put([]);
        hashes := [hash];
      }
    }

    /** The loop of `put_chunked`. */
    method PutPieces(data: Bytes) returns (hashes: seq<Hash>)
      requires Valid()
      modifies this`disk
      ensures Valid()
      ensures hashes == Hashes(sha, Pieces(data, 0, chunkSize))
      ensures disk == Stored(sha, old(disk), Pieces(data, 0, chunkSize))
    {
      hashes := [];
      var offset := 0;
      ghost var all := Pieces(data, 0, chunkSize);
      ghost var k := 0;
      while offset < |data|
        invariant 0 <= offset <= |data| && Valid()
        invariant k <= |all| && all[k..] == Pieces(data, offset, chunkSize)
        invariant hashes == Hashes(sha, all[..k])
        invariant disk == Stored(sha, old(disk), all[..k])
      {
        var len := Min(|data| - offset, chunkSize);
        var chunk := data[offset..offset + len];
        NextPiece(sha, old(disk), all, k, chunk, Pieces(data, offset + len, chunkSize));
        var hash := Put(chunk);
        hashes := hashes + [hash];
        offset := offset + len;
        k := k + 1;
      }
      assert all[..k] == all;
    }

    /** `None` is the exception of the first chunk that is not on disk. */
    method GetChunked(hashes: seq<Hash>) returns (data: Option<Bytes>)
      requires Valid()
      ensures data == if Readable(disk, hashes) then Some(Assembled(disk, hashes)) else None
    {
      var result: Bytes := [];
      for k := 0 to |hashes|
        invariant Readable(disk, hashes[..k]) && result == Assembled(disk, hashes[..k])
      {
        var part := Get(hashes[k]);
        if part.None? {
          assert hashes[k] in hashes;
          return None;
        }
        AssembledSnoc(disk, hashes[..k], hashes[k]);
        assert hashes[..k] + [hashes[k]] == hashes[..k + 1];
        result := result + part.value;
      }
      assert hashes[..|hashes|] == hashes;
      data := Some(result);
    }
  }

  lemma NextPiece(sha: HashFn, disk: Disk, all: seq<Bytes>, k: nat, piece: Bytes, rest: seq<Bytes>)
    requires k < |all| && all[k..] == [piece] + rest
    ensures all[k + 1..] == rest && Hashes(sha, all[..k + 1]) == Hashes(sha, all[..k]) + [sha(piece)]
    ensures Stored(sha, disk, all[..k + 1]) == Stored(sha, disk, all[..k])[sha(piece) := piece]
  {
    assert all[k] == all[k..][0] && all[k + 1..] == all[k..][1..];
    assert all[..k + 1] == all[..k] + [piece];
    HashesSnoc(sha, all[..k], piece);
    StoredSnoc(sha, disk, all[..k], piece);
  }

  lemma AssembledSnoc(disk: Disk, hs: seq<Hash>, h: Hash)
    requires Readable(disk, hs) && h in disk
    ensures Readable(disk, hs + [h]) && Assembled(disk, hs + [h]) == Assembled(disk, hs) + disk[h]
  {
    var ps := seq(|hs|, i requires 0 <= i < |hs| => disk[hs[i]]);
    var hs' := hs + [h];
    forall x | x in hs' ensures x in disk { }
    ConcatAppend(ps, disk[h]);
    assert seq(|hs'|, i requires 0 <= i < |hs'| => disk[hs'[i]]) == ps + [disk[h]];
  }
}
