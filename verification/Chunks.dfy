/** Cutting an image into numbered, hashed chunks and putting it together again from any order. */
module Chunks {
  import opened Basics
  import opened Sorting
  import opened Arithmetic

  datatype Chunk = Chunk(index: u32, totalCount: u32, snapshotHash: Hash, chunkHash: Hash, data: Bytes)

  /** No Go slice is longer. */
  const MAX_LEN: nat := 0x7FFF_FFFF_FFFF_FFFF

  // ----- what cutting means -----

  function Pieces(data: Bytes, size: nat): (r: seq<Bytes>)
    requires size > 0
    ensures |r| > 0 <==> data != []
  {
    if data == [] then [] else
      var n := if |data| < size then |data| else size;
      [data[..n]] + Pieces(data[n..], size)
  }

  function Joined(pieces: seq<Bytes>): Bytes
  {
    if pieces == [] then [] else Joined(pieces[..|pieces| - 1]) + pieces[|pieces| - 1]
  }

  lemma {:induction false} JoinedFront(p: Bytes, pieces: seq<Bytes>)
    ensures Joined([p] + pieces) == p + Joined(pieces)
  {
    if pieces != [] {
      var init, last := pieces[..|pieces| - 1], pieces[|pieces| - 1];
      assert ([p] + pieces)[..|pieces|] == [p] + init;
      JoinedFront(p, init);
      assert (p + Joined(init)) + last == p + (Joined(init) + last);
    } else {
      assert [p] + pieces == [p] && [p][..0] == [];
      assert Joined([p]) == Joined([]) + p;
    }
  }

  /** The pieces of an image, in order, make up the image. */
  lemma {:induction false} PiecesJoin(data: Bytes, size: nat)
    requires size > 0
    ensures Joined(Pieces(data, size)) == data
    decreases |data|
  {
    if data != [] {
      var n := if |data| < size then |data| else size;
      PiecesJoin(data[n..], size);
      JoinedFront(data[..n], Pieces(data[n..], size));
      assert data == data[..n] + data[n..];
    }
  }

  /** Their number is the length over the size, rounded up. */
  lemma {:induction false} PiecesCount(data: Bytes, size: nat)
    requires size > 0
    ensures |Pieces(data, size)| == (|data| + size - 1) / size
    decreases |data|
  {
    if data == [] {
      SmallQuotient(size - 1, size);
    } else {
      var n := if |data| < size then |data| else size;
      PiecesCount(data[n..], size);
      if |data| <= size {
        SmallQuotient(|data| - 1, size);
        NextQuotient(|data| - 1, size);
        assert data[n..] == [];
      } else {
        NextQuotient(|data| - 1, size);
      }
    }
  }

  /** The chunk count as the source computes it, in 64-bit arithmetic. */
  function TotalChunks(len: u64, size: u64): u64
    requires size > 0
  {
    Wrap64(Wrap64(len + size) - 1) / size
  }

  function ChunkAt(data: Bytes, size: u64, hash: Bytes -> Hash, i: nat): Chunk
    requires 0 < size && |data| <= MAX_LEN && i < |Pieces(data, size)|
  {
    var piece := Pieces(data, size)[i];
    Chunk(Wrap32(i), Wrap32(TotalChunks(|data|, size)), hash(data), hash(piece), piece)
  }

  ghost function AllChunks(data: Bytes, size: u64, hash: Bytes -> Hash): (r: seq<Chunk>)
    requires 0 < size && |data| <= MAX_LEN
    ensures |r| == |Pieces(data, size)|
    ensures forall i :: 0 <= i < |r| ==> r[i] == ChunkAt(data, size, hash, i)
  {
    seq(|Pieces(data, size)|, i requires 0 <= i < |Pieces(data, size)| => ChunkAt(data, size, hash, i))
  }

  method ChunkSnapshot(data: Bytes, size: u64, hash: Bytes -> Hash) returns (r: Option<seq<Chunk>>)
    requires |data| <= MAX_LEN
    ensures r == if size == 0 || data == [] || TotalChunks(|data|, size) > 0xFFFF_FFFF then None
                 else Some(AllChunks(data, size, hash))
  {
    hide Wrap32, TotalChunks, Pieces, AllChunks;
    if size == 0 { return None; }
    if data == [] { return None; }
    var total := TotalChunks(|data|, size);
    if total > 0xFFFF_FFFF { return None; }
    var snapHash := hash(data);
    var chunks: seq<Chunk>, offset: nat, index: u32 := [], 0, 0;
    ghost var pieces := Pieces(data, size);
    ZeroIndex();
    while offset < |data|
      invariant offset <= |data| && |chunks| <= |pieces|
      invariant pieces[|chunks|..] == Pieces(data[offset..], size)
      invariant forall i :: 0 <= i < |chunks| ==> chunks[i] == ChunkAt(data, size, hash, i)
      invariant index == Wrap32(|chunks|)
      decreases |data| - offset
    {
      var remain := |data| - offset;
      var n := if remain < size then remain else size;
      var piece := data[offset..offset + n];
      NextPiece(data, size, offset, n);
      assert pieces[|chunks|] == pieces[|chunks|..][0];
      assert pieces[|chunks| + 1..] == pieces[|chunks|..][1..];
      NextIndex(|chunks|);
      chunks := chunks + [Chunk(index, Wrap32(total), snapHash, hash(piece), piece)];
      offset := offset + n;
      index := Wrap32(index + 1);
    }
    assert data[offset..] == [];
    assert |pieces[|chunks|..]| == 0;
    assert chunks == AllChunks(data, size, hash);
    r := Some(chunks);
  }

  lemma NextPiece(data: Bytes, size: nat, offset: nat, n: nat)
    requires size > 0 && offset < |data| && n == if |data| - offset < size then |data| - offset else size
    ensures Pieces(data[offset..], size) == [data[offset..offset + n]] + Pieces(data[offset + n..], size)
  {
    assert data[offset..][..n] == data[offset..offset + n] && data[offset..][n..] == data[offset + n..];
  }

  lemma ZeroIndex()
    ensures Wrap32(0) == 0
  {
  }

  lemma NextIndex(i: nat)
    ensures Wrap32(Wrap32(i) + 1) == Wrap32(i + 1)
  {
    var q := i / U32;
    assert i == U32 * q + Wrap32(i);
    if Wrap32(i) + 1 < U32 {
      assert (i + 1) / U32 == q;
    } else {
      assert i + 1 == U32 * (q + 1);
    }
  }

  // ----- putting together -----

  predicate ByIndex(a: Chunk, b: Chunk)
  {
    a.index < b.index
  }

  function Data(cs: seq<Chunk>): (r: seq<Bytes>)
    ensures |r| == |cs|
  {
    seq(|cs|, i requires 0 <= i < |cs| => cs[i].data)
  }

  predicate ChunkOK(c: Chunk, i: nat, snapshotHash: Hash, hash: Bytes -> Hash)
  {
    c.index == Wrap32(i) && hash(c.data) == c.chunkHash && c.snapshotHash == snapshotHash
  }

  /** A full set of chunks in order, each intact, that together have the hash they all name. */
  ghost predicate Complete(cs: seq<Chunk>, hash: Bytes -> Hash)
  {
    && cs != [] && |cs| == cs[0].totalCount
    && (forall i :: 0 <= i < |cs| ==> ChunkOK(cs[i], i, cs[0].snapshotHash, hash))
    && hash(Joined(Data(cs))) == cs[0].snapshotHash
  }

  /** A complete set has no damaged chunk, none of another image, none too many or too few and no number twice. */
  lemma CompleteMeans(cs: seq<Chunk>, hash: Bytes -> Hash, i: nat)
    requires Complete(cs, hash) && i < |cs|
    ensures cs[i].index == i && |cs| == cs[0].totalCount
    ensures hash(cs[i].data) == cs[i].chunkHash && cs[i].snapshotHash == hash(Joined(Data(cs)))
  {
  }

  lemma CompleteIsSorted(cs: seq<Chunk>, chunks: seq<Chunk>, r: seq<Chunk>, hash: Bytes -> Hash)
    requires Complete(cs, hash) && multiset(cs) == multiset(chunks)
    requires multiset(r) == multiset(chunks) && Sorted(r, ByIndex)
    ensures r == cs
  {
    var S := set c | c in cs;
    assert forall i :: 0 <= i < |cs| ==> cs[i].index == i;
    DistinctMultiset(cs, S);
    assert StrictWeak(ByIndex);
    assert TotalOn(S, ByIndex);
    SortedIsListing(r, S, ByIndex);
    AscendingUnique(r, cs, ByIndex);
  }

  /** Succeeds exactly when the chunks, in some order, are a complete set; the result is then their data in order. */
  method ReassembleSnapshot(chunks: seq<Chunk>, hash: Bytes -> Hash) returns (r: Option<Bytes>)
    ensures forall cs | Complete(cs, hash) && multiset(cs) == multiset(chunks) :: r == Some(Joined(Data(cs)))
    ensures r.Some? ==> exists cs :: Complete(cs, hash) && multiset(cs) == multiset(chunks)
  {
    hide ByIndex, Wrap32;
    ByIndexIsStrictWeak();
    var sorted := SortSlice(chunks, ByIndex);
    forall cs | Complete(cs, hash) && multiset(cs) == multiset(chunks) ensures cs == sorted {
      CompleteIsSorted(cs, chunks, sorted, hash);
    }
    r := Assemble(sorted, hash);
  }

  lemma ByIndexIsStrictWeak()
    ensures StrictWeak(ByIndex)
  {
  }

  method Assemble(cs: seq<Chunk>, hash: Bytes -> Hash) returns (r: Option<Bytes>)
    ensures r == if Complete(cs, hash) then Some(Joined(Data(cs))) else None
  {
    hide Wrap32;
    if cs == [] { return None; }
    if |cs| != cs[0].totalCount { return None; }
    var data: Bytes := [];
    for i := 0 to |cs|
      invariant data == Joined(Data(cs[..i]))
      invariant forall j :: 0 <= j < i ==> ChunkOK(cs[j], j, cs[0].snapshotHash, hash)
    {
      if !ChunkOK(cs[i], i, cs[0].snapshotHash, hash) { return None; }
      assert Data(cs[..i + 1])[..i] == Data(cs[..i]);
      data := data + cs[i].data;
    }
    assert cs[..|cs|] == cs;
    if hash(data) != cs[0].snapshotHash { return None; }
    r := Some(data);
  }

  /** Cutting gives a complete set exactly when the rounded-up count did not overflow on the way. */
  lemma CutIsComplete(data: Bytes, size: u64, hash: Bytes -> Hash)
    requires 0 < size && 0 < |data| <= MAX_LEN && TotalChunks(|data|, size) <= 0xFFFF_FFFF
    ensures Complete(AllChunks(data, size, hash), hash) <==> |data| + size - 1 < U64
    ensures Joined(Data(AllChunks(data, size, hash))) == data
  {
    var cs, pieces := AllChunks(data, size, hash), Pieces(data, size);
    assert Data(cs) == pieces;
    PiecesJoin(data, size);
    PiecesCount(data, size);
    if |data| + size - 1 < U64 {
      assert |pieces| == TotalChunks(|data|, size);
    } else {
      OverflowCountsZero(|data|, size);
    }
  }

  lemma OverflowCountsZero(len: u64, size: u64)
    requires size > 0 && len <= MAX_LEN && len + size - 1 >= U64
    ensures TotalChunks(len, size) == 0
  {
    assert Wrap64(len + size) == len + size - U64;
    SmallQuotient(len + size - 1 - U64, size);
  }

  /** Two bytes cut at the largest size make one chunk that says there are none. */
  lemma OverflowWraps()
    ensures TotalChunks(2, 0xFFFF_FFFF_FFFF_FFFF) == 0 && |Pieces([7, 7], 0xFFFF_FFFF_FFFF_FFFF)| == 1
  {
    assert [7, 7][2..] == [];
  }

  /** After an overflow no order of the chunks is a complete set. */
  lemma OverflowNeverComplete(data: Bytes, size: u64, hash: Bytes -> Hash, cs: seq<Chunk>)
    requires 0 < size && |data| <= MAX_LEN && |data| + size - 1 >= U64
    requires multiset(cs) == multiset(AllChunks(data, size, hash))
    ensures !Complete(cs, hash)
  {
    OverflowCountsZero(|data|, size);
    if cs != [] {
      assert cs[0] in multiset(cs);
      assert cs[0] in AllChunks(data, size, hash);
    }
  }
}
