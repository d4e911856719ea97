/** How sendData cuts the file: chunk i is the bytes from CHUNK_SIZE * i up to the next
    multiple of CHUNK_SIZE or the end of the file, sent as DATA packet i. */
module Chunks {
  import opened Wire

  function Min(a: int, b: int): int {
    if a <= b then a else b
  }

  function NumChunks(file: seq<byte>): nat {
    (|file| + CHUNK_SIZE - 1) / CHUNK_SIZE
  }

  /** Where chunk i starts, and chunk i - 1 ends. */
  function Offset(file: seq<byte>, i: nat): (o: nat)
    ensures o <= |file|
  {
    Min(CHUNK_SIZE * i, |file|)
  }

  function Chunk(file: seq<byte>, i: nat): seq<byte> {
    file[Offset(file, i)..Offset(file, i + 1)]
  }

  function DataPacket(file: seq<byte>, i: u32): Packet {
    MakePacket(DATA, Chunk(file, i), i)
  }

  /** The packet a turn of sendData's inner loop makes from its offset and dataSeqNum. */
  function NextPacket(file: seq<byte>, offset: nat, seqNum: u32): Packet
    requires offset < |file|
  {
    var chunkSize := Min(CHUNK_SIZE, |file| - offset);
    MakePacket(DATA, file[offset..offset + chunkSize], seqNum)
  }

  /** Every chunk that exists is nonempty and fits a packet; there is none past the last. */
  lemma ChunkSizes(file: seq<byte>, i: nat)
    ensures |Chunk(file, i)| <= 1456
    ensures Chunk(file, i) != [] <==> i < NumChunks(file)
    ensures Offset(file, i) < |file| <==> i < NumChunks(file)
    ensures i >= NumChunks(file) ==> Offset(file, i) == |file|
  {
  }

  /** From the offset of chunk i it makes DATA packet i, and moves to the offset of the next. */
  lemma NextIsDataPacket(file: seq<byte>, i: u32)
    requires Offset(file, i) < |file|
    ensures i < NumChunks(file)
    ensures NextPacket(file, Offset(file, i), i) == DataPacket(file, i)
    ensures Offset(file, i) + |NextPacket(file, Offset(file, i), i).data| == Offset(file, i + 1)
  {
    hide CrcU32;
    ChunkSizes(file, i);
  }

  /** The first k DATA packets of the file, in order. */
  function Packets(file: seq<byte>, k: nat): (ps: seq<Packet>)
    requires k <= TWO32
    ensures |ps| == k
    ensures forall i | 0 <= i < k :: ps[i].header.seqNum == i
    decreases k
  {
    if k == 0 then [] else Packets(file, k - 1) + [DataPacket(file, k - 1)]
  }

  lemma {:induction false} PacketAt(file: seq<byte>, k: nat, i: nat)
    requires i < k <= TWO32
    ensures Packets(file, k)[i] == DataPacket(file, i)
    decreases k
  {
    if i < k - 1 {
      PacketAt(file, k - 1, i);
    }
  }

  /** Chunks 0 up to k, one after the other. */
  function ConcatChunks(file: seq<byte>, k: nat): seq<byte>
    decreases k
  {
    if k == 0 then [] else ConcatChunks(file, k - 1) + Chunk(file, k - 1)
  }

  /** Chunk i starts at byte 1456 * i, each but the last is 1456 bytes long, and the last ends
      with the file. */
  lemma ChunkIs(file: seq<byte>, i: nat)
    ensures 1456 * i + 1456 <= |file| ==> Chunk(file, i) == file[1456 * i..1456 * i + 1456]
    ensures 1456 * i <= |file| < 1456 * i + 1456 ==> Chunk(file, i) == file[1456 * i..]
    ensures i < NumChunks(file) <==> 1456 * i < |file|
  {
  }

  /** The chunks before k are the file up to offset k. */
  lemma {:induction false} ConcatIsPrefix(file: seq<byte>, k: nat)
    ensures ConcatChunks(file, k) == file[..Offset(file, k)]
    decreases k
  {
    if k != 0 {
      ConcatIsPrefix(file, k - 1);
      assert file[..Offset(file, k)] == file[..Offset(file, k - 1)] + Chunk(file, k - 1);
    }
  }

  /** All of them are the file. */
  lemma AllChunksAreFile(file: seq<byte>)
    ensures ConcatChunks(file, NumChunks(file)) == file
  {
    ConcatIsPrefix(file, NumChunks(file));
    ChunkSizes(file, NumChunks(file));
  }
}
