/** What the two sides of a file transfer say to each other. */
module FileMessages {
  import opened Prelude

  /** SHA-256 is taken as injective; `NoKnownInput` stands for the digests nobody has an input for. */
  datatype Digest = Sha256(input: seq<byte>) | NoKnownInput(n: nat)

  datatype Control =
    | Offer(fileId: string, size: int, sha256: Digest)
    | Accept(fileId: string)
    | Reject(fileId: string, reason: string)
    | FileDone(fileId: string)
    | Abort(fileId: string, reason: string)
    | OtherMessage

  datatype Chunk = Chunk(fileId: string, seqNum: int, data: seq<byte>)

  function Concat(chunks: seq<Chunk>): seq<byte> {
    if chunks == [] then [] else Concat(chunks[..|chunks| - 1]) + chunks[|chunks| - 1].data
  }

  lemma ConcatSnoc(chunks: seq<Chunk>, c: Chunk)
    ensures Concat(chunks + [c]) == Concat(chunks) + c.data
  {
    assert (chunks + [c])[..|chunks|] == chunks;
  }

  lemma {:induction false} ConcatPrefix(chunks: seq<Chunk>, k: nat)
    requires k <= |chunks|
    ensures Concat(chunks[..k]) <= Concat(chunks)
    decreases |chunks|
  {
    if k == |chunks| {
      assert chunks[..k] == chunks;
    } else {
      var init := chunks[..|chunks| - 1];
      assert init[..k] == chunks[..k];
      ConcatPrefix(init, k);
    }
  }

  /** Consecutive numbers from 0, all of one file. */
  predicate Numbered(chunks: seq<Chunk>, fileId: string) {
    forall i :: 0 <= i < |chunks| ==> chunks[i].fileId == fileId && chunks[i].seqNum == i
  }

  predicate NonEmpty(chunks: seq<Chunk>) {
    forall i :: 0 <= i < |chunks| ==> chunks[i].data != []
  }

  /** Without empty chunks, only the whole sequence has the whole content. */
  lemma {:induction false} ConcatShorter(chunks: seq<Chunk>, k: nat)
    requires k < |chunks| && NonEmpty(chunks)
    ensures |Concat(chunks[..k])| < |Concat(chunks)|
    decreases |chunks|
  {
    var init := chunks[..|chunks| - 1];
    assert init[..k] == chunks[..k];
    assert chunks[|chunks| - 1].data != [];
    if k < |init| {
      assert forall i :: 0 <= i < |init| ==> init[i] == chunks[i];
      ConcatShorter(init, k);
    } else {
      assert init[..k] == init;
    }
  }
}
