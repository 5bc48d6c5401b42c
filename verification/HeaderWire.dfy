/** The Borsh layout of src/wire.rs: integers little-endian, hashes as 32 raw bytes, the proposer
    as a length-prefixed UTF-8 string, and the nonce in the last eight bytes. */
module HeaderWire {
  import opened Basics
  import opened ByteNumbers
  import Utf8

  datatype Header = Header(
    height: U64,
    prevHash: Bytes,
    txRoot: Bytes,
    receiptsRoot: Bytes,
    stateRoot: Bytes,
    timestampMs: U64,
    proposer: string,
    versionBits: U32,
    bits: U32,
    nonce: U64)

  /** What the Rust types of the fields promise. */
  predicate WellTyped(h: Header) {
    && |h.prevHash| == 32 && |h.txRoot| == 32 && |h.receiptsRoot| == 32 && |h.stateRoot| == 32
    && |Utf8.Encode(h.proposer)| < 0x1_0000_0000
  }

  // ---------------------------------------------------------------- the codec

  function Encode(h: Header): Bytes
    requires WellTyped(h)
  {
    var text := Utf8.Encode(h.proposer);
    Le(h.height, 8) + h.prevHash + h.txRoot + h.receiptsRoot + h.stateRoot + Le(h.timestampMs, 8)
    + Le(|text|, 4) + text + Le(h.versionBits, 4) + Le(h.bits, 4) + Le(h.nonce, 8)
  }

  /** Bytes before the proposer's text, and after it. */
  const HEAD: nat := 148
  const TAIL: nat := 16

  /** `try_from_slice`: every byte must be consumed. */
  function Decode(b: Bytes): (r: Option<Header>)
    ensures r.Some? ==> |b| >= HEAD + TAIL && WellTyped(r.value)
  {
    if |b| < HEAD then None
    else
      var length := LeValue(b[144..148]);
      if |b| != HEAD + length + TAIL then None
      else
        var end := HEAD + length;
        var text := b[HEAD..end];
        match Utf8.Decode(text)
        case None => None
        case Some(proposer) =>
          MachineWidths();
          Utf8.EncodeUndoesDecode(text);
          Some(Header(LeValue(b[0..8]), b[8..40], b[40..72], b[72..104], b[104..136], LeValue(b[136..144]),
                      proposer, LeValue(b[end..end + 4]), LeValue(b[end + 4..end + 8]), LeValue(b[end + 8..])))
  }

  lemma EncodedFields(h: Header)
    requires WellTyped(h)
    ensures var b, n := Encode(h), |Utf8.Encode(h.proposer)|;
            && |b| == HEAD + n + TAIL
            && b[0..8] == Le(h.height, 8) && b[8..40] == h.prevHash && b[40..72] == h.txRoot
            && b[72..104] == h.receiptsRoot && b[104..136] == h.stateRoot && b[136..144] == Le(h.timestampMs, 8)
            && b[144..148] == Le(n, 4) && b[148..148 + n] == Utf8.Encode(h.proposer)
            && b[148 + n..148 + n + 4] == Le(h.versionBits, 4)
            && b[148 + n + 4..148 + n + 8] == Le(h.bits, 4)
            && b[148 + n + 8..] == Le(h.nonce, 8)
  {
    hide Utf8.Encode, Le;
  }

  /** Decoding undoes encoding. */
  lemma DecodeUndoesEncode(h: Header)
    requires WellTyped(h)
    ensures Decode(Encode(h)) == Some(h)
  {
    hide Encode, Le, LeValue, Utf8.Encode, Utf8.Decode, Pow256;
    var n := |Utf8.Encode(h.proposer)|;
    MachineWidths();
    EncodedFields(h);
    LeValueOfLe(h.height, 8);
    LeValueOfLe(h.timestampMs, 8);
    LeValueOfLe(n, 4);
    LeValueOfLe(h.versionBits, 4);
    LeValueOfLe(h.bits, 4);
    LeValueOfLe(h.nonce, 8);
    Utf8.DecodeUndoesEncode(h.proposer);
  }

  /** Encoding undoes decoding: a header blob has exactly one encoding. */
  lemma EncodeUndoesDecode(b: Bytes)
    requires Decode(b).Some?
    ensures Encode(Decode(b).value) == b
  {
    hide Le, LeValue, Utf8.Encode, Utf8.Decode, Pow256;
    var end := |b| - TAIL;
    LeOfLeValue(b[0..8]);
    LeOfLeValue(b[136..144]);
    LeOfLeValue(b[144..148]);
    LeOfLeValue(b[end..end + 4]);
    LeOfLeValue(b[end + 4..end + 8]);
    LeOfLeValue(b[end + 8..]);
    Utf8.EncodeUndoesDecode(b[HEAD..end]);
    assert b == b[0..8] + b[8..40] + b[40..72] + b[72..104] + b[104..136] + b[136..144] + b[144..148]
                + b[HEAD..end] + b[end..end + 4] + b[end + 4..end + 8] + b[end + 8..];
  }

  // ---------------------------------------------------------------- the nonce splice

  function Splice(blob: Bytes, offset: nat, nonce: U64): (r: Bytes)
    requires offset + 8 <= |blob|
    ensures |r| == |blob|
  {
    blob[..offset] + Le(nonce, 8) + blob[offset + 8..]
  }

  /** The worker's in-place write of the nonce into its work buffer. */
  method SpliceNonce(blob: array<U8>, offset: nat, nonce: U64)
    requires offset + 8 <= blob.Length
    modifies blob
    ensures blob[..] == Splice(old(blob[..]), offset, nonce)
  {
    hide Le;
    ghost var before := blob[..];
    var rest: nat := nonce;
    assert Le(nonce, 8) == blob[offset..offset] + Le(rest, 8);
    for i := 0 to 8
      invariant blob[..offset] == before[..offset] && blob[offset + 8..] == before[offset + 8..]
      invariant Le(nonce, 8) == blob[offset..offset + i] + Le(rest, 8 - i)
    {
      LeStep(blob[offset..offset + i], rest, 8 - i);
      blob[offset + i] := rest % 0x100;
      rest := rest / 0x100;
      assert blob[offset..offset + i + 1] == blob[offset..offset + i] + [blob[offset + i]];
    }
    LeStep(blob[offset..offset + 8], rest, 0);
    assert blob[..] == blob[..offset] + blob[offset..offset + 8] + blob[offset + 8..];
  }

  lemma LeStep(done: Bytes, rest: nat, width: nat)
    ensures width == 0 ==> done + Le(rest, width) == done
    ensures width > 0 ==> done + Le(rest, width) == done + [rest % 0x100] + Le(rest / 0x100, width - 1)
  {
  }

  /** Splicing a nonce at the trailing offset changes the decoded nonce and nothing else. */
  lemma SpliceChangesOnlyTheNonce(blob: Bytes, nonce: U64)
    requires Decode(blob).Some?
    ensures Decode(Splice(blob, |blob| - 8, nonce)) == Some(Decode(blob).value.(nonce := nonce))
  {
    hide Le, LeValue, Utf8.Decode, Pow256;
    var b := Splice(blob, |blob| - 8, nonce);
    var end := |blob| - TAIL;
    assert b[0..8] == blob[0..8] && b[8..40] == blob[8..40] && b[40..72] == blob[40..72];
    assert b[72..104] == blob[72..104] && b[104..136] == blob[104..136] && b[136..144] == blob[136..144];
    assert b[144..148] == blob[144..148] && b[HEAD..end] == blob[HEAD..end];
    assert b[end..end + 4] == blob[end..end + 4] && b[end + 4..end + 8] == blob[end + 4..end + 8];
    assert b[end + 8..] == Le(nonce, 8);
    MachineWidths();
    LeValueOfLe(nonce, 8);
  }

  /** Splicing twice is splicing the last nonce: a reused work buffer carries no trace of earlier nonces. */
  lemma SpliceOverwrites(blob: Bytes, offset: nat, first: U64, second: U64)
    requires offset + 8 <= |blob|
    ensures Splice(Splice(blob, offset, first), offset, second) == Splice(blob, offset, second)
  {
    hide Le;
  }

  /** A work buffer into which one nonce after the other was written. */
  function SpliceAll(blob: Bytes, offset: nat, nonces: seq<U64>): (r: Bytes)
    requires offset + 8 <= |blob|
    ensures |r| == |blob|
  {
    if nonces == [] then blob else Splice(SpliceAll(blob, offset, nonces[..|nonces| - 1]), offset, nonces[|nonces| - 1])
  }

  /** It holds the original with the last nonce, and no trace of the others. */
  lemma {:induction false} BufferKeepsOnlyTheLastNonce(blob: Bytes, offset: nat, nonces: seq<U64>)
    requires offset + 8 <= |blob| && nonces != []
    ensures SpliceAll(blob, offset, nonces) == Splice(blob, offset, nonces[|nonces| - 1])
  {
    hide Splice;
    var front := nonces[..|nonces| - 1];
    if front != [] {
      BufferKeepsOnlyTheLastNonce(blob, offset, front);
      SpliceOverwrites(blob, offset, front[|front| - 1], nonces[|nonces| - 1]);
    }
  }

  lemma SpliceIsInjective(blob: Bytes, offset: nat, a: U64, b: U64)
    requires offset + 8 <= |blob|
    requires Splice(blob, offset, a) == Splice(blob, offset, b)
    ensures a == b
  {
    hide Le, LeValue, Pow256;
    assert Splice(blob, offset, a)[offset..offset + 8] == Le(a, 8);
    assert Splice(blob, offset, b)[offset..offset + 8] == Le(b, 8);
    MachineWidths();
    LeValueOfLe(a, 8);
    LeValueOfLe(b, 8);
  }
}
