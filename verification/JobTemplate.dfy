/** Acceptance of a block template in direct-node mode (`Job::from_rpc` of src/main.rs) and the work
    buffer a worker hashes. The template arrives with its fields already typed; the header
    identifier is an uninterpreted function of the blob. */
module JobTemplate {
  import opened Basics
  import opened ByteNumbers
  import AccountId
  import CompactTarget
  import HeaderWire
  import Utf8

  const MAX_BLOB_BYTES: nat := 1024 * 1024

  datatype PowAlgo = Sha256d | RandomX

  datatype Template = Template(
    templateId: string,
    height: U64,
    timestampMs: U64,
    blob: Bytes,
    nonceOffset: U64,
    target: Bytes,
    powAlgo: string,
    powKey: Bytes,
    proposer: string,
    versionBits: Option<U64>,
    bits: Option<U64>)

  datatype Job = Job(
    id: string,
    blob: Bytes,
    nonceOffset: nat,
    target: Bytes,
    algo: PowAlgo,
    powKey: Bytes,
    height: U64,
    timestampMs: U64,
    coinbase: string)

  datatype TemplateError =
    | BlobLength | NonceOffset | TargetLength | UnsupportedAlgo | PowKeyLength
    | InvalidProposer | InvalidHeader | ProposerMismatch | HeightMismatch | TimestampMismatch
    | VersionBitsMismatch | BitsMismatch | InvalidCompact | TargetMismatch | TemplateIdMismatch

  function Algo(name: string): Option<PowAlgo> {
    if name == "RandomX" then Some(RandomX) else if name == "Sha256d" then Some(Sha256d) else None
  }

  /** The name a node has for an algorithm. */
  function AlgoName(algo: PowAlgo): string {
    match algo
    case RandomX => "RandomX"
    case Sha256d => "Sha256d"
  }

  lemma AlgoExactly(name: string)
    ensures forall algo :: Algo(name) == Some(algo) <==> AlgoName(algo) == name
  {
    assert "RandomX"[0] != "Sha256d"[0];
  }

  /** What an accepted template must commit to, in terms of the header its blob encodes. */
  ghost predicate Acceptable(t: Template, blobId: Bytes -> string) {
    && 8 <= |t.blob| <= MAX_BLOB_BYTES && t.nonceOffset == |t.blob| - 8
    && |t.target| == 32 && |t.powKey| == 32 && Algo(t.powAlgo).Some?
    && AccountId.Account(Utf8.Encode(Utf8.Trim(t.proposer)))
    && HeaderWire.Decode(t.blob).Some?
    && var h := HeaderWire.Decode(t.blob).value;
       && h.proposer == Utf8.Trim(t.proposer) && h.height == t.height && h.timestampMs == t.timestampMs
       && (t.versionBits.Some? ==> t.versionBits.value == h.versionBits)
       && (t.bits.Some? ==> t.bits.value == h.bits)
       && CompactTarget.Target(h.bits) == Some(t.target)
       && blobId(t.blob) == t.templateId
  }

  /** The condition each refusal reports. */
  ghost predicate Violates(t: Template, blobId: Bytes -> string, error: TemplateError) {
    var coinbase := Utf8.Trim(t.proposer);
    var header := HeaderWire.Decode(t.blob);
    match error
    case BlobLength => !(8 <= |t.blob| <= MAX_BLOB_BYTES)
    case NonceOffset => t.nonceOffset != |t.blob| - 8
    case TargetLength => |t.target| != 32
    case UnsupportedAlgo => Algo(t.powAlgo).None?
    case PowKeyLength => |t.powKey| != 32
    case InvalidProposer => !AccountId.Account(Utf8.Encode(coinbase))
    case InvalidHeader => header.None?
    case ProposerMismatch => header.Some? && header.value.proposer != coinbase
    case HeightMismatch => header.Some? && header.value.height != t.height
    case TimestampMismatch => header.Some? && header.value.timestampMs != t.timestampMs
    case VersionBitsMismatch => header.Some? && t.versionBits.Some? && t.versionBits.value != header.value.versionBits
    case BitsMismatch => header.Some? && t.bits.Some? && t.bits.value != header.value.bits
    case InvalidCompact => header.Some? && CompactTarget.Target(header.value.bits).None?
    case TargetMismatch => header.Some? && CompactTarget.Target(header.value.bits) != Some(t.target)
    case TemplateIdMismatch => blobId(t.blob) != t.templateId
  }

  /** The order in which the checks are made. */
  function Order(error: TemplateError): nat {
    match error
    case BlobLength => 0
    case NonceOffset => 1
    case TargetLength => 2
    case UnsupportedAlgo => 3
    case PowKeyLength => 4
    case InvalidProposer => 5
    case InvalidHeader => 6
    case ProposerMismatch => 7
    case HeightMismatch => 8
    case TimestampMismatch => 9
    case VersionBitsMismatch => 10
    case BitsMismatch => 11
    case InvalidCompact => 12
    case TargetMismatch => 13
    case TemplateIdMismatch => 14
  }

  /** None of the conditions checked before the `n`-th is violated. */
  ghost predicate PassesFirst(t: Template, blobId: Bytes -> string, n: nat) {
    forall e: TemplateError | Order(e) < n :: !Violates(t, blobId, e)
  }

  lemma AcceptablePasses(t: Template, blobId: Bytes -> string, error: TemplateError)
    requires Acceptable(t, blobId)
    ensures !Violates(t, blobId, error)
  {
    hide HeaderWire.Decode, CompactTarget.Target, AccountId.Account, Utf8.Encode, Utf8.Trim, Algo;
  }

  lemma PassingIsAcceptable(t: Template, blobId: Bytes -> string)
    requires forall e :: !Violates(t, blobId, e)
    ensures Acceptable(t, blobId)
  {
    hide HeaderWire.Decode, CompactTarget.Target, AccountId.Account, Utf8.Encode, Utf8.Trim, Algo;
    assert !Violates(t, blobId, BlobLength) && !Violates(t, blobId, NonceOffset) && !Violates(t, blobId, TargetLength);
    assert !Violates(t, blobId, UnsupportedAlgo) && !Violates(t, blobId, PowKeyLength) && !Violates(t, blobId, InvalidProposer);
    assert !Violates(t, blobId, InvalidHeader) && !Violates(t, blobId, ProposerMismatch) && !Violates(t, blobId, HeightMismatch);
    assert !Violates(t, blobId, TimestampMismatch) && !Violates(t, blobId, VersionBitsMismatch) && !Violates(t, blobId, BitsMismatch);
    assert !Violates(t, blobId, InvalidCompact) && !Violates(t, blobId, TargetMismatch) && !Violates(t, blobId, TemplateIdMismatch);
  }

  lemma PassesAll(t: Template, blobId: Bytes -> string)
    ensures PassesFirst(t, blobId, 15) <==> Acceptable(t, blobId)
  {
    hide Violates, Acceptable;
    if PassesFirst(t, blobId, 15) {
      forall e ensures !Violates(t, blobId, e) { assert Order(e) < 15; }
      PassingIsAcceptable(t, blobId);
    }
    if Acceptable(t, blobId) {
      forall e | Order(e) < 15 ensures !Violates(t, blobId, e) { AcceptablePasses(t, blobId, e); }
    }
  }

  /** The checks that need no header. */
  method CheckShape(t: Template, blobId: Bytes -> string) returns (error: Option<TemplateError>)
    ensures error == None ==> PassesFirst(t, blobId, 6)
    ensures error.Some? ==> Violates(t, blobId, error.value) && PassesFirst(t, blobId, Order(error.value))
  {
    hide HeaderWire.Decode, CompactTarget.Target, AccountId.Account, Utf8.Encode, Utf8.Trim, Algo;
    if |t.blob| < 8 || |t.blob| > MAX_BLOB_BYTES { return Some(BlobLength); }
    if t.nonceOffset != |t.blob| - 8 { return Some(NonceOffset); }
    if |t.target| != 32 { return Some(TargetLength); }
    if Algo(t.powAlgo).None? { return Some(UnsupportedAlgo); }
    if |t.powKey| != 32 { return Some(PowKeyLength); }
    var verdict := AccountId.ValidateAccountId(Utf8.Encode(Utf8.Trim(t.proposer)));
    if verdict != AccountId.Valid { return Some(InvalidProposer); }
    return None;
  }

  /** The checks of what the blob's header commits to. */
  method CheckHeader(t: Template, blobId: Bytes -> string) returns (error: Option<TemplateError>)
    requires PassesFirst(t, blobId, 6)
    ensures error == None ==> PassesFirst(t, blobId, 15)
    ensures error.Some? ==> Violates(t, blobId, error.value) && PassesFirst(t, blobId, Order(error.value))
  {
    hide HeaderWire.Decode, CompactTarget.Target, AccountId.Account, Utf8.Encode, Utf8.Trim, Algo;
    var decoded := HeaderWire.Decode(t.blob);
    if decoded.None? { return Some(InvalidHeader); }
    var header := decoded.value;
    if header.proposer != Utf8.Trim(t.proposer) { return Some(ProposerMismatch); }
    if header.height != t.height { return Some(HeightMismatch); }
    if header.timestampMs != t.timestampMs { return Some(TimestampMismatch); }
    if t.versionBits.Some? && (t.versionBits.value > 0xFFFF_FFFF || header.versionBits != t.versionBits.value) {
      return Some(VersionBitsMismatch);
    }
    if t.bits.Some? && (t.bits.value > 0xFFFF_FFFF || header.bits != t.bits.value) {
      return Some(BitsMismatch);
    }
    var committed := CompactTarget.TargetFromCompact(header.bits);
    if committed.None? { return Some(InvalidCompact); }
    if t.target != committed.value { return Some(TargetMismatch); }
    if blobId(t.blob) != t.templateId { return Some(TemplateIdMismatch); }
    return None;
  }

  /** A template is accepted exactly when it is acceptable; a refusal reports the first condition, in the
      order of the checks, that is violated. */
  method FromRpc(t: Template, blobId: Bytes -> string) returns (r: Result<Job, TemplateError>)
    ensures r.Ok? <==> Acceptable(t, blobId)
    ensures r.Ok? ==>
              && r.value.id == t.templateId && r.value.blob == t.blob && r.value.nonceOffset == t.nonceOffset
              && r.value.target == t.target && r.value.powKey == t.powKey && AlgoName(r.value.algo) == t.powAlgo
              && r.value.height == t.height && r.value.timestampMs == t.timestampMs
              && r.value.coinbase == Utf8.Trim(t.proposer)
    ensures r.Err? ==> Violates(t, blobId, r.error) && PassesFirst(t, blobId, Order(r.error))
  {
    hide *;
    var error := CheckShape(t, blobId);
    if error == None {
      error := CheckHeader(t, blobId);
    }
    PassesAll(t, blobId);
    if error.Some? {
      ViolationRefutes(t, blobId, error.value);
      return Err(error.value);
    }
    AcceptedAlgo(t, blobId);
    AlgoExactly(t.powAlgo);
    r := Ok(Job(t.templateId, t.blob, t.nonceOffset, t.target, Algo(t.powAlgo).value, t.powKey, t.height, t.timestampMs,
                Utf8.Trim(t.proposer)));
  }

  lemma ViolationRefutes(t: Template, blobId: Bytes -> string, error: TemplateError)
    requires Violates(t, blobId, error)
    ensures !PassesFirst(t, blobId, 15)
  {
    hide Violates;
  }

  lemma AcceptedAlgo(t: Template, blobId: Bytes -> string)
    requires Acceptable(t, blobId)
    ensures Algo(t.powAlgo).Some? && t.nonceOffset == |t.blob| - 8
  {
  }

  /** White space begins and ends with a byte that no account may. */
  lemma WhitespaceBytes(c: char)
    requires Utf8.Whitespace(c)
    ensures var b := Utf8.EncodeChar(c); !AccountId.Alphanumeric(b[0]) && !AccountId.Alphanumeric(b[|b| - 1])
  {
  }

  lemma EdgeBytes(name: string)
    requires name != ""
    ensures var b, first, last := Utf8.Encode(name), Utf8.EncodeChar(name[0]), Utf8.EncodeChar(name[|name| - 1]);
            b != [] && b[0] == first[0] && b[|b| - 1] == last[|last| - 1]
  {
    var last := |name| - 1;
    assert name == name[..last] + [name[last]];
    Utf8.EncodeConcat(name[..last], [name[last]]);
    assert Utf8.Encode([name[last]]) == Utf8.EncodeChar(name[last]);
    hide Utf8.EncodeChar;
  }

  lemma AccountEdges(bytes: Bytes)
    requires AccountId.Account(bytes)
    ensures bytes != [] && AccountId.Alphanumeric(bytes[0]) && AccountId.Alphanumeric(bytes[|bytes| - 1])
  {
    AccountId.NameIsLocal(bytes);
    assert AccountId.AllowedAt(bytes, 0) && AccountId.AllowedAt(bytes, |bytes| - 1);
    hide AccountId.Name;
  }

  lemma AccountIsTrimmed(name: string)
    requires AccountId.Account(Utf8.Encode(name))
    ensures Utf8.Trim(name) == name
  {
    hide AccountId.Account, AccountId.Alphanumeric, Utf8.EncodeChar, Utf8.Whitespace;
    AccountEdges(Utf8.Encode(name));
    EdgeBytes(name);
    if Utf8.Whitespace(name[0]) { WhitespaceBytes(name[0]); }
    if Utf8.Whitespace(name[|name| - 1]) { WhitespaceBytes(name[|name| - 1]); }
  }

  /** An honest node's template: rendered from a header, it announces what the header says. */
  ghost predicate Announces(t: Template, h: HeaderWire.Header, blobId: Bytes -> string)
    requires HeaderWire.WellTyped(h)
  {
    && t.blob == HeaderWire.Encode(h) && t.nonceOffset == |t.blob| - 8 && t.templateId == blobId(t.blob)
    && t.height == h.height && t.timestampMs == h.timestampMs && t.proposer == h.proposer
    && (t.versionBits == None || t.versionBits == Some(h.versionBits)) && (t.bits == None || t.bits == Some(h.bits))
    && Some(t.target) == CompactTarget.Target(h.bits) && Algo(t.powAlgo).Some? && |t.powKey| == 32
  }

  lemma EncodedSize(h: HeaderWire.Header)
    requires HeaderWire.WellTyped(h)
    ensures |HeaderWire.Encode(h)| == HeaderWire.HEAD + |Utf8.Encode(h.proposer)| + HeaderWire.TAIL
  {
    HeaderWire.EncodedFields(h);
  }

  /** Every such template is accepted, whatever the header, as long as its reward account is well-formed. */
  lemma HonestTemplatesAreAccepted(t: Template, h: HeaderWire.Header, blobId: Bytes -> string)
    requires HeaderWire.WellTyped(h) && AccountId.Account(Utf8.Encode(h.proposer)) && Announces(t, h, blobId)
    ensures Acceptable(t, blobId)
  {
    hide HeaderWire.Decode, HeaderWire.Encode, CompactTarget.Target, AccountId.Name, Utf8.Encode, Utf8.Trim;
    AccountIsTrimmed(h.proposer);
    EncodedSize(h);
    HeaderWire.DecodeUndoesEncode(h);
  }

  /** Whatever nonces a worker writes one after the other into its copy of an accepted job's blob, the
      buffer decodes, its header differs from the accepted one in the nonce alone, which is the last one
      written, and so the height, timestamp, reward account and difficulty that were checked hold for every
      blob that is hashed or submitted. */
  lemma EveryHashedBlobKeepsTheCommitment(t: Template, blobId: Bytes -> string, nonces: seq<U64>)
    requires Acceptable(t, blobId) && nonces != []
    ensures var buffer, nonce := HeaderWire.SpliceAll(t.blob, t.nonceOffset, nonces), nonces[|nonces| - 1];
            && buffer == HeaderWire.Splice(t.blob, t.nonceOffset, nonce)
            && HeaderWire.Decode(buffer) == Some(HeaderWire.Decode(t.blob).value.(nonce := nonce))
            && var h := HeaderWire.Decode(buffer).value;
               && h.height == t.height && h.timestampMs == t.timestampMs
               && h.proposer == Utf8.Trim(t.proposer)
               && CompactTarget.Target(h.bits) == Some(t.target)
               && HeaderWire.Encode(h) == buffer
  {
    hide *;
    assert t.nonceOffset + 8 == |t.blob| by { NonceIsLast(t, blobId); }
    HeaderWire.BufferKeepsOnlyTheLastNonce(t.blob, t.nonceOffset, nonces);
    OneNonceKeepsTheCommitment(t, blobId, nonces[|nonces| - 1]);
  }

  lemma NonceIsLast(t: Template, blobId: Bytes -> string)
    requires Acceptable(t, blobId)
    ensures t.nonceOffset + 8 == |t.blob| && HeaderWire.Decode(t.blob).Some?
  {
  }

  lemma OneNonceKeepsTheCommitment(t: Template, blobId: Bytes -> string, nonce: U64)
    requires Acceptable(t, blobId)
    ensures var blob := HeaderWire.Splice(t.blob, t.nonceOffset, nonce);
            && HeaderWire.Decode(blob) == Some(HeaderWire.Decode(t.blob).value.(nonce := nonce))
            && var h := HeaderWire.Decode(blob).value;
               && h.height == t.height && h.timestampMs == t.timestampMs
               && h.proposer == Utf8.Trim(t.proposer)
               && CompactTarget.Target(h.bits) == Some(t.target)
               && HeaderWire.Encode(h) == blob
  {
    hide HeaderWire.Decode, HeaderWire.Encode, HeaderWire.Splice, CompactTarget.Target, AccountId.Account, Utf8.Encode;
    HeaderWire.SpliceChangesOnlyTheNonce(t.blob, nonce);
    HeaderWire.EncodeUndoesDecode(HeaderWire.Splice(t.blob, t.nonceOffset, nonce));
  }

  /** A seal within the target proves work for the difficulty the header itself carries. */
  lemma SealMeetsHeaderDifficulty(t: Template, blobId: Bytes -> string, nonce: U64, digest: Bytes)
    requires Acceptable(t, blobId) && |digest| == 32
    ensures HeaderWire.Decode(HeaderWire.Splice(t.blob, t.nonceOffset, nonce)).Some?
    ensures var bits := HeaderWire.Decode(HeaderWire.Splice(t.blob, t.nonceOffset, nonce)).value.bits;
            LexAtMost(digest, t.target) <==> BeValue(digest) <= CompactTarget.CompactValue(bits)
  {
    hide HeaderWire.Decode, HeaderWire.Splice, AccountId.Account, BeValue, CompactTarget.CompactValue, LexAtMost, CompactTarget.Target;
    OneNonceKeepsTheCommitment(t, blobId, nonce);
    CompactTarget.SealTestIsNumeric(HeaderWire.Decode(t.blob).value.bits, digest);
  }

  // ---------------------------------------------------------------- nonces

  const MAX_WORKERS: nat := 64
  const NONCE_SPACE: nat := 0x1_0000_0000_0000_0000

  /** The `k`-th nonce of a worker on one job: 2^56 per worker, wrapping at 64 bits. */
  function WorkerNonce(worker: nat, k: nat): U64 { (worker * 0x100_0000_0000_0000 + k) % NONCE_SPACE }

  /** A worker begins at its own multiple of 2^56 and counts up from there. */
  lemma NoncesCountUp(worker: nat, k: nat)
    requires worker < MAX_WORKERS
    ensures WorkerNonce(worker, 0) == worker * 0x100_0000_0000_0000
    ensures WorkerNonce(worker, k + 1) == (WorkerNonce(worker, k) + 1) % NONCE_SPACE
  {
  }

  /** Two of the at most 64 workers never hash the same blob within 2^56 attempts each, and neither does one twice. */
  lemma WorkersNeverRepeatABlob(blob: Bytes, offset: nat, v: nat, w: nat, j: nat, k: nat)
    requires offset + 8 <= |blob| && v < MAX_WORKERS && w < MAX_WORKERS
    requires j < 0x100_0000_0000_0000 && k < 0x100_0000_0000_0000 && (v, j) != (w, k)
    ensures HeaderWire.Splice(blob, offset, WorkerNonce(v, j)) != HeaderWire.Splice(blob, offset, WorkerNonce(w, k))
  {
    hide HeaderWire.Splice;
    if HeaderWire.Splice(blob, offset, WorkerNonce(v, j)) == HeaderWire.Splice(blob, offset, WorkerNonce(w, k)) {
      HeaderWire.SpliceIsInjective(blob, offset, WorkerNonce(v, j), WorkerNonce(w, k));
    }
  }
}
