/** Bundles as clients submit them. */
module Bundles {
  import opened Bytes

  datatype Option<+T> = None | Some(value: T)

  /** Hashes and addresses are numbers here; only the all-zero hash is singled out. */
  type Hash = nat
  type Address = nat

  type Raw = seq<byte>

  /** A decoded transaction. */
  datatype Tx = Tx(nonce: nat, to: Option<Address>, data: Raw, gasTipCap: nat, payload: Raw)

  /** What the node takes from the Ethereum libraries. */
  datatype Env = Env(decode: Raw -> Option<Tx>, txHash: Tx -> Hash, keccak: seq<Hash> -> Hash)

  /** A set of hints, one bit each. */
  type HintIntent = bv8

  const HintContractAddress: HintIntent := 1
  const HintFunctionSelector: HintIntent := 2
  const HintLogs: HintIntent := 4
  const HintCallData: HintIntent := 8
  const HintHash: HintIntent := 16
  const HintSpecialLogs: HintIntent := 32
  const HintTxHash: HintIntent := 64
  const HintNone: HintIntent := 0

  predicate HasHint(hints: HintIntent, flag: HintIntent) {
    hints & flag != 0
  }

  function SetHint(hints: HintIntent, flag: HintIntent): HintIntent {
    hints | flag
  }

  const RevertModeAllow: string := "allow"
  const RevertModeDrop: string := "drop"
  const RevertModeFail: string := "fail"

  /** Included blocks `block` to `max`; a max of zero is not set. */
  datatype Inclusion = Inclusion(block: nat, max: nat)

  datatype RefundConstraint = RefundConstraint(bodyIdx: int, percent: int)

  datatype RefundConfig = RefundConfig(address: Address, percent: int)

  datatype Validity = Validity(refund: seq<RefundConstraint>, refundConfig: seq<RefundConfig>)

  datatype Privacy = Privacy(hints: HintIntent, builders: seq<string>, wantRefund: Option<int>)

  datatype Metadata = Metadata(
    bundleHash: Hash,
    bodyHashes: seq<Hash>,
    signer: Address,
    originId: string,
    receivedAt: nat,
    matchingHash: Hash,
    prematched: bool,
    replacementNonce: nat,
    cancelled: bool)

  /** A body element; clients are expected to set one of hash, tx and bundle. */
  datatype Element = Element(hash: Option<Hash>, tx: Option<Raw>, bundle: Option<Bundle>, canRevert: bool, revertMode: string)

  datatype Bundle = Bundle(
    version: string,
    replacementUuid: string,
    inclusion: Inclusion,
    body: seq<Element>,
    validity: Validity,
    privacy: Option<Privacy>,
    metadata: Option<Metadata>)

  /** The bundle may be matched by its hash. */
  predicate SharesHash(b: Bundle) {
    b.privacy.Some? && b.privacy.value.hints & 16 != 0
  }

  /** How the node's if-chains treat an element. */
  datatype Kind = IsHash | IsTx | IsBundle | IsEmpty

  function KindOf(el: Element): Kind {
    if el.hash.Some? then IsHash
    else if el.tx.Some? then IsTx
    else if el.bundle.Some? then IsBundle
    else IsEmpty
  }
}
