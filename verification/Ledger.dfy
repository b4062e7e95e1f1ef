/** Keys, notes, transactions and hashes.

    Public keys, hashes and signatures are free constructors: two of them are equal exactly when what they were made
    from is, which is the injectivity the real primitives are assumed to have. */
module Ledger {
  type Byte = b: nat | b < 256

  /** 32-byte node identity. */
  type NodeId = id: seq<Byte> | |id| == 32 witness seq(32, _ => 0)

  datatype Ed25519Key = Ed25519Key(seed: NodeId)
  datatype Ed25519PublicKey = Ed25519PublicKey(secret: Ed25519Key)

  /** A ZK secret key, read either from little-endian bytes or from an Ed25519 public key. */
  datatype ZkKey = ZkKey(material: seq<Byte>) | ZkKeyOf(key: Ed25519PublicKey)
  datatype ZkPublicKey = ZkPublicKey(secret: ZkKey)

  /** Little-endian numbers of different widths are the same key when they differ only in leading zeros. */
  function ZkKeyFromBytes(bytes: seq<Byte>): ZkKey
    requires |bytes| <= 32
  {
    ZkKey(bytes + seq(32 - |bytes|, _ => 0))
  }

  datatype Note = Note(value: nat, pk: ZkPublicKey)
  datatype Utxo = Utxo(txHash: TxHash, outputIndex: nat, note: Note)
  datatype NoteId = NoteId(utxo: Utxo)
  datatype LedgerTx = LedgerTx(inputs: seq<NoteId>, outputs: seq<Note>)

  /** Hash of a ledger transaction; `ZeroHash` is the placeholder used before a transaction exists. */
  datatype TxHash = ZeroHash | LedgerHash(tx: LedgerTx)
}
