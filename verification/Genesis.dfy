/** The genesis ledger: which notes it holds, which of them the service declarations lock, who signs what, and the
    two pipelines (topology builder and config-sync server) that must rebuild the same genesis. */
module Genesis {
  import opened Wrappers
  import opened Ledger
  import opened Addresses
  import opened Wallet
  import opened Hosts

  datatype ServiceNote = ServiceNote(pk: ZkPublicKey, sk: ZkKey, note: Note, outputIndex: nat)

  datatype BlendConfig = BlendConfig(signer: Ed25519Key, secretZkKey: ZkKey, listeningAddress: Multiaddr)

  /** A provider of the blend service, the only one declared at genesis. */
  datatype ProviderInfo = ProviderInfo(providerSk: Ed25519Key, zkSk: ZkKey, locator: Multiaddr, note: ServiceNote)

  datatype DeclarationMessage = DeclarationMessage(
    locators: seq<Multiaddr>, providerId: Ed25519PublicKey, zkId: ZkPublicKey, lockedNoteId: NoteId)

  datatype Op = ChannelInscribe | SDPDeclare(declaration: DeclarationMessage)

  datatype MantleTx = MantleTx(ops: seq<Op>, ledgerTx: LedgerTx)
  datatype MantleHash = MantleHash(tx: MantleTx)

  datatype OpProof =
    | NoProof
    | ZkAndEd25519Sigs(zkSigners: seq<ZkKey>, zkMessage: MantleHash, edSigner: Ed25519Key, edMessage: MantleHash)

  datatype GenesisTx = GenesisTx(mantleTx: MantleTx, opsProofs: seq<OpProof>)

  datatype ConsensusConfig = ConsensusConfig(
    leaderSk: ZkKey, genesisTx: GenesisTx, utxos: seq<Utxo>, blendNotes: seq<ServiceNote>,
    walletAccounts: seq<WalletAccount>, fundingSk: ZkKey)

  datatype BuildError = MissingConsensusConfigs | HostConfigLenMismatch | NoteLenMismatch | VectorLenMismatch

  // ----- key material -----

  const LEADER_PREFIX: seq<Byte> := [0x6C, 0x64]    // "ld"
  const BLEND_PREFIX: seq<Byte> := [0x62, 0x6E]     // "bn"
  const SDP_PREFIX: seq<Byte> := [0x73, 0x64, 0x70] // "sdp"

  function DeriveKeyMaterial(prefix: seq<Byte>, id: NodeId): (r: seq<Byte>)
    requires |prefix| <= 16
    ensures |r| == 16
  {
    prefix + id[..16 - |prefix|]
  }

  function NoteKey(prefix: seq<Byte>, id: NodeId): ZkKey
    requires |prefix| <= 16
  {
    ZkKeyFromBytes(DeriveKeyMaterial(prefix, id))
  }

  function LeaderNote(id: NodeId): Note {
    Note(1000, ZkPublicKey(NoteKey(LEADER_PREFIX, id)))
  }

  function ServiceNoteFor(prefix: seq<Byte>, id: NodeId, outputIndex: nat): ServiceNote
    requires |prefix| <= 16
  {
    var sk := NoteKey(prefix, id);
    ServiceNote(ZkPublicKey(sk), sk, Note(1, ZkPublicKey(sk)), outputIndex)
  }

  // ----- the ledger layout, in closed form -----

  /** Output `k` of the genesis ledger transaction. */
  function LedgerNote(ids: seq<NodeId>, wallet: seq<WalletAccount>, k: nat): Note
    requires k < 3 * |ids| + |wallet|
  {
    if k >= 3 * |ids| then Note(wallet[k - 3 * |ids|].value, wallet[k - 3 * |ids|].PublicKey())
    else if k % 3 == 0 then LeaderNote(ids[k / 3])
    else if k % 3 == 1 then ServiceNoteFor(BLEND_PREFIX, ids[k / 3], k).note
    else ServiceNoteFor(SDP_PREFIX, ids[k / 3], k).note
  }

  function GenesisLedger(ids: seq<NodeId>, wallet: seq<WalletAccount>): LedgerTx {
    LedgerTx([], seq(3 * |ids| + |wallet|, k requires 0 <= k < 3 * |ids| + |wallet| => LedgerNote(ids, wallet, k)))
  }

  function BlendNotes(ids: seq<NodeId>): seq<ServiceNote> {
    seq(|ids|, i requires 0 <= i < |ids| => ServiceNoteFor(BLEND_PREFIX, ids[i], 3 * i + 1))
  }

  function SdpNotes(ids: seq<NodeId>): seq<ServiceNote> {
    seq(|ids|, i requires 0 <= i < |ids| => ServiceNoteFor(SDP_PREFIX, ids[i], 3 * i + 2))
  }

  function Notes(utxos: seq<Utxo>): seq<Note> {
    seq(|utxos|, k requires 0 <= k < |utxos| => utxos[k].note)
  }

  // ----- the threaded construction -----

  method PushLeaderUtxo(id: NodeId, leaderKeys: seq<ZkKey>, utxos: seq<Utxo>, outputIndex: nat)
    returns (leaderKeys': seq<ZkKey>, utxos': seq<Utxo>, outputIndex': nat)
    ensures leaderKeys' == leaderKeys + [NoteKey(LEADER_PREFIX, id)]
    ensures utxos' == utxos + [Utxo(ZeroHash, 0, LeaderNote(id))]
    ensures outputIndex' == outputIndex + 1
  {
    var sk := ZkKeyFromBytes(DeriveKeyMaterial(LEADER_PREFIX, id));
    leaderKeys' := leaderKeys + [sk];
    utxos' := utxos + [Utxo(ZeroHash, 0, Note(1000, ZkPublicKey(sk)))];
    outputIndex' := outputIndex + 1;
  }

  method PushServiceNote(prefix: seq<Byte>, id: NodeId, notes: seq<ServiceNote>, utxos: seq<Utxo>, outputIndex: nat)
    returns (notes': seq<ServiceNote>, utxos': seq<Utxo>, outputIndex': nat)
    requires |prefix| <= 16
    ensures notes' == notes + [ServiceNoteFor(prefix, id, outputIndex)]
    ensures utxos' == utxos + [Utxo(ZeroHash, 0, ServiceNoteFor(prefix, id, outputIndex).note)]
    ensures outputIndex' == outputIndex + 1
  {
    var sk := ZkKeyFromBytes(DeriveKeyMaterial(prefix, id));
    var note := Note(1, ZkPublicKey(sk));
    notes' := notes + [ServiceNote(ZkPublicKey(sk), sk, note, outputIndex)];
    utxos' := utxos + [Utxo(ZeroHash, 0, note)];
    outputIndex' := outputIndex + 1;
  }

  /** The index threaded through the three pushes per node is exact: after any number of nodes, every service note
      records the ledger position at which it was pushed. */
  method CreateUtxosForLeaderAndServices(ids: seq<NodeId>)
    returns (leaderKeys: seq<ZkKey>, blendNotes: seq<ServiceNote>, sdpNotes: seq<ServiceNote>, utxos: seq<Utxo>)
    ensures |leaderKeys| == |ids| && forall i :: 0 <= i < |ids| ==> leaderKeys[i] == NoteKey(LEADER_PREFIX, ids[i])
    ensures blendNotes == BlendNotes(ids) && sdpNotes == SdpNotes(ids)
    ensures Notes(utxos) == GenesisLedger(ids, []).outputs
  {
    leaderKeys, blendNotes, sdpNotes, utxos := [], [], [], [];
    var outputIndex := 0;
    for n := 0 to |ids|
      invariant |leaderKeys| == n && forall i :: 0 <= i < n ==> leaderKeys[i] == NoteKey(LEADER_PREFIX, ids[i])
      invariant blendNotes == BlendNotes(ids[..n]) && sdpNotes == SdpNotes(ids[..n])
      invariant Notes(utxos) == GenesisLedger(ids[..n], []).outputs
      invariant outputIndex == 3 * n
    {
      ghost var before := utxos;
      leaderKeys, utxos, outputIndex := PushLeaderUtxo(ids[n], leaderKeys, utxos, outputIndex);
      blendNotes, utxos, outputIndex := PushServiceNote(BLEND_PREFIX, ids[n], blendNotes, utxos, outputIndex);
      sdpNotes, utxos, outputIndex := PushServiceNote(SDP_PREFIX, ids[n], sdpNotes, utxos, outputIndex);
      LedgerGrows(ids, n);
      assert ids[..n + 1][..n] == ids[..n];
    }
    assert ids[..|ids|] == ids;
  }

  lemma LedgerGrows(ids: seq<NodeId>, n: nat)
    requires n < |ids|
    ensures GenesisLedger(ids[..n + 1], []).outputs ==
            GenesisLedger(ids[..n], []).outputs
            + [LeaderNote(ids[n]), ServiceNoteFor(BLEND_PREFIX, ids[n], 3 * n + 1).note,
               ServiceNoteFor(SDP_PREFIX, ids[n], 3 * n + 2).note]
  {
    var longer, shorter := GenesisLedger(ids[..n + 1], []).outputs, GenesisLedger(ids[..n], []).outputs;
    forall k | 0 <= k < 3 * n
      ensures longer[k] == shorter[k]
    {
      assert k / 3 < n;
    }
  }

  method AppendWalletUtxos(utxos: seq<Utxo>, wallet: seq<WalletAccount>) returns (all: seq<Utxo>)
    ensures |all| == |utxos| + |wallet| && utxos <= all
    ensures forall j :: 0 <= j < |wallet| ==> all[|utxos| + j].note == Note(wallet[j].value, wallet[j].PublicKey())
  {
    all := utxos;
    for j := 0 to |wallet|
      invariant |all| == |utxos| + j && utxos <= all
      invariant forall k :: 0 <= k < j ==> all[|utxos| + k].note == Note(wallet[k].value, wallet[k].PublicKey())
    {
      all := all + [Utxo(ZeroHash, 0, Note(wallet[j].value, wallet[j].PublicKey()))];
    }
  }

  /** Configs of a batch before declarations are added. */
  method CreateConsensusConfigs(ids: seq<NodeId>, wallet: seq<WalletAccount>) returns (configs: seq<ConsensusConfig>)
    ensures |configs| == |ids|
    ensures forall i :: 0 <= i < |ids| ==>
              && configs[i].leaderSk == NoteKey(LEADER_PREFIX, ids[i])
              && configs[i].fundingSk == NoteKey(SDP_PREFIX, ids[i])
              && configs[i].genesisTx.mantleTx.ledgerTx == GenesisLedger(ids, wallet)
              && configs[i].blendNotes == BlendNotes(ids)
              && configs[i].walletAccounts == wallet
              && Notes(configs[i].utxos) == GenesisLedger(ids, wallet).outputs
  {
    var leaderKeys, blendNotes, sdpNotes, own := CreateUtxosForLeaderAndServices(ids);
    var utxos := AppendWalletUtxos(own, wallet);
    assert Notes(utxos) == GenesisLedger(ids, wallet).outputs by {
      assert |own| == |Notes(own)| == 3 * |ids|;
      forall k | 0 <= k < 3 * |ids|
        ensures utxos[k].note == LedgerNote(ids, wallet, k)
      {
        assert utxos[k].note == Notes(own)[k] == LedgerNote(ids, [], k);
      }
    }
    var genesisTx := GenesisTx(MantleTx([ChannelInscribe], LedgerTx([], Notes(utxos))), [NoProof]);
    configs := seq(|ids|, i requires 0 <= i < |ids| =>
      ConsensusConfig(leaderKeys[i], genesisTx, utxos, blendNotes, wallet, sdpNotes[i].sk));
  }

  // ----- declarations and proofs -----

  function DeclarationFor(ledgerTx: LedgerTx, provider: ProviderInfo): DeclarationMessage {
    DeclarationMessage(
      [provider.locator], Ed25519PublicKey(provider.providerSk), ZkPublicKey(provider.zkSk),
      NoteId(Utxo(LedgerHash(ledgerTx), provider.note.outputIndex, provider.note.note)))
  }

  function GenesisOps(ledgerTx: LedgerTx, providers: seq<ProviderInfo>): seq<Op> {
    [ChannelInscribe] +
    seq(|providers|, i requires 0 <= i < |providers| => SDPDeclare(DeclarationFor(ledgerTx, providers[i])))
  }

  method BuildGenesisOps(ledgerTx: LedgerTx, providers: seq<ProviderInfo>) returns (ops: seq<Op>)
    ensures ops == GenesisOps(ledgerTx, providers)
  {
    ops := [ChannelInscribe];
    for i := 0 to |providers|
      invariant ops == GenesisOps(ledgerTx, providers)[..1 + i]
    {
      var utxo := Utxo(LedgerHash(ledgerTx), providers[i].note.outputIndex, providers[i].note.note);
      var declaration := DeclarationMessage(
        [providers[i].locator], Ed25519PublicKey(providers[i].providerSk), ZkPublicKey(providers[i].zkSk),
        NoteId(utxo));
      ops := ops + [SDPDeclare(declaration)];
    }
  }

  /** What the ledger checks of one operation: a declaration is signed with the locked note's key and the declared
      zk identity, and with the provider's own key, over the whole transaction. */
  ghost predicate ProofChecks(tx: MantleTx, op: Op, proof: OpProof) {
    match op
    case ChannelInscribe => proof.NoProof?
    case SDPDeclare(d) =>
      && proof.ZkAndEd25519Sigs?
      && proof.zkMessage == proof.edMessage == MantleHash(tx)
      && |proof.zkSigners| == 2
      && ZkPublicKey(proof.zkSigners[0]) == d.lockedNoteId.utxo.note.pk
      && ZkPublicKey(proof.zkSigners[1]) == d.zkId
      && Ed25519PublicKey(proof.edSigner) == d.providerId
  }

  ghost predicate ProofsCheck(genesis: GenesisTx) {
    && |genesis.opsProofs| == |genesis.mantleTx.ops|
    && forall i :: 0 <= i < |genesis.opsProofs| ==>
         ProofChecks(genesis.mantleTx, genesis.mantleTx.ops[i], genesis.opsProofs[i])
  }

  /** Signed with the provider's note key and zk key together, and with its own key. */
  function ProofFor(provider: ProviderInfo, hash: MantleHash): OpProof {
    ZkAndEd25519Sigs([provider.note.sk, provider.zkSk], hash, provider.providerSk, hash)
  }

  method BuildGenesisOpsProofs(hash: MantleHash, providers: seq<ProviderInfo>) returns (proofs: seq<OpProof>)
    ensures |proofs| == 1 + |providers| && proofs[0] == NoProof
    ensures forall i :: 0 <= i < |providers| ==> proofs[i + 1] == ProofFor(providers[i], hash)
  {
    proofs := [NoProof];
    for i := 0 to |providers|
      invariant |proofs| == 1 + i && proofs[0] == NoProof
      invariant forall k :: 0 <= k < i ==> proofs[k + 1] == ProofFor(providers[k], hash)
    {
      var zkSigners := [providers[i].note.sk, providers[i].zkSk];
      proofs := proofs + [ZkAndEd25519Sigs(zkSigners, hash, providers[i].providerSk, hash)];
    }
  }

  /** For providers whose note key opens their note, every proof checks against its own operation. */
  method CreateGenesisTxWithDeclarations(ledgerTx: LedgerTx, providers: seq<ProviderInfo>) returns (genesis: GenesisTx)
    ensures genesis.mantleTx == MantleTx(GenesisOps(ledgerTx, providers), ledgerTx)
    ensures genesis == DeclaredGenesis(ledgerTx, providers)
    ensures (forall p <- providers :: p.note.note.pk == ZkPublicKey(p.note.sk)) ==> ProofsCheck(genesis)
  {
    var ops := BuildGenesisOps(ledgerTx, providers);
    var mantleTx := MantleTx(ops, ledgerTx);
    var opsProofs := BuildGenesisOpsProofs(MantleHash(mantleTx), providers);
    genesis := GenesisTx(mantleTx, opsProofs);
    assert opsProofs == DeclaredGenesis(ledgerTx, providers).opsProofs;
    if forall p <- providers :: p.note.note.pk == ZkPublicKey(p.note.sk) {
      DeclaredProofsCheck(ledgerTx, providers);
    }
  }

  lemma DeclaredProofsCheck(ledgerTx: LedgerTx, providers: seq<ProviderInfo>)
    requires forall p <- providers :: p.note.note.pk == ZkPublicKey(p.note.sk)
    ensures ProofsCheck(DeclaredGenesis(ledgerTx, providers))
  {
    var genesis := DeclaredGenesis(ledgerTx, providers);
    var ops := genesis.mantleTx.ops;
    forall i | 0 <= i < |ops|
      ensures ProofChecks(genesis.mantleTx, ops[i], genesis.opsProofs[i])
    {
      if i > 0 {
        assert providers[i - 1] in providers;
        assert ops[i] == SDPDeclare(DeclarationFor(ledgerTx, providers[i - 1]));
        assert genesis.opsProofs[i] == ProofFor(providers[i - 1], MantleHash(genesis.mantleTx));
      }
    }
  }

  function DeclaredGenesis(ledgerTx: LedgerTx, providers: seq<ProviderInfo>): GenesisTx {
    var tx := MantleTx(GenesisOps(ledgerTx, providers), ledgerTx);
    GenesisTx(tx, [NoProof] + seq(|providers|, i requires 0 <= i < |providers| =>
      ProofFor(providers[i], MantleHash(tx))))
  }

  // ----- the two pipelines -----

  function QuicAddress(ip: Ipv4Addr, port: Port): Multiaddr {
    [Ip4(ip), Udp(port), QuicV1]
  }

  function BlendConfigFor(id: NodeId, port: Port): BlendConfig {
    BlendConfig(Ed25519Key(id), ZkKeyOf(Ed25519PublicKey(Ed25519Key(id))), QuicAddress(LOCALHOST, port))
  }

  /** Pairs ids with ports; surplus elements of the longer list are dropped. */
  function CreateBlendConfigs(ids: seq<NodeId>, ports: seq<Port>): seq<BlendConfig> {
    var n := if |ids| < |ports| then |ids| else |ports|;
    seq(n, i requires 0 <= i < n => BlendConfigFor(ids[i], ports[i]))
  }

  /** Blend config `i` holds the keys of id `i`. */
  ghost predicate BlendKeysOf(blendConfigs: seq<BlendConfig>, ids: seq<NodeId>) {
    forall i :: 0 <= i < |blendConfigs| && i < |ids| ==>
      && blendConfigs[i].signer == Ed25519Key(ids[i])
      && blendConfigs[i].secretZkKey == ZkKeyOf(Ed25519PublicKey(Ed25519Key(ids[i])))
  }

  /** Provider `i` of a batch, reachable at `locator`. */
  function ProviderFor(ids: seq<NodeId>, i: nat, locator: Multiaddr): ProviderInfo
    requires i < |ids|
  {
    ProviderInfo(Ed25519Key(ids[i]), ZkKeyOf(Ed25519PublicKey(Ed25519Key(ids[i]))), locator,
                 ServiceNoteFor(BLEND_PREFIX, ids[i], 3 * i + 1))
  }

  function Providers(ids: seq<NodeId>, locators: seq<Multiaddr>): seq<ProviderInfo>
    requires |locators| == |ids|
  {
    seq(|ids|, i requires 0 <= i < |ids| => ProviderFor(ids, i, locators[i]))
  }

  function PortLocators(ports: seq<Port>): seq<Multiaddr> {
    seq(|ports|, i requires 0 <= i < |ports| => QuicAddress(LOCALHOST, ports[i]))
  }

  function HostLocators(hosts: seq<Host>): seq<Multiaddr> {
    seq(|hosts|, i requires 0 <= i < |hosts| => QuicAddress(hosts[i].ip, hosts[i].blendPort))
  }

  /** The genesis of a batch, given where its providers are reachable. */
  function BatchGenesis(ids: seq<NodeId>, wallet: seq<WalletAccount>, locators: seq<Multiaddr>): GenesisTx
    requires |locators| == |ids|
  {
    DeclaredGenesis(GenesisLedger(ids, wallet), Providers(ids, locators))
  }

  /** Topology builder: provider `i` listens on the address in its own blend config. */
  method CollectProviderInfos(first: ConsensusConfig, blendConfigs: seq<BlendConfig>)
    returns (r: Result<seq<ProviderInfo>, BuildError>)
    ensures r.Ok? <==> |blendConfigs| <= |first.blendNotes|
    ensures r.Ok? ==> |r.value| == |blendConfigs| && forall i :: 0 <= i < |blendConfigs| ==>
              r.value[i] == ProviderInfo(blendConfigs[i].signer, blendConfigs[i].secretZkKey,
                                         blendConfigs[i].listeningAddress, first.blendNotes[i])
  {
    var providers := [];
    for i := 0 to |blendConfigs|
      invariant |providers| == i <= |first.blendNotes|
      invariant forall k :: 0 <= k < i ==>
                  providers[k] == ProviderInfo(blendConfigs[k].signer, blendConfigs[k].secretZkKey,
                                               blendConfigs[k].listeningAddress, first.blendNotes[k])
    {
      if i >= |first.blendNotes| {
        return Err(VectorLenMismatch);
      }
      providers := providers + [ProviderInfo(blendConfigs[i].signer, blendConfigs[i].secretZkKey,
                                             blendConfigs[i].listeningAddress, first.blendNotes[i])];
    }
    return Ok(providers);
  }

  /** Config-sync server: provider `i` is reachable at host `i`'s announced address and blend port. */
  function TryCreateProviders(hosts: seq<Host>, configs: seq<ConsensusConfig>, blendConfigs: seq<BlendConfig>)
    : Result<seq<ProviderInfo>, BuildError>
  {
    if configs == [] then Err(MissingConsensusConfigs)
    else if |hosts| != |blendConfigs| then Err(HostConfigLenMismatch)
    else if |configs[0].blendNotes| < |blendConfigs| then Err(NoteLenMismatch)
    else Ok(seq(|blendConfigs|, i requires 0 <= i < |blendConfigs| =>
      ProviderInfo(blendConfigs[i].signer, blendConfigs[i].secretZkKey,
                   QuicAddress(hosts[i].ip, hosts[i].blendPort), configs[0].blendNotes[i])))
  }

  method ApplyConsensusGenesisTx(configs: seq<ConsensusConfig>, genesisTx: GenesisTx)
    returns (applied: seq<ConsensusConfig>)
    ensures |applied| == |configs|
    ensures forall i :: 0 <= i < |configs| ==> applied[i] == configs[i].(genesisTx := genesisTx)
  {
    applied := configs;
    for i := 0 to |configs|
      invariant |applied| == |configs|
      invariant forall k :: 0 <= k < |configs| ==>
                  applied[k] == if k < i then configs[k].(genesisTx := genesisTx) else configs[k]
    {
      applied := applied[i := applied[i].(genesisTx := genesisTx)];
    }
  }

  /** Node `i` holds the keys of its own notes in the ledger of its genesis: its leader note of 1000 units, output 3i,
      and the note it funds with, output 3i+2. */
  ghost predicate OpensOwnNotes(config: ConsensusConfig, i: nat) {
    var outputs := config.genesisTx.mantleTx.ledgerTx.outputs;
    && 3 * i + 2 < |outputs|
    && outputs[3 * i] == Note(1000, ZkPublicKey(config.leaderSk))
    && outputs[3 * i + 2] == Note(1, ZkPublicKey(config.fundingSk))
  }

  /** Besides its keys, every node is told the same about the batch: what the ledger holds, and the notes to lock. */
  ghost predicate KnowsBatch(config: ConsensusConfig, ids: seq<NodeId>, wallet: seq<WalletAccount>) {
    && Notes(config.utxos) == config.genesisTx.mantleTx.ledgerTx.outputs
    && config.walletAccounts == wallet && config.blendNotes == BlendNotes(ids)
  }

  lemma OwnKeysOpenOwnNotes(config: ConsensusConfig, ids: seq<NodeId>, wallet: seq<WalletAccount>, i: nat)
    requires i < |ids| && config.genesisTx.mantleTx.ledgerTx == GenesisLedger(ids, wallet)
    requires config.leaderSk == NoteKey(LEADER_PREFIX, ids[i]) && config.fundingSk == NoteKey(SDP_PREFIX, ids[i])
    ensures OpensOwnNotes(config, i)
  {
    assert (3 * i) / 3 == i && (3 * i) % 3 == 0 && (3 * i + 2) / 3 == i && (3 * i + 2) % 3 == 2;
  }

  /** The consensus part of the topology builder, after ids and ports were resolved to one per node. */
  method TopologyConsensus(ids: seq<NodeId>, wallet: seq<WalletAccount>, blendPorts: seq<Port>)
    returns (r: Result<seq<ConsensusConfig>, BuildError>)
    requires |blendPorts| == |ids|
    ensures ids != [] <==> r.Ok?
    ensures r.Ok? ==> |r.value| == |ids| && forall i :: 0 <= i < |ids| ==>
                        && r.value[i].genesisTx == BatchGenesis(ids, wallet, PortLocators(blendPorts))
                        && r.value[i].leaderSk == NoteKey(LEADER_PREFIX, ids[i])
                        && r.value[i].fundingSk == NoteKey(SDP_PREFIX, ids[i])
                        && OpensOwnNotes(r.value[i], i) && KnowsBatch(r.value[i], ids, wallet)
  {
    var configs := CreateConsensusConfigs(ids, wallet);
    if configs == [] {
      return Err(MissingConsensusConfigs);
    }
    var blendConfigs := CreateBlendConfigs(ids, blendPorts);
    var providers := CollectProviderInfos(configs[0], blendConfigs);
    assert providers.Ok?;  // one note per blend config
    assert providers.value == Providers(ids, PortLocators(blendPorts));
    var genesisTx := CreateGenesisTxWithDeclarations(configs[0].genesisTx.mantleTx.ledgerTx, providers.value);
    configs := ApplyConsensusGenesisTx(configs, genesisTx);
    forall i | 0 <= i < |ids|
      ensures OpensOwnNotes(configs[i], i)
    {
      OwnKeysOpenOwnNotes(configs[i], ids, wallet, i);
    }
    return Ok(configs);
  }

  /** The consensus part of the config-sync server, for validated inputs. */
  method HostConsensus(ids: seq<NodeId>, wallet: seq<WalletAccount>, blendConfigs: seq<BlendConfig>, hosts: seq<Host>)
    returns (r: Result<seq<ConsensusConfig>, BuildError>)
    requires |blendConfigs| == |ids| == |hosts| && BlendKeysOf(blendConfigs, ids)
    ensures ids != [] <==> r.Ok?
    ensures r.Ok? ==> |r.value| == |ids| && forall i :: 0 <= i < |ids| ==>
                        && r.value[i].genesisTx == BatchGenesis(ids, wallet, HostLocators(hosts))
                        && r.value[i].leaderSk == NoteKey(LEADER_PREFIX, ids[i])
                        && r.value[i].fundingSk == NoteKey(SDP_PREFIX, ids[i])
                        && OpensOwnNotes(r.value[i], i) && KnowsBatch(r.value[i], ids, wallet)
  {
    var configs := CreateConsensusConfigs(ids, wallet);
    var providers := TryCreateProviders(hosts, configs, blendConfigs);
    if providers.Err? {
      return Err(providers.error);
    }
    assert providers.value == Providers(ids, HostLocators(hosts));
    var genesisTx := CreateGenesisTxWithDeclarations(configs[0].genesisTx.mantleTx.ledgerTx, providers.value);
    configs := ApplyConsensusGenesisTx(configs, genesisTx);
    forall i | 0 <= i < |ids|
      ensures OpensOwnNotes(configs[i], i)
    {
      OwnKeysOpenOwnNotes(configs[i], ids, wallet, i);
    }
    return Ok(configs);
  }

  /** A node that joins later gets its own keys but takes the ledger of the batch it joins. */
  method BuildConsensusConfigForNode(id: NodeId, wallet: seq<WalletAccount>, base: ConsensusConfig)
    returns (config: ConsensusConfig)
    ensures config == base.(leaderSk := NoteKey(LEADER_PREFIX, id), fundingSk := NoteKey(SDP_PREFIX, id))
  {
    var configs := CreateConsensusConfigs([id], wallet);
    config := configs[0];
    config := config.(genesisTx := base.genesisTx);
    config := config.(utxos := base.utxos);
    config := config.(blendNotes := base.blendNotes);
    config := config.(walletAccounts := base.walletAccounts);
  }

  // ----- what the genesis guarantees -----

  /** Every declaration locks a note that the ledger transaction really creates. */
  ghost predicate LocksExistingNotes(genesis: GenesisTx) {
    var ops, ledgerTx := genesis.mantleTx.ops, genesis.mantleTx.ledgerTx;
    forall i :: 0 <= i < |ops| && ops[i].SDPDeclare? ==>
      var utxo := ops[i].declaration.lockedNoteId.utxo;
      && utxo.txHash == LedgerHash(ledgerTx)
      && utxo.outputIndex < |ledgerTx.outputs|
      && ledgerTx.outputs[utxo.outputIndex] == utxo.note
  }

  /** No two declarations lock the same note. */
  ghost predicate LocksDistinctNotes(genesis: GenesisTx) {
    var ops := genesis.mantleTx.ops;
    forall i, j :: 0 <= i < j < |ops| && ops[i].SDPDeclare? && ops[j].SDPDeclare? ==>
      ops[i].declaration.lockedNoteId != ops[j].declaration.lockedNoteId
  }

  ghost predicate WellFormed(genesis: GenesisTx) {
    ProofsCheck(genesis) && LocksExistingNotes(genesis) && LocksDistinctNotes(genesis)
  }

  /** For any ids (even repeated ones), wallet and locators, the genesis is well formed: existing notes are locked, no
      two the same, and every proof checks. */
  lemma BatchGenesisWellFormed(ids: seq<NodeId>, wallet: seq<WalletAccount>, locators: seq<Multiaddr>)
    requires |locators| == |ids|
    ensures WellFormed(BatchGenesis(ids, wallet, locators))
  {
    DeclaredProofsCheck(GenesisLedger(ids, wallet), Providers(ids, locators));
    LockedNotesExist(ids, wallet, locators);
    LockedNotesDistinct(ids, wallet, locators);
  }

  lemma LockedNotesExist(ids: seq<NodeId>, wallet: seq<WalletAccount>, locators: seq<Multiaddr>)
    requires |locators| == |ids|
    ensures LocksExistingNotes(BatchGenesis(ids, wallet, locators))
  {
    var ops := BatchGenesis(ids, wallet, locators).mantleTx.ops;
    forall i | 0 <= i < |ops| && ops[i].SDPDeclare?
      ensures LocksNote(ids, wallet, ops[i].declaration.lockedNoteId.utxo, i - 1)
    {
      DeclarationLocksNote(ids, wallet, locators, i - 1);
    }
  }

  lemma LockedNotesDistinct(ids: seq<NodeId>, wallet: seq<WalletAccount>, locators: seq<Multiaddr>)
    requires |locators| == |ids|
    ensures LocksDistinctNotes(BatchGenesis(ids, wallet, locators))
  {
    var ops := BatchGenesis(ids, wallet, locators).mantleTx.ops;
    forall i, j | 0 <= i < j < |ops| && ops[i].SDPDeclare? && ops[j].SDPDeclare?
      ensures ops[i].declaration.lockedNoteId != ops[j].declaration.lockedNoteId
    {
      DeclarationLocksNote(ids, wallet, locators, i - 1);
      DeclarationLocksNote(ids, wallet, locators, j - 1);
    }
  }

  ghost predicate LocksNote(ids: seq<NodeId>, wallet: seq<WalletAccount>, utxo: Utxo, i: int) {
    var outputs := GenesisLedger(ids, wallet).outputs;
    && 0 <= i < |ids| && utxo.outputIndex == 3 * i + 1 < |outputs|
    && utxo.txHash == LedgerHash(GenesisLedger(ids, wallet)) && outputs[utxo.outputIndex] == utxo.note
  }

  /** Operation i+1 is the declaration of node `i`, and locks that node's blend note, which is ledger output 3i+1. */
  lemma DeclarationLocksNote(ids: seq<NodeId>, wallet: seq<WalletAccount>, locators: seq<Multiaddr>, i: nat)
    requires |locators| == |ids| && i < |ids|
    ensures var ops := BatchGenesis(ids, wallet, locators).mantleTx.ops;
            && |ops| == |ids| + 1 && ops[i + 1].SDPDeclare?
            && ops[i + 1].declaration.providerId == Ed25519PublicKey(Ed25519Key(ids[i]))
            && LocksNote(ids, wallet, ops[i + 1].declaration.lockedNoteId.utxo, i)
  {
    assert (3 * i + 1) / 3 == i && (3 * i + 1) % 3 == 1;
  }

  /** What the deployers compare of a declaration: everything but the locators. */
  function Fingerprint(op: Op): Op {
    match op
    case ChannelInscribe => op
    case SDPDeclare(d) => SDPDeclare(d.(locators := []))
  }

  function Fingerprints(ops: seq<Op>): seq<Op> {
    seq(|ops|, i requires 0 <= i < |ops| => Fingerprint(ops[i]))
  }

  /** Both pipelines build the same ledger transaction and the same declarations up to locators, for every host
      address and port. The whole transactions are equal exactly when every host announces the local address and the
      blend port of its node. */
  lemma PipelinesAgree(ids: seq<NodeId>, wallet: seq<WalletAccount>, ports: seq<Port>, hosts: seq<Host>)
    requires |ports| == |hosts| == |ids|
    ensures var topology := BatchGenesis(ids, wallet, PortLocators(ports));
            var cfgsync := BatchGenesis(ids, wallet, HostLocators(hosts));
            && topology.mantleTx.ledgerTx == cfgsync.mantleTx.ledgerTx
            && Fingerprints(topology.mantleTx.ops) == Fingerprints(cfgsync.mantleTx.ops)
            && (topology == cfgsync <==>
                forall i :: 0 <= i < |ids| ==> hosts[i].ip == LOCALHOST && hosts[i].blendPort == ports[i])
  {
    var topology := BatchGenesis(ids, wallet, PortLocators(ports));
    var cfgsync := BatchGenesis(ids, wallet, HostLocators(hosts));
    if topology == cfgsync {
      forall i | 0 <= i < |ids|
        ensures hosts[i].ip == LOCALHOST && hosts[i].blendPort == ports[i]
      {
        var a := topology.mantleTx.ops[i + 1].declaration.locators[0];
        var b := cfgsync.mantleTx.ops[i + 1].declaration.locators[0];
        assert a == QuicAddress(LOCALHOST, ports[i]) && b == QuicAddress(hosts[i].ip, hosts[i].blendPort);
        assert a[0] == b[0] && a[1] == b[1];
      }
    }
    if forall i :: 0 <= i < |ids| ==> hosts[i].ip == LOCALHOST && hosts[i].blendPort == ports[i] {
      assert PortLocators(ports) == HostLocators(hosts);
    }
  }

  /** Keys of different roles never coincide, whatever the ids, and none is a wallet key: the prefixes differ in their
      first byte. */
  lemma RolesNeverShareKeys(a: NodeId, b: NodeId, c: NodeId, index: nat, value: nat)
    requires value > 0
    ensures var leader, blend, sdp := NoteKey(LEADER_PREFIX, a), NoteKey(BLEND_PREFIX, b), NoteKey(SDP_PREFIX, c);
            var wallet := Deterministic(index, value).secretKey;
            leader != blend && leader != sdp && blend != sdp && wallet !in {leader, blend, sdp}
  {
    assert NoteKey(LEADER_PREFIX, a).material[0] == 0x6C && NoteKey(BLEND_PREFIX, b).material[0] == 0x62;
    assert NoteKey(SDP_PREFIX, c).material[0] == 0x73 && Deterministic(index, value).secretKey.material[0] == 0x77;
  }

  /** Key material keeps only the first 14 bytes of an id, so two nodes get the same leader or blend note exactly when
      those bytes agree. Their declarations still lock different notes, because the position is part of a note's id. */
  lemma NotesCollideIff(a: NodeId, b: NodeId)
    ensures LeaderNote(a) == LeaderNote(b) <==> a[..14] == b[..14]
    ensures ServiceNoteFor(BLEND_PREFIX, a, 0).note == ServiceNoteFor(BLEND_PREFIX, b, 0).note <==> a[..14] == b[..14]
  {
    KeysCollideIff(LEADER_PREFIX, a, b);
    KeysCollideIff(BLEND_PREFIX, a, b);
  }

  lemma KeysCollideIff(prefix: seq<Byte>, a: NodeId, b: NodeId)
    requires |prefix| <= 16
    ensures NoteKey(prefix, a) == NoteKey(prefix, b) <==> a[..16 - |prefix|] == b[..16 - |prefix|]
  {
    assert NoteKey(prefix, a).material[|prefix|..16] == a[..16 - |prefix|];
    assert NoteKey(prefix, b).material[|prefix|..16] == b[..16 - |prefix|];
  }

  /** A late joiner's leader note exists in the batch's genesis exactly when some node of the batch has the same first
      14 id bytes, or a wallet account happens to be that very note. */
  lemma JoinerHasLeaderNoteIff(ids: seq<NodeId>, wallet: seq<WalletAccount>, id: NodeId)
    ensures LeaderNote(id) in GenesisLedger(ids, wallet).outputs <==>
            || (exists i :: 0 <= i < |ids| && ids[i][..14] == id[..14])
            || (exists account <- wallet :: Note(account.value, account.PublicKey()) == LeaderNote(id))
  {
    var outputs := GenesisLedger(ids, wallet).outputs;
    if LeaderNote(id) in outputs {
      var k :| 0 <= k < |outputs| && outputs[k] == LeaderNote(id);
      if k >= 3 * |ids| {
        assert wallet[k - 3 * |ids|] in wallet;
      } else {
        NotesCollideIff(ids[k / 3], id);
      }
    }
    if i :| 0 <= i < |ids| && ids[i][..14] == id[..14] {
      NotesCollideIff(ids[i], id);
      assert (3 * i) / 3 == i && (3 * i) % 3 == 0;
      assert outputs[3 * i] == LeaderNote(ids[i]);
    }
    if account :| account in wallet && Note(account.value, account.PublicKey()) == LeaderNote(id) {
      var j :| 0 <= j < |wallet| && wallet[j] == account;
      assert outputs[3 * |ids| + j] == LeaderNote(id);
    }
  }
}
