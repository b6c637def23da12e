# A verified model of a tamper-evident decision ledger

The repository records AI decisions as canonically encoded, hashed, chained and
signed proofs, keeps them in an append-only ledger, exports them as packages and
Merkle batches, and re-checks them with several independent verifiers. This
project models that logic in Dafny and proves what it is for.

The layers, bottom up:

- `prelude.dfy`, `sorting.dfy`, `text.dfy`, `tables.dfy`: digests, stable sorting,
  UTF-8, hexadecimal and decimal text, SQL-style filtering.
- `json.dfy`, `canonical.dfy`: the canonical JSON encoder (section 7 of RFC 8259)
  with a parser as its left inverse, the hash payload and the proof id.
- `chain.dfy`, `chainedlog.dfy`: one theory of hash-chained tables, used three times,
  in `auditlog.dfy`, `keyregistry.dfy` and `anchor.dfy`.
- `merkle.dfy`, `auditbatch.dfy`, `batchexport.dfy`: Merkle trees, inclusion proofs,
  batches, and batches exported from the ledger.
- `proof.dfy`, `verifier.dfy`: proofs, the chain verifier, the package verifier and
  the offline verifier.
- `storage.dfy`, `engine.dfy`, `writers.dfy`: the append rules, `record_decision` as
  one call, and the same split into steps that any number of writers interleave, with a
  proof that every interleaving is a sequence of calls.
- `protocol.dfy`, `legacy.dfy`, `replay.dfy`: protocol documents, the legacy engine
  that walks them, and the verifier that replays them.
- `strictseed.dfy`, `failoverengine.dfy`: what the engine records for strict requests with
  a seed, and when it signs through the failover signer.
- `ratelimit.dfy`, `webhook.dfy`, `failover.dfy`: the sliding-window limiter, the
  evicting nonce store and the failover signer.

How the foreign parts enter:

- SHA-256 is an arbitrary function from byte strings to 32-byte digests. Nothing
  assumes that it is injective. A binding theorem says: the two inputs agree, or one
  of the strings hashed by the first computation and one of those hashed by the
  second are different and have the same digest (`Collides`), or one of them hashes
  to the genesis value (`HitsGenesis`). The strings are named, so the claim is about
  the data at hand and not about the existence of some collision somewhere.
- Ed25519 is an arbitrary predicate for verification and, for signers, the one law
  that what a signer signs verifies under its public key (section 5.1 of RFC 8032).
- `Env`, `Guard` and `ReplayEnv` bundle what the code calls and does not define: the
  hash, signature verification, `int(s, 16)`, `str.strip`, HMAC, JSON parsing of a
  webhook body, and the serialisers. Theorems that need a serialiser to be canonical
  say so (`CanonicalPayload`, `PlainExtends`, `PlainOmitsHash`, `CanonicalLedger`,
  `CanonicalReplay`) and the canonical
  one is defined and proved injective in `proof.dfy`, `verifier.dfy` and `replay.dfy`.
- Clock readings, random identifiers, approval tables and the answers of external
  services are parameters.

Where the code departs from what it promises, the model follows the code, and lemmas
give the condition under which the promise holds and an input on which it fails:

- A seed supplied in strict mode is recorded by the engine exactly as the same request
  without it, and refused by the verifier (`SeedIsRecordedAlike`, `SoundChainVerifies`,
  `SeededRunIsRefused`).
- The audit leaf is documented to be unambiguous. It joins its fields by bars and renders
  absent and empty fields alike; it is unambiguous exactly for entries with no bar in a
  free-text field and with instance id and failure code neither absent nor empty
  (`LeafUnambiguousIff`), or, among entries without empty optional texts, exactly for
  those with no bar (`RegularLeafUnambiguousIff`).
- The Merkle root does not fix the number of ids: it fixes the list up to padding
  (`SameRootIffSameTree`; `DuplicateOfLargestKeepsRoot` is one family).
- `rotate_key` back to an id already used makes `get_active` and `was_active_at`
  disagree; they agree exactly for a new id (`RotationAgreesIffFresh`).
- Tenant isolation of an instance id is checked by a query before the insert and by no
  constraint. A run keeps it exactly if no insert finds its instance owned elsewhere by
  then (`EveryInterleavingIsolatedIff`); it is enough that every instance id is submitted
  under one tenant (`OneOwnerKeepsIsolation`), and two racing callers break it
  (`RaceBreaksIsolation`).
- The offline verifier does not check that the first proof hangs from genesis, and the
  package and offline verifiers hash without the type checks of the canonical encoder
  (`ExactGaps`, `OfflineAcceptsUnrooted`, `PackageAcceptsUncanonical`).
- The standalone batch verifier skips proofs without a stored id, and exports store none:
  it accepts exactly the empty ones, and of other batches those whose carried ids pad out
  to the same tree (`StandaloneAcceptsOnlyEmptyExports`, `TwinsAgreeIffSameTree`).
- Freezing a legacy instance before its first transition has no effect, because its
  instance row does not exist yet (`FreezeTakesEffectIffMoved`).
- A webhook whose timestamp lies exactly one tolerance ahead can be repeated two
  tolerances later (`RepetitionPassesIff`).
- The engine asks the failover signer for the signature, the key id and the public key in
  three calls. A recorded proof checks exactly if the key that signed is still in use when
  the public key is read (`SignatureChecksIff`, `EveryRunVerifiesIff`). That fails when
  the primary fails over below the threshold (`LargerThresholdRunRefused`), and for every
  threshold when another thread switches keys in between (`FailbackRunRefused`); it is
  enough that neither happens (`SteadyRunVerifies`, `ThresholdOneIsSteady`).
- `register_or_update` promises that the given key is in force afterwards; a retired id is
  left retired (`UpdateReachesKeyIff`).
- An export freezes the instance, and `record_decision` never looks at the flag
  (`FrozenInstanceStillGrows`).

## Model

| member | source | states |
|---|---|---|
| Json.ParsePrint | provable_ai/canonical.py:143-165 | a parser undoes the printer on every accepted value, whatever text follows, with and without ASCII escaping |
| Json.LoadsDumps | provable_ai/canonical.py:143-165 | reading back canonical text gives the value with its keys sorted at every depth |
| Json.DumpsEqualIffSame | provable_ai/canonical.py:143-165 | two accepted values have the same text if and only if they are the same value up to dictionary insertion order at any depth |
| Json.StoredValueReadsBack | provable_ai/storage.py:36-44 | what is read back from stored JSON is the stored value up to key order |
| Canonical.CanonicalEncodeInjective | provable_ai/canonical.py:57-165 | two values encode to the same bytes if and only if both are accepted and they are the same up to key order |
| Canonical.LookalikesStayDistinct | provable_ai/canonical.py:57-93 | `true`, `1`, `"1"`, `null` and a missing key give different encodings of the same record |
| Canonical.ValidateHashPayload | provable_ai/canonical.py:96-138 | raises nothing exactly for dictionaries whose keys are the six hashed fields and whose values are canonical-safe |
| Canonical.ProofIdBinding | provable_ai/canonical.py:253-278 | equal proof ids mean equal hash and sequence id, or a collision |
| TextEncoding.Utf8Injective | provable_ai/canonical.py:165 | UTF-8 determines the text |
| TextEncoding.HexRoundTrip | provable_ai/audit_batch.py:90-92 | `bytes.fromhex` undoes `hexdigest` |
| HashChain.ChainBinding | provable_ai/audit_log.py:98-101 | two chains with the same tip have the same row contents, whatever their lengths, or exhibit a collision or a preimage of genesis |
| HashChain.IntactAppend | provable_ai/audit_log.py:281-300 | appending a row hashed over the current tip keeps the chain intact |
| HashChain.WalkChain | provable_ai/audit_log.py:340-382 | accepts exactly the intact chains; otherwise names the first row such that the rows before it are intact and the rows up to it are not |
| ChainedLog.InsertKeepsAll | provable_ai/audit_log.py:281-317 | one insert keeps every tenant's chain intact and numbered 1..n, and the new row carries the next number and the tip it was built on |
| ChainedLog.RunKeepsChains | provable_ai/audit_log.py:227-317 | any sequence of inserts interleaved across tenants only appends and keeps every tenant's chain |
| ChainedLog.BlockIsStable | provable_ai/audit_log.py:384-430 | the state at block k is the fold over the first k rows and no later insert changes it |
| ChainedLog.LogBinding | provable_ai/audit_log.py:321-382 | two accepted tables with the same final hash agree on the hashed content of every row, or the hash is broken on their data |
| ChainedLog.VerdictUnique | provable_ai/audit_log.py:340-382 | the verdict, including the row reported, is determined by the rows |
| AuditLog.RowContentInjective | provable_ai/audit_log.py:70-95 | the serialised row determines all thirteen hashed fields |
| AuditLog.EveryRunIsChained | provable_ai/audit_log.py:227-317 | after any run of `record` calls every tenant's chain is intact and numbered 1..n, and no call was lost |
| AuditLog.BlockSettled | provable_ai/audit_log.py:384-430 | `verify_chain_at_block(k)` returns the fold of the first k rows, unchanged by any later calls |
| AuditLog.AuditBinding | provable_ai/audit_log.py:321-382 | two accepted audit chains with the same final hash hold the same entries, or a collision or genesis preimage is exhibited |
| AuditLog.VerificationAuditLog.Record | provable_ai/audit_log.py:227-317 | appends one row that says what the event says, with the next number of its tenant, and keeps every tenant's chain |
| AuditLog.VerificationAuditLog.VerifyChain | provable_ai/audit_log.py:321-382 | valid exactly when the tenant's chain is intact, otherwise the id of the first row whose prefix is not intact |
| AuditLog.VerificationAuditLog.VerifyChainAtBlock | provable_ai/audit_log.py:384-430 | valid exactly when the rows up to the number are an intact chain, and then their final hash; otherwise the number of the first row whose prefix is not intact |
| KeyRegistry.RowContentInjective | provable_ai/audit_keyregistry.py:134-146 | the serialised row determines all ten hashed fields |
| KeyRegistry.ActiveIffReigns | provable_ai/audit_keyregistry.py:336-368 | in a sound history `was_active_at` holds of a key exactly from its own start until its successor's |
| KeyRegistry.ExactlyOneKeyActive | provable_ai/audit_keyregistry.py:320-368 | in a sound history, at every time from the first registration on exactly one key was active, and from the last on it is the one `get_active` returns |
| KeyRegistry.OperationsAppend | provable_ai/audit_keyregistry.py:192-318 | `register_key` refuses exactly an unknown key while another is active; registering a known key appends nothing; otherwise the key starts with the data given, after the retirement of the current key with its own data if there is one |
| KeyRegistry.OpKeepsHistory | provable_ai/audit_keyregistry.py:192-318 | each operation at a later time keeps every tenant's history sound; only `rotate_key` needs the id to be new |
| KeyRegistry.EveryRunPartitionsTime | provable_ai/audit_keyregistry.py:192-368 | after every run with a nondecreasing clock and new ids in rotations, the keys of each tenant partition time from its first registration on |
| KeyRegistry.RotationAgreesIffFresh | provable_ai/audit_keyregistry.py:275-368 | after a rotation `get_active` returns the new id, and `was_active_at` agrees at that moment if and only if the id was new |
| KeyRegistry.UpdateReachesKeyIff | provable_ai/audit_keyregistry.py:233-273 | with a key in force, after `register_or_update` the given key is in force if and only if it was new or already current |
| KeyRegistry.KeyHistoryBinding | provable_ai/audit_keyregistry.py:370-400 | two accepted key histories with the same final hash are the same, or a collision or genesis preimage is exhibited |
| KeyRegistry.KeyStore.InsertRow | provable_ai/audit_keyregistry.py:160-188 | appends the entry, changes no earlier row, and keeps every tenant's chain intact |
| KeyRegistry.KeyStore.Apply | provable_ai/audit_keyregistry.py:192-318 | appends exactly the entries the operation calls for or refuses and appends none, keeping every chain intact |
| KeyRegistry.KeyStore.VerifyChain | provable_ai/audit_keyregistry.py:370-400 | valid exactly when the tenant's chain is intact, otherwise the first bad row |
| AnchorStore.EveryRunIsChained | provable_ai/audit_anchor.py:359-458 | any run of `anchor` calls, refused ids included, only appends and keeps every tenant's chain intact and numbered |
| AnchorStore.AnchorBinding | provable_ai/audit_anchor.py:460-491 | two accepted anchor chains with the same final hash agree on the six hashed fields of every anchor, or the hash is broken on their data |
| AnchorStore.AuditAnchorStore.AnchorHash | provable_ai/audit_anchor.py:359-458 | appends one anchor with the tenant's next number, or refuses a used id and changes nothing |
| AnchorStore.Backends | provable_ai/audit_anchor.py:359-458 | the stored backends are sorted, without repetition, and name the timestamp authority and S3 exactly when they succeeded |
| AnchorStore.AuditAnchorStore.VerifyAnchorChain | provable_ai/audit_anchor.py:460-491 | valid exactly when the tenant's anchors are an intact chain, otherwise the first bad row |
| AnchorStore.VerifyAnchorChainStandalone | verify/verify_anchor.py:152-220 | refuses a missing database and otherwise reaches the store's verdict, with the final hash of a valid chain |
| Merkle.BuildMerkleTree | provable_ai/audit_batch.py:50-96 | the root is the recursive root of the sorted leaf hashes; there are height + 1 levels; every inner stored level is the padded parent level of the one below, because the stored list is the one padded in place, while the leaves stay unpadded |
| Merkle.RootIgnoresOrder | provable_ai/audit_batch.py:50-102 | every permutation of the ids has the same root |
| Merkle.MerkleBinding | provable_ai/audit_batch.py:50-102 | equally many ids with the same root are the same multiset, or the two trees exhibit a collision |
| Merkle.SameRootIffSameTree | provable_ai/audit_batch.py:50-102 | two lists of any lengths have the same root if and only if they pad out to the same tree, unless two hashed strings collide or the text of an id is a pair of nodes of the other tree |
| Merkle.SameTreeSameRoot | provable_ai/audit_batch.py:73-94 | lists that pad out to the same tree hold the same ids and have the same root for every hash function |
| Merkle.GenesisRootIsEmpty | provable_ai/audit_batch.py:57-66 | only the empty list has the genesis root, unless a string of the tree hashes to it |
| Merkle.DuplicateOfLargestKeepsRoot | provable_ai/audit_batch.py:73-94 | why binding needs the count: repeating the largest id of an odd list keeps the root for every hash function |
| Merkle.ClimbFromMember | provable_ai/audit_batch.py:256-282 | if a path of tree height with 32-byte siblings rebuilds the root from a 32-byte value, that value is one of the leaves, or a collision is exhibited |
| Merkle.AcceptedProofHasMember | provable_ai/audit_batch.py:239-301 | the same for the verifier on hexadecimal proofs |
| Merkle.PathRebuildsRoot | provable_ai/audit_batch.py:162-236 | the sibling path of every position rebuilds the root, for every hash function |
| Merkle.HeightBounds | provable_ai/audit_batch.py:190-217 | a path of length k over n leaves satisfies 2^(k-1) < n <= 2^k |
| Merkle.VerifyInclusionProof | provable_ai/audit_batch.py:239-301 | accepts exactly when the path rebuilds the claimed root, which equals the signed root if there is one and carries a good signature if there is one |
| Merkle.WalkUp | provable_ai/audit_batch.py:190-217 | the loop collects the sibling path of the position and ends in the root |
| Merkle.ComputeInclusionProof | provable_ai/audit_batch.py:162-236 | gives a proof exactly for the members; its path has tree height and rebuilds the root of the ids |
| Merkle.ProveAndVerify | provable_ai/audit_batch.py:162-301 | the computed proof of every member is accepted, alone or bound to a batch with that root and a good signature |
| AuditBatch.LeafUnambiguousIff | provable_ai/audit_log.py:104-122 | no entry in another audit state, all six fields compared as they are, has the same leaf, if and only if the free-text fields hold no separator and instance id and failure code are neither absent nor empty |
| AuditBatch.IndefiniteGivesTwin | provable_ai/audit_log.py:104-122 | an entry whose instance id or failure code is absent or empty shares its leaf with the entry in which that field is empty or absent |
| AuditBatch.RegularLeafUnambiguousIff | provable_ai/audit_log.py:104-122 | among entries that hold no empty optional text, the leaf is unambiguous if and only if the free-text fields hold no separator |
| AuditBatch.EntriesRootIgnoresOrder | provable_ai/audit_batch.py:105-124 | reordering the audit entries keeps the root, even with ties in the sort key |
| AuditBatch.EntriesRootBinding | provable_ai/audit_batch.py:105-124 | equally many entries with the same root have the same multiset of leaves, or a collision is exhibited |
| AuditBatch.VerifyBatchSignature | provable_ai/audit_batch.py:392-465 | accepts exactly when the root over the stored or derived ids is the claimed one and its signature verifies |
| AuditBatch.VerifyBatch | verify/verify_batch.py:129-184 | accepts exactly when the root over the carried ids is the claimed one and a signature is there and verifies |
| AuditBatch.VerifyProofInBatch | verify/verify_batch.py:187-242 | accepts exactly when the batch carries the id, its root is the root of its ids, and the signature, if present, is good |
| AuditBatch.AcceptedBatchHasItsIds | verify/verify_batch.py:129-242 | in an accepted batch exactly the carried ids are accepted one by one |
| AuditBatch.BatchBinding | provable_ai/audit_batch.py:392-465 | two accepted batches of one size and root list the same ids, or a collision is exhibited |
| AuditBatch.TwinsAgreeOnCarriedIds | verify/verify_batch.py:129-184 | on batches whose proofs all carry ids the server's and the standalone verifier agree |
| BatchExport.SelectedRows | provable_ai/audit_batch.py:468-504 | an export selects exactly the tenant's rows in the date range |
| BatchExport.BuildBatchExport | provable_ai/audit_batch.py:312-389 | builds the batch of the selected proofs under the signed root of their derived ids, unless the signer raises |
| BatchExport.ServerAcceptsExport | provable_ai/audit_batch.py:312-465 | the server's verifier accepts every export |
| BatchExport.StandaloneAcceptsOnlyEmptyExports | verify/verify_batch.py:129-184 | the standalone verifier accepts an export if and only if its selection is empty, or the export's own tree exhibits a preimage of genesis |
| BatchExport.TwinsAgreeIff | verify/verify_batch.py:129-184 | on any batch that the server accepts, with key and signature, the standalone verifier accepts if and only if the carried ids have the root of all ids |
| BatchExport.TwinsAgreeIffSameTree | verify/verify_batch.py:129-184 | in terms of the ids: if and only if the carried ids pad out to the same tree as all ids, unless the hash is broken on them |
| BatchExport.LeftOutIdIsRepeated | verify/verify_batch.py:146-153 | when both verifiers accept, the id of every proof left out is carried by another, or the hash is broken on the ids |
| ProofModel.PayloadBytesBind | provable_ai/canonical.py:187-219 | equal payload bytes mean equal decision, context, governance, determinism, link and position |
| Verifier.VerifyChain | provable_ai/verifier.py:278-365 | valid exactly when every proof passes its check at its place; otherwise the reason is that of the first one refused and the state is that of the proofs before it |
| Verifier.ChainBinding | provable_ai/verifier.py:98-108 | two accepted chains with the same final hash have the same length and the same six hashed fields at every position, or two payloads collide |
| Verifier.VerifyPackage | verify/verify_package.py:133-258 | accepts exactly the packages with the right type, a non-empty ledger, matching package hash, rehashed and genesis-linked proofs, and a signed root |
| Verifier.VerifyOffline | tools/offline_verify.py:36-106 | accepts exactly the packages whose package hash, hashes, inner links, root and signature are right where present |
| Verifier.VerifierOrdering | tools/offline_verify.py:79-90 | acceptance by `verify_chain` implies the package verifier's chain check, which implies the offline one |
| Verifier.ExactGaps | verify/verify_package.py:189-219 | the package check is the offline check plus a genesis-rooted first link, and the chain verifier's is the package check plus canonical-safe payload, schema, signature, position and determinism |
| Verifier.OfflineAcceptsUnrooted | tools/offline_verify.py:79-90 | for every proof that serialises and every other first link there is a one-proof chain that the offline check accepts and the package check refuses |
| Verifier.PackageAcceptsUncanonical | verify/verify_package.py:57-74 | metadata that plain JSON can write and the canonical encoder refuses, such as a float, passes the package and offline chain checks and not `verify_chain` |
| Verifier.InstanceRootBinding | verify/verify_package.py:77-82 | the instance root fixes the number of proofs and all their hashes, or the two root inputs collide |
| Verifier.PackageHashBinding | verify/verify_package.py:85-92 | a matching package hash fixes the whole exported ledger up to key order, for canonical-safe ledgers, or the two serialisations collide |
| Verifier.StoredProofReadsBack | provable_ai/storage.py:36-44 | a stored proof reads back as the same proof up to key order |
| Verifier.SystemRootIgnoresOrder | provable_ai/verifier.py:513-532 | the order of the instances does not change the system root |
| Verifier.SystemRootBinding | provable_ai/verifier.py:513-532 | the system root fixes the collection of latest hashes, or a collision or genesis preimage is exhibited |
| Storage.ExpectedNext | provable_ai/storage.py:365-405 | on a linked chain the sorted query returns insertion order and the next position and link follow the last inserted row |
| Storage.InsertableIsNext | provable_ai/storage.py:261-268 | a row whose position was free at some earlier time passes the unique index only if that position is still the next one |
| Storage.SQLiteStorage.AppendLedgerEntry | provable_ai/storage.py:407-488 | appends exactly the row of the proof, or reports an error and changes nothing |
| Storage.SQLiteStorage.FreezeInstance | provable_ai/storage.py:684-690 | freezes exactly the named instance if it has a row, thaws nothing, adds, removes and moves no row, and leaves the ledger alone |
| Storage.FreezeIsExact | provable_ai/storage.py:676-690 | freezing freezes the named instance if it has a row and no other, and adds or removes no row |
| Engine.RecordKeepsSound | provable_ai/engine.py:170-351 | one call either adds one proof that carries the request field by field and checks, or changes nothing, and keeps every chain linked |
| StrictSeed.SeedIsRecordedAlike | provable_ai/engine.py:214-291 | a strict request with a seed is recorded if and only if the same request without it is, given a signer that does not fail, unless a payload collides with a stored one |
| StrictSeed.SeedSpoilsTheChainForGood | provable_ai/verifier.py:464-469 | once a strict request with a seed is recorded, `verify_chain` refuses its chain, then and after any later run |
| StrictSeed.SeededRunIsRefused | provable_ai/engine.py:170-351 | from the empty database one call with a seed in strict mode records a proof, and the chain it starts is refused |
| Engine.SoundChainVerifies | provable_ai/verifier.py:278-365 | a chain of a sound ledger passes `verify_chain` if and only if it is not empty and holds no seeded strict-mode proof |
| Engine.ExportVerifies | provable_ai/engine.py:424-472 | every non-empty export of a sound ledger holds that chain and passes the package verifier and the offline verifier |
| Engine.EndToEnd | provable_ai/engine.py:170-472 | after any run of calls, successes and failures mixed, every chain is linked from genesis, verifies, and exports packages that both verifiers accept |
| Engine.GovernanceEngine.RecordDecision | provable_ai/engine.py:170-351 | does what the specified call does: adds the one row of a proof that carries the request, or fails and leaves the database alone |
| Engine.GovernanceEngine.ExportProof | provable_ai/engine.py:424-472 | returns the specified package, which both verifiers accept when not empty, and freezes the instance once the root is signed |
| Engine.FrozenInstanceStillGrows | provable_ai/engine.py:170-351 | recording never reads the frozen flag: after an export the same calls return the same and leave the same ledger as without it |
| Writers.UninterruptedCallIsRecord | provable_ai/engine.py:170-351 | the six steps of one writer, run without interruption, are one `record_decision` call |
| Writers.StepAppendsAtMostOne | provable_ai/storage.py:169-183 | a step changes the ledger exactly if it is an insert that records its proof, and then it adds that one row; a step that fails its writer changes nothing |
| Writers.LedgerOnlyGrows | provable_ai/storage.py:169-183 | over any interleaving, update and delete attempts included, no row is lost or changed |
| Writers.InsertKeepsLinked | provable_ai/storage.py:443-488 | a row checked at any earlier time and still insertable continues its chain at the right place with the right link |
| Writers.EveryInterleavingIsLinked | provable_ai/storage.py:287-488 | for any number of writers and any order of their steps, with no assumption on callers, hash or signatures, every chain is contiguous from 1, genesis-rooted and hash-linked |
| Writers.EveryInterleavingVerifies | provable_ai/engine.py:145-351 | with lawful signers, in every reachable state every chain verifies exactly when it is not empty and holds no seeded strict-mode proof, and its export passes both package verifiers |
| Writers.EveryInterleavingIsSerial | provable_ai/engine.py:145-351 | serialisability: whatever the interleaving of any number of engines, the ledger is the one that the completed calls, made one after the other in the order of their inserts, would have produced, and each call returns the same proof |
| Writers.CallWouldRecord | provable_ai/storage.py:407-488 | a proof built from an old tip that still fits its chain is exactly what its call would record now without interruption |
| Writers.EngineNeverSeesAGap | provable_ai/storage.py:344-361 | in every run, an engine's writer that fails the tip check fails with a duplicate sequence id, and because its position has been taken |
| Writers.InsertLosesOnlyToANewerRow | provable_ai/storage.py:261-268 | a checked writer is refused by the unique indexes only if its position has been taken, or two payloads collide |
| Writers.StepIsolatedIff | provable_ai/storage.py:310-334 | from an isolated ledger a step puts an instance id under a second tenant exactly if it inserts a row whose instance another tenant owns by then |
| Writers.EveryInterleavingIsolatedIff | provable_ai/storage.py:310-488 | after any run no instance id stands under two tenants, if and only if no insert of the run found its instance owned elsewhere |
| Writers.OneOwnerKeepsIsolation | provable_ai/storage.py:310-488 | a condition on the callers that suffices: if every instance id is submitted under one tenant, every interleaving keeps tenants apart |
| Writers.RaceBreaksIsolation | provable_ai/storage.py:310-488 | a run of eight steps from the empty database, for any two first proofs of one instance under two tenants, that records both |
| Protocol.SameDocumentSameSpec | provable_ai/engine.py:552-565 | documents that differ only in key order specify the same protocol |
| Legacy.TransitKeepsDatabase | provable_ai/engine.py:595-656 | a transition adds one sound row from the current to the requested state at the version it returns, or changes nothing |
| Legacy.EveryRunWalks | provable_ai/engine.py:552-703 | in every run over a fresh database each instance's ledger is a walk in its protocol from the initial state and replay is valid and ends in the state in memory, or two compiled documents collide |
| Legacy.FreezeTakesEffectIffMoved | provable_ai/storage.py:684-690 | freezing takes effect if and only if the instance has made a transition, and otherwise changes nothing |
| Legacy.FrozenNeverGrows | provable_ai/engine.py:628-631 | from a frozen instance on, no run adds a row to it |
| Legacy.FreezeOverRuns | provable_ai/engine.py:569-656 | over whole runs, an instance frozen after its first transition never grows and one frozen before behaves as if it had not been, or two compiled documents collide |
| Legacy.LegacyEngine.CompileSpec | provable_ai/engine.py:552-565 | stores the document under its canonical hash, replacing one with the same hash, and activates it |
| Legacy.LegacyEngine.CreateInstance | provable_ai/engine.py:569-591 | adds the instance in the initial state of the active protocol, in memory only, or refuses |
| Legacy.LegacyEngine.Transition | provable_ai/engine.py:595-656 | performs the specified transition, for which the walk and replay theorems are proved |
| Legacy.LegacyEngine.Replay | provable_ai/engine.py:660-703 | valid exactly when every hash column matches its proof and the chain verifies, with the last state; an empty ledger is valid with the state in memory |
| ReplayVerifier.MerkleRootOfTexts | tools/verify_core.py:49-60 | the loop computes the recursive root over pairs of texts with the odd one paired with itself, and none for no hashes |
| ReplayVerifier.ReplayLedger | tools/verify_core.py:137-187 | succeeds exactly when every entry has the schema version, position i + 1, the hash over its predecessor, a good signature and a permitted step, and then gives the end of the walk and the hashes |
| ReplayVerifier.VerifyPackage | tools/verify_core.py:92-212 | valid exactly when type, fields, outer signature, protocol hash, every entry and the instance root are right; the final state is the end of the walk |
| ReplayVerifier.PermitsIffAllows | tools/verify_core.py:168-177 | on a document the engine can use, the short-circuiting scan permits exactly the engine's edges |
| ReplayVerifier.AcceptedLedgerWalks | tools/verify_core.py:168-187 | an accepted ledger is a walk of the protocol, in the sense of the legacy engine, from the initial state to the final one |
| ReplayVerifier.LedgerBinding | tools/verify_core.py:63-85 | two accepted ledgers with the same last hash agree on every hashed field of every entry, or two payloads collide |
| ReplayVerifier.RootBindsLedger | tools/verify_core.py:189-195 | two accepted ledgers of any lengths with the same instance root have the same length and agree on every hashed field, or two hashed strings collide |
| ReplayVerifier.PackageBinding | tools/verify_core.py:92-212 | two valid packages with the same protocol hash and instance root hold the same protocol and the same entries field by field, or two hashed strings collide |
| ReplayVerifier.ProtocolBinding | tools/verify_core.py:124-133 | the same protocol hash means the same protocol document, or the two documents collide |
| RateLimit.AtMostLimitPerMinute | server/rate_limit.py:60-77 | in a spaced history no half-open 60 second interval holds more than the limit |
| RateLimit.AcceptKeepsSpaced | server/rate_limit.py:60-77 | accepting by the rule keeps any limit + 1 consecutive acceptances at least 60 seconds apart |
| RateLimit.RefusalIsExact | server/rate_limit.py:60-77 | a refusal names 1 to 61 seconds; with nothing accepted meanwhile a retry succeeds if and only if the oldest counted request is 60 seconds old, which it is by the time named |
| RateLimit.Window.CountAndCheck | server/rate_limit.py:60-77 | the evicting window decides as the full history of accepted requests would and keeps what still counts |
| RateLimit.EveryLayerIsLimited | server/rate_limit.py:101-156 | after any run with any limits, in each of the three layers and for every tenant, no half-open 60 second interval holds more acceptances than that layer's limit, none for a limit of zero or less |
| RateLimit.NoMinutePassesMore | server/rate_limit.py:101-156 | of the visits that pass all their layers, no half-open 60 second interval holds more than each layer's limit: over all tenants, for each tenant, and for each tenant's writes |
| RateLimit.WindowTable.CountAndCheck | server/rate_limit.py:126-144 | counts in the tenant's window, created on first use, and leaves every other tenant's window alone |
| RateLimit.RateLimiter.CheckVisit | server/rate_limit.py:101-156 | checks global, tenant and write window in turn, stopping at the first refusal, exactly as specified over the histories |
| Webhook.NonceStore.CheckAndStore | server/webhook.py:69-84 | despite eviction a nonce is new exactly if the full history did not store it within the last two tolerances |
| Webhook.VerifyRequest | server/webhook.py:152-248 | the header, timestamp, nonce and signature steps in their order, as specified over the full history |
| Webhook.SignedIsAcceptedIffTimelyAndNew | server/webhook.py:118-149 | what `sign_webhook` signs is accepted if and only if it arrives within the tolerance and its nonce is new |
| Webhook.MacTextDeterminesParts | server/webhook.py:96-102 | with no dot in timestamp and nonce, the authenticated text determines timestamp, nonce and body |
| Webhook.NonceTwiceNeedsTwoTolerances | server/webhook.py:192-202 | in every run over the full history, which the store follows while its clock does not run backwards, a nonce passes twice only if it was stored at least two tolerances earlier |
| Webhook.ReplayNeverPasses | server/webhook.py:165-213 | over the full history, which the store follows while its clock does not run backwards, the same timestamp and nonce both pass only if the second request spent the first one's remaining slack between its two clock readings; with one reading each, only if the timestamp was exactly one tolerance ahead and the repetition exactly two tolerances later |
| Webhook.RepetitionPassesIff | server/webhook.py:165-213 | with one clock reading per request, a repetition passes if and only if that boundary is met |
| Failover.RunKeepsSound | provable_ai/signer_failover.py:184-338 | over every run with threshold at least one: healthy implies consecutive failures below the threshold, failovers <= failbacks + (1 if unhealthy), and an unhealthy primary is always being probed |
| Failover.CountersCount | provable_ai/signer_failover.py:101-127 | the counters of signatures and of fallback errors equal the numbers of such outcomes in the run |
| FailoverEngine.AloneIsSignHash | provable_ai/signer_failover.py:184-226 | with no event of another thread, signing and reading the key is the signer's single step, and the key named is the one that signed unless the primary fails over below the threshold |
| FailoverEngine.SignatureChecksIff | provable_ai/engine.py:304-328 | whatever other threads do during signing and before each of the two key queries, the signature of a recorded proof checks if and only if the key that made it is in use when the public key is read |
| FailoverEngine.EveryRecordingChecksIff | provable_ai/engine.py:170-351 | over every run of decisions and other threads' events, the ledger holds exactly what was recorded, and each recorded signature checks if and only if the proof names the key that made it |
| FailoverEngine.EveryRunVerifiesIff | provable_ai/engine.py:170-351 | after every run from the empty database a chain passes `verify_chain` if and only if something was recorded in it, every proof names the key that signed it, and none is a seeded strict one |
| FailoverEngine.MismatchSpoilsTheChainForGood | provable_ai/engine.py:304-328 | a proof recorded under a key that did not sign it spoils its chain, then and after anything that follows |
| FailoverEngine.SteadyRunVerifies | provable_ai/signer_failover.py:184-338 | a condition that suffices: if in every decision no other thread switches keys from the start of signing to the reading of the public key, and a primary that fails over reaches the threshold, every chain verifies unless it holds a seeded strict proof |
| FailoverEngine.ThresholdOneIsSteady | provable_ai/signer_failover.py:230-247 | with a threshold of one the first half of that condition is all of it |
| FailoverEngine.LargerThresholdRunRefused | provable_ai/signer_failover.py:157-247 | for every threshold above one, the default two included, a run of one decision in which the primary fails once, with no other thread, records a proof whose chain is refused |
| FailoverEngine.FailbackRunRefused | provable_ai/signer_failover.py:249-329 | for every threshold, one included, a forced failover, a signature by the fallback and the probe's failback before the public key is read record a proof whose chain is refused |
| Failover.FailoverSigner.SignHash32 | provable_ai/signer_failover.py:184-216 | signs with the primary while it is in use and with the fallback otherwise, updating state and counters as specified and keeping the invariant |
| Failover.FailoverSigner.HealthProbeRound | provable_ai/signer_failover.py:261-285 | one probe round fails back exactly when an unhealthy primary responds |
| Failover.FailoverSigner.ForceFailoverNow | provable_ai/signer_failover.py:314-329 | switches to the fallback and starts the probe, or does nothing when already there |
| Failover.FailoverSigner.ForceFailbackNow | provable_ai/signer_failover.py:331-338 | returns to the primary, counts a failback and clears the run of failures |

## Left out

- Lone surrogates in text: strings are sequences of Unicode scalar values; the encoders raise on anything else.
- Messages, paths and context of errors: only which error is raised is kept, and for the package verifiers and the replay verifier only acceptance.
- Dictionaries with missing or mistyped fields inside a proof or a ledger entry: proofs and entries are typed and normalised (lower-case hexadecimal, extra keys dropped), so the defaults of `.get` on untyped input and the numeric equality of `True` and `1` are not modelled; an absent field that the verifiers test for is.
- Python's limit on converting huge integers to text, and the leniencies of `int(s, 16)`, which is a parameter; `bytes.fromhex` is modelled with its white space between bytes.
- Validated nesting depth: values may be nested to any depth; the interpreter's recursion limit is not modelled.
- `Verifier.PackageHashBinding`: is stated for ledgers whose values the canonical encoder accepts; floats, which plain JSON also writes, are an opaque kind of value.
- Legacy protocol documents holding floats or tuples, which `json.dumps` accepts: the legacy engine's `compile` is modelled on the values the canonical encoder accepts, and an initial state is a text.
- `Legacy.LegacyEngine.Transition`: the dictionary of the two hashes enters as already serialised bytes, because its serialisation plays no part in the theorems.
- Concurrent writers of the legacy engine, the audit log, the key registry and the anchor store: their code reads the tip in separate queries or drops its constraints, so they are modelled one call at a time.
- Policy names of the form "name:version" and the tables of approved models, agents and policies: approvals are sets of versions given to each call.
- The contents of an instance row other than tenant, id and the frozen flag.
- Interleavings of the failover signer finer than its steps, and times in its metrics: the start of signing, the primary's answer, each key query, each probe round and each forced switch are one step each. In `Failover` itself signing is one step; `FailoverEngine` takes it apart.
- Floating-point rounding of clock arithmetic in the limiter and the nonce store: times are real numbers.
- HTTP status codes and bodies of the limiter and the webhook check, and `stats`.
- SHA-256, Ed25519, HMAC and key-management services: parameters with the one signature law.
- RFC 3161 tokens, S3 writes and standard output in the anchor store: their results are inputs of the call; only the local chain is modelled.
- The second storage backend (PostgreSQL), the HTTP server, authentication, command line, SDKs, SIEM delivery, reports, PII checks and drift detection: they repeat these rules or would add only easy members.
- The browser verifier (web/verifier.ts): its string unescaping is not Python's, so equality of encodings across the two languages is not claimed.
