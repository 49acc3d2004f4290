# The Modular Messaging Endpoint, verified

The endpoint is one protocol implemented three times: in Solidity (`evm/`), as a Solana program (`svm/`)
and as Aptos Move modules (`aptos/`). It keeps, for every integrator, an admin, an append-only list of at
most 128 adapters and the adapters enabled per chain and direction; for every incoming message, who
attested it and whether it was executed; for every outgoing message, a sequence number and (outside EVM)
the adapters that have not picked it up yet.

The project has four layers.

- **Protocol.** `Protocol.dfy` is the state machine over plain sets: `Enabled` says when a transaction is
  accepted, `Next` what it does (a failing transaction changes nothing), `Run` folds any sequence of
  transactions by any callers. `Rules` holds the points where the implementations differ: whether zero
  admins, adapters or chains are allowed, whether adapter functions are locked during an admin transfer,
  whether attesting checks the destination chain, what receiving needs of the source chain, whether there
  is an outbox.
- **Implementations.** `EvmEndpoint.dfy` (with `EvmStorage.dfy`), `SvmEndpoint.dfy` and `AptosEndpoint.dfy`
  are classes with the storage of the sources: index maps, the EVM send array with swap-and-pop, 128-bit
  bitmaps, digest-keyed records, zeroed accounts, outbox accounts. Every method is proved to accept exactly
  when the protocol accepts and to leave storage that agrees with the protocol's next state (`Stepped`,
  `Valid`). `RunAll` lifts this to whole runs: it leaves storage that agrees with the protocol run of the
  submitted transactions and reports exactly the accepted ones as successful. On Solana a send names the
  account for the message and a pickup names an account, so the run is that of `Entries`, the actions the
  transactions stand for. On EVM an adapter called by a send may call back into the endpoint, between the
  calls of the other adapters and to any depth (`SendMessage`, `CallAdapters`, `RunNested`). The ghost field `model` is the protocol state; `Valid`
  ties it to the storage entry by entry, in both directions. Bits are real: `Bits.dfy` defines and, or, xor
  and shifts on numbers, `Bitmaps.dfy` proves the mask expressions and the popcount loop against them.
- **Histories.** `History.dfy` tells the endpoint a second time, without a state: `Allowed` says of each
  platform, in its own numbers, when an action is accepted given only the list of actions accepted before it
  (who last became admin, who was added, who was switched on and not off, what was attested, executed, sent,
  picked up). `RunIsHistory` proves that every run of the protocol is such a history, in both directions, and
  `RunAll` promises it of the implementations.
- **Theorems.** `Runs.dfy`, `Reentrancy.dfy` and `Platforms.dfy` prove the properties of every run, which
  hold for each implementation through the layer before. `Messages.dfy` and `Instructions.dfy` hold the
  message encoding and the adapter instruction codec, each stated down to the single byte.

Addresses, payload hashes and universal addresses are 256-bit numbers (EVM addresses: below 2^160) and
are written as big-endian bytes where the sources hash or parse them. `keccak` is a field of each class,
assumed free of collisions and nothing else. Adapters are arbitrary callers with a price function.
Contents of memory beyond the instruction buffer are a parameter (`beyond`) of the parser.

Where code and documentation disagree the model follows the code:

- README.md:330 asks that adapter functions fail while an admin transfer is pending. The EVM contract checks
  only the admin (evm/src/Endpoint.sol:598-608). `Platforms.EvmNotLocked` is a run that shows it,
  `Platforms.LockDeparture` says exactly when a step departs from the documented rule, and
  `Platforms.LockedRun` that runs without such steps are runs with the lock.
- README.md:307 asks a pickup to check that the adapter is an enabled send adapter for the destination
  chain. The code checks the adapters enabled when the message was sent. `Runs.PickUpWhileDisabled` is a run,
  for Solana and for Aptos, that ends with a pickup by an adapter no longer enabled. `Runs.PickUpRule` says
  who may pick up, and that an accepted pickup breaks the documented rule if and only if somebody disabled
  the adapter for that chain after the send and nobody enabled it again.

## Model

| member | source | states |
|---|---|---|
| Protocol.RunInv | README.md:273-354 | every reachable state keeps: duplicate-free lists of at most 128 adapters, a pending admin only beside an admin, enabled and attesting adapters listed, outbox sequences below the next one, every stored outbox message with somebody outstanding |
| History.RunIsHistory | README.md:273-354 | under each platform an action of any run is accepted if and only if the log of the actions accepted before it allows it, and after any run admins, pending admins, adapter lists with their indices, enabled sets, attesters, executed messages, sequences and outstanding pickups are what the log says |
| History.LogMember | README.md:273-354 | the log holds an action if and only if some step of the run made it and was accepted |
| History.ReceiveExactly | evm/src/Endpoint.sol:509-543 | in any run a receive is accepted if and only if an accepted step attested the message, no accepted step received or executed it and, on EVM, some adapter is enabled for its source chain at that moment |
| Runs.Attribution | evm/src/Endpoint.sol:455-506 | in every run an adapter is an attester of a message exactly when some accepted attest step of it was made while it was enabled for the source chain |
| Runs.BitAttribution | evm/src/Endpoint.sol:470-494 | bit i of an attested bitmap is set exactly when the adapter at index i made such a step, and it had index i already at that step |
| Runs.OrderIrrelevant | svm/programs/endpoint/src/instructions/attest_message.rs:152-164 | two runs with the same list and the same successful attesters end with the same bitmap, whatever the order |
| Runs.RunExtends | evm/src/AdapterRegistry.sol:208-230 | along any run lists grow only at the end, attesters and executed messages are never lost, sequences never fall |
| Runs.AtMostOnce | svm/programs/endpoint/src/instructions/exec_message.rs:89-109 | receive and exec together are accepted at most once per message in any run |
| Runs.SequencesGapFree | evm/src/MessageSequence.sol:34-37 | the numbers an integrator's sends return over any run are 0, 1, ..., next - 1, each once and in order |
| Runs.OutboxConservation | aptos/endpoint/sources/endpoint.move:76-118 | the adapters enabled at the send are at any later time the disjoint union of outstanding and picked-up ones; each picked up once; stored exactly while somebody is outstanding, gone after exactly that many pickups; contents kept |
| Runs.PickUpRule | svm/programs/endpoint/src/instructions/pick_up_message.rs:86-125 | a pickup is accepted if and only if its adapter was enabled at the send and has not picked up yet; an accepted one is by an adapter not enabled now if and only if some step after the send disabled it and no later step enabled it again |
| Runs.DisabledExactly | aptos/endpoint/sources/integrator.move:157-209 | an adapter enabled at one step is disabled at a later one if and only if an accepted disable lies between them with no accepted enable after it |
| Runs.PickUpWhileDisabled | README.md:306-308 | on Solana and Aptos: register, add, enable, send, disable, and the pickup by the disabled adapter is accepted |
| Runs.DiscardFreezes | evm/src/Endpoint.sol:328-339 | from an accepted discard on, in any run: no admin and no pending admin, the configuration as the discard left it, and every configuring action, registering again included, refused |
| Runs.DiscardClears | svm/programs/endpoint/src/instructions/discard_admin.rs:47-55 | a discard is accepted exactly from the admin with no transfer pending and leaves neither admin nor pending admin, and every other integrator's admins alone |
| Runs.UpdateReplaces | evm/src/Endpoint.sol:271-286 | an update is accepted exactly from the admin with no transfer pending (naming a nonzero address where zero is refused); the named one is then the only admin and nobody is pending |
| Runs.RegisterOnce | evm/src/Endpoint.sol:250-268 | after an accepted registration of an integrator every later one in the run is refused |
| Runs.TransferNames | evm/src/Endpoint.sol:289-304 | a transfer is accepted exactly from the admin with none pending; the admin stays and the named address is pending |
| Runs.TransferLocks | svm/programs/endpoint/src/state/integrator_config.rs:44-54 | from an accepted transfer of a run until one of the two claims, the old admin and the named one are admin and pending admin; with the lock no action of anybody changes the configuration |
| Runs.ClaimEnds | aptos/endpoint/sources/integrator.move:118-129 | after an accepted transfer of a run not claimed yet, a claim is accepted from exactly the old and the named admin, makes the claimer admin and clears the transfer |
| Runs.AdminProvenance | evm/src/Endpoint.sol:250-325 | every admin or pending admin of any run was registered or was named by the admin of that moment |
| Runs.Isolation | README.md:273-354 | actions about other integrators change nothing the protocol keeps for this one: configuration, sequence, attestations, executions, outbox; EvmRecordIsolation, SvmRecordIsolation and AptosRecordIsolation say it of the stored records |
| Reentrancy.FlatCall | evm/src/Endpoint.sol:423-442 | a send in whose loop every adapter may make any calls back, each with calls nested in it, caught or uncaught reverts included, equals a flat run of the actions that took effect |
| Reentrancy.FailureUndoes | evm/src/Endpoint.sol:423-442 | a called adapter that fails uncaught leaves the state as before the send, whatever was nested in it |
| Reentrancy.EveryCallMade | evm/src/Endpoint.sol:421-442 | an accepted send of which no called adapter fails: the send acts, then for each adapter enabled before it, in turn, every call of its callback is made, in order, each in the state the one before left |
| Reentrancy.OutcomeOf | evm/src/Endpoint.sol:421-442 | of a sequence of nested calls, the q-th is reported successful exactly when it is accepted and not reverted in the state the calls before it left |
| Reentrancy.NestedSequencesGapFree | evm/src/Endpoint.sol:421-442 | with any nesting and reverts the sequences returned to an integrator are 0, 1, ..., next - 1, each once |
| Platforms.SameRuns | README.md:273-354 | over any actions of any callers the three implementations succeed on the same steps if and only if every action was common when made (Common lists the differences: zero names, the lock, the chain checks, the receive gate, EVM instructions); the states are then equal but for the outbox |
| Platforms.SameRecords | aptos/endpoint/sources/endpoint.move:154-194 | after any one common run, the digest-keyed stores of Solana and Aptos hold for every message the same bitmap and executed flag as the EVM two-level map, whose count is their popcount, and hold a record exactly when the EVM entry is not zero |
| Platforms.SameConfiguration | evm/src/AdapterRegistry.sol:237-304 | after any one common run the three storages have the same adapter lists, sequences and receive bitmaps; the Solana and Aptos send bitmaps are equal, their bits are the indices in the EVM send array, and it is as long as their popcount |
| Platforms.SameOutbox | svm/programs/endpoint/src/instructions/send_message.rs:97-127 | after any one common run the Solana outbox accounts, wherever they are, hold exactly the messages of the Aptos outbox table, each in one account |
| Platforms.EvmRecordIsolation | evm/src/Endpoint.sol:483-506 | no run of actions about other integrators changes the stored record of a message |
| Platforms.SvmRecordIsolation | svm/programs/endpoint/src/instructions/attest_message.rs:61-79 | the same where the digest is the only key: the record neither appears, nor goes, nor changes a field |
| Platforms.AptosRecordIsolation | aptos/endpoint/sources/endpoint.move:154-194 | the same of the Aptos attestation table |
| Platforms.EvmStoredBits | evm/src/Endpoint.sol:470-494 | in EVM storage after any run, bit i of a message's attested bitmap is set exactly when the adapter registered at index i made an accepted attest step while enabled |
| Platforms.SvmStoredBits | svm/programs/endpoint/src/instructions/attest_message.rs:128-164 | the same of the Solana accounts, also for the record of an integrator that never registered |
| Platforms.AptosStoredBits | aptos/endpoint/sources/endpoint.move:154-167 | the same of the Aptos tables |
| Platforms.EvmNotLocked | evm/src/Endpoint.sol:598-608 | a run in which the EVM contract accepts an added adapter during a pending transfer |
| Platforms.LockDeparture | evm/src/Endpoint.sol:344-371 | a step is accepted, or acts, otherwise than with the documented lock if and only if it is an adapter function accepted while the integrator's transfer is pending |
| Platforms.LockedRun | README.md:329-354 | a run succeeds on the same steps as with the lock if and only if no adapter function was accepted during a transfer, and then ends in the same state |
| Bits.ClearLowest | evm/src/AdapterRegistry.sol:502-505 | one round of the popcount loop removes exactly one set bit and makes the number smaller |
| Bitmaps.CountBits | evm/src/AdapterRegistry.sol:500-506 | the loop ends for every 128-bit value with the number of set bits, at most 128, in an 8-bit counter |
| Bitmaps.EvmSet | evm/src/AdapterRegistry.sol:266 | the masked or sets the bit at the index and no other, within 128 bits |
| Bitmaps.EvmGet | evm/src/AdapterRegistry.sol:387 | the masked and is nonzero exactly when the bit is set |
| Bitmaps.EvmClear | evm/src/AdapterRegistry.sol:321-326 | the truncated complement clears exactly that bit; the numeric test refuses exactly a bit already clear |
| Bitmaps.MoveEnable | aptos/endpoint/sources/bitmap.move:6-10 | aborts exactly out of range or on a set bit, else sets exactly that bit |
| Bitmaps.MoveDisable | aptos/endpoint/sources/bitmap.move:12-16 | aborts exactly out of range or on a clear bit, else clears exactly that bit |
| Bitmaps.MoveGet | aptos/endpoint/sources/bitmap.move:18-21 | aborts exactly out of range, else reads the bit |
| Bitmaps.RustSet | svm/programs/endpoint/src/utils/bitmap.rs:34-42 | fails exactly out of range, else sets or clears exactly that bit |
| Bitmaps.HoldsCount | evm/src/Endpoint.sol:186-190 | the popcount of a bitmap that agrees with a set is the size of the set, at most the list length |
| Bitmaps.HoldsUnique | svm/programs/endpoint/src/utils/bitmap.rs:9-11 | the list and the set determine the bitmap |
| Bitmaps.HoldsExtend | svm/programs/endpoint/src/state/integrator_config.rs:58-65 | a bitmap keeps its meaning when adapters are appended |
| Messages.EncodeInjective | evm/src/Endpoint.sol:236-245 | the 108-byte packed encoding determines all six fields |
| Messages.EncodeBytes | README.md:261-265 | the hashed 108 bytes one by one: six fields at fixed offsets, most significant byte first |
| Messages.SameDigest | svm/programs/endpoint/src/state/attestation_info.rs:91-108 | without hash collisions two messages share a digest only if they are equal |
| Messages.RustMessageBytes | svm/programs/endpoint/src/state/attestation_info.rs:91-108 | the appended big-endian fields are the packed encoding |
| Messages.MoveMessageBytes | aptos/endpoint/sources/endpoint.move:121-142 | aborts exactly on a vector that is not 32 bytes, else the reversed BCS integers and vectors are the packed encoding |
| Messages.PadLeft32 | aptos/endpoint/sources/universal_address.move:18-29 | aborts exactly above 32 bytes, else 32 bytes for the same number: zeros in front, the input behind them |
| Messages.ToAddress | evm/src/libraries/UniversalAddress.sol:11-22 | inverse of fromAddress: yields an address exactly for its own universal form, reverts on all others |
| Instructions.EncodeInstructions | evm/src/libraries/AdapterInstructions.sol:40-66 | reverts exactly on more than 255 instructions or a payload above 65535 bytes, else the encoding, laid out byte by byte: the count, then per instruction its index, the payload length with the high byte first, the payload |
| Instructions.ParseInstructions | evm/src/libraries/AdapterInstructions.sol:97-132 | the loop of unchecked reads, index checks and one length check yields a result if and only if the bytes of the buffer spell in-range instructions with that result |
| Instructions.LayoutExactly | evm/src/libraries/AdapterInstructions.sol:40-66 | a buffer has the byte layout of a list if and only if it is its encoding |
| Instructions.SpellsOnce | evm/src/libraries/AdapterInstructions.sol:82-132 | no buffer spells two lists of instructions |
| Instructions.AcceptsExactly | evm/src/libraries/AdapterInstructions.sol:97-132 | a buffer is accepted if and only if its bytes spell instructions whose indices are in range |
| Instructions.DeferredCheckSound | evm/src/libraries/AdapterInstructions.sol:82-132 | acceptance and result are the same for any contents of memory beyond the buffer; an accepted buffer has at most 1 + 255 * 65538 bytes |
| Instructions.ReadsInside | evm/src/libraries/AdapterInstructions.sol:82-91 | reads that end inside the buffer do not depend on memory beyond it |
| Instructions.RoundTrip | evm/src/libraries/AdapterInstructions.sol:40-132 | parsing the encoding of in-range instructions yields their sparse array |
| Instructions.AcceptedIsEncoding | evm/src/libraries/AdapterInstructions.sol:97-132 | a buffer, empty or not, is accepted with a result if and only if its bytes spell in-range instructions and every slot of the result holds the last one for its index, or index 0 and no payload |
| Instructions.LastInstructionWins | evm/src/libraries/AdapterInstructions.sol:114-129 | each slot holds the last instruction for its index; a slot no instruction names has index 0 and an empty payload |
| EvmStorage.EnumeratesSwapPop | evm/src/AdapterRegistry.sol:286-299 | overwriting with the last element and popping removes exactly the chosen adapter and keeps entries distinct with their registry indices |
| EvmStorage.MessageFacts | evm/src/Endpoint.sol:483-494 | the stored count is the popcount of the attested bitmap and at most the number of registered adapters |
| EvmStorage.FilteredCount | evm/src/AdapterRegistry.sol:478-494 | the registered list filtered by the enabled set has exactly as many entries as the set |
| EvmStorage.FilteredSelects | evm/src/AdapterRegistry.sol:478-494 | the filtered list has exactly the enabled adapters of the registered list, in its order |
| EvmStorage.TotalNone | evm/src/Endpoint.sol:629-637 | no adapter costs nothing |
| EvmStorage.RecvGuard | evm/src/Endpoint.sol:515-538 | on storage: a receive is accepted if and only if the enabled and the attested bitmap are nonzero and the record is not executed; an execution if and only if the record is not executed |
| EvmStorage.SumPrices | evm/src/Endpoint.sol:629-637 | the checked sum of the prices, reverting exactly beyond 256 bits |
| EvmEndpoint.Endpoint.Register | evm/src/Endpoint.sol:250-268 | accepts an integrator exactly once, so never again after a discard, and only with a nonzero admin; every other entry keeps its meaning |
| EvmEndpoint.Endpoint.UpdateAdmin | evm/src/Endpoint.sol:271-286 | accepts exactly the current admin with no transfer pending and naming a nonzero address; the new admin replaces it and every other entry agrees with the protocol as before; the stored configuration holds the new admin and no pending one |
| EvmEndpoint.Endpoint.TransferAdmin | evm/src/Endpoint.sol:289-304 | accepts exactly the current admin with no transfer pending and naming a nonzero address; the old admin stays beside the pending one: the stored configuration holds the caller and the named address |
| EvmEndpoint.Endpoint.ClaimAdmin | evm/src/Endpoint.sol:307-325 | accepts exactly the old and the pending admin of a pending transfer, and nobody without one; the caller becomes the admin and the transfer is cleared |
| EvmEndpoint.Endpoint.DiscardAdmin | evm/src/Endpoint.sol:328-339 | accepts exactly the current admin with no transfer pending; the stored configuration then holds neither admin nor pending admin, the state that Runs.DiscardFreezes shows frozen |
| EvmEndpoint.Endpoint.AddAdapter | evm/src/AdapterRegistry.sol:208-230 | accepts exactly an unlisted adapter below the cap of 128 from an entitled admin; list, index map and all bitmaps keep their meaning; returns the position, and the 8-bit length never truncates |
| EvmEndpoint.Endpoint.IsSendAdapterEnabled | evm/src/AdapterRegistry.sol:347-363 | the linear search finds an adapter exactly when it is enabled |
| EvmEndpoint.Endpoint.EnableSendAdapter | evm/src/AdapterRegistry.sol:237-250 | succeeds exactly for a listed, not yet enabled adapter on a nonzero chain; the array then lists the set with it, still without duplicates |
| EvmEndpoint.Endpoint.DisableSendAdapter | evm/src/AdapterRegistry.sol:274-305 | succeeds exactly for an enabled adapter; after swap-and-pop the array lists the set without it |
| EvmEndpoint.Endpoint.EnableRecvAdapter | evm/src/AdapterRegistry.sol:256-270 | succeeds exactly for a listed, not yet enabled adapter on a nonzero chain; the bitmap then holds the set with it and no other bit moves |
| EvmEndpoint.Endpoint.DisableRecvAdapter | evm/src/AdapterRegistry.sol:313-330 | succeeds exactly for an enabled adapter, although it compares numbers; the bitmap then holds the set without it |
| EvmEndpoint.Endpoint.AttestMessage | evm/src/Endpoint.sol:455-506 | succeeds exactly for an enabled adapter that has not attested, on a message for this chain; its bit and no other is set and the count stays the popcount, never overflowing 8 bits |
| EvmEndpoint.Endpoint.RecvMessage | evm/src/Endpoint.sol:509-543 | accepted if and only if the stored enabled and attested bitmaps are nonzero and the record is not executed; behaves as the protocol's Recv and returns the bitmaps of the enabled and attesting adapters and their count |
| EvmEndpoint.Endpoint.ExecMessage | evm/src/Endpoint.sol:568-580 | succeeds exactly once per message, with or without attestations, and keeps the attested bits |
| EvmEndpoint.Endpoint.SendMessage | evm/src/Endpoint.sol:409-452 | with any calls back from the adapters and any failing adapter: succeeds exactly when the protocol accepts the send and no adapter fails, else undoes everything; every adapter enabled before the send is called exactly once with this sequence and the instruction for its own index, even if a call back disables or adds adapters; the forwarded values add up to the quote; each call carries what the bytes of the buffer spell for the adapter's index, and nothing if they do not name it or the buffer is empty |
| EvmEndpoint.Endpoint.CallAdapters | evm/src/Endpoint.sol:424-442 | with arbitrary calls back into the endpoint between two adapter calls, the loop still makes one call per entry copied before it, with the quoted price and the instruction for its index, and the calls back act one after the other |
| EvmEndpoint.Endpoint.UseMessageSequence | evm/src/MessageSequence.sol:34-37 | returns the next sequence and consumes it, before any adapter is called |
| EvmEndpoint.Endpoint.RunNested | evm/src/Endpoint.sol:250-580 | any sequence of calls with trees of calls nested in them changes the storage as the protocol performs them, and reports exactly those accepted and not reverted as successful |
| EvmEndpoint.Endpoint.QuoteDeliveryPrice | evm/src/Endpoint.sol:617-638 | returns the same total over the same send array, reverting exactly on bad instructions, chain 0 or a total beyond 256 bits, and 0 with no enabled adapter |
| EvmEndpoint.Endpoint.GetMessageStatus | evm/src/Endpoint.sol:652-671 | the enabled and attested bitmaps of the message, the count as popcount and size of the attester set, the executed flag |
| EvmEndpoint.Endpoint.GetRecvAdaptersByChain | evm/src/AdapterRegistry.sol:478-494 | the popcount-sized array is never overrun and ends completely filled with the registered list filtered by enabled bit, in order: exactly the enabled adapters |
| EvmEndpoint.Endpoint.RunAll | evm/src/Endpoint.sol:250-580 | any sequence of transactions leaves storage that agrees with the protocol run of the same actions, and exactly the accepted ones succeed; from the initial state these are exactly the ones the log of accepted actions allows |
| SvmEndpoint.StoredIsInitialised | svm/programs/endpoint/src/instructions/recv_message.rs:103-119 | the source-chain-0 test holds exactly for fresh accounts; stored fields are the arguments that located the record; an unexecuted record has attestations, a nonzero source chain and this destination chain |
| SvmEndpoint.RecvGuard | svm/programs/endpoint/src/instructions/recv_message.rs:109-119 | on accounts: a receive is accepted if and only if the chain config and the record exist and the record is not executed |
| SvmEndpoint.Program.Register | svm/programs/endpoint/src/instructions/register.rs:95-118 | accepts an integrator exactly once, so never again after a discard, and with any admin; every other entry keeps its meaning |
| SvmEndpoint.Program.UpdateAdmin | svm/programs/endpoint/src/instructions/update_admin.rs:69-80 | accepts exactly the current admin with no transfer pending, naming any address; the new admin replaces it and every other entry agrees with the protocol as before; the stored configuration holds the new admin and no pending one |
| SvmEndpoint.Program.TransferAdmin | svm/programs/endpoint/src/instructions/transfer_admin.rs:85-95 | accepts exactly the current admin with no transfer pending, naming any address; the old admin stays beside the pending one: the stored configuration holds the caller and the named address |
| SvmEndpoint.Program.ClaimAdmin | svm/programs/endpoint/src/instructions/transfer_admin.rs:49-132 | accepts exactly the old and the pending admin of a pending transfer, and nobody without one; the caller becomes the admin and the transfer is cleared |
| SvmEndpoint.Program.DiscardAdmin | svm/programs/endpoint/src/instructions/discard_admin.rs:47-55 | accepts exactly the current admin with no transfer pending; the stored configuration then holds neither admin nor pending admin, the state that Runs.DiscardFreezes shows frozen |
| SvmEndpoint.Program.AddAdapter | svm/programs/endpoint/src/instructions/add_adapter.rs:87-111 | accepts exactly an unlisted adapter below the cap of 128 from the unlocked admin; list, index map, bitmaps and records keep their meaning |
| SvmEndpoint.Program.EnableAdapter | svm/programs/endpoint/src/instructions/enable_adapter.rs:101-198 | on either side succeeds exactly for a listed, not yet enabled adapter, and the bitmap then holds the set with it, creating the chain config on first use and never overwriting one |
| SvmEndpoint.Program.DisableAdapter | svm/programs/endpoint/src/instructions/disable_adapter.rs:71-136 | on either side succeeds exactly for an enabled adapter, and the bitmap then holds the set without it |
| SvmEndpoint.Program.SendMessage | svm/programs/endpoint/src/instructions/send_message.rs:97-127 | fails on an account in use, else behaves as the protocol's Send and stores the message with the consumed sequence |
| SvmEndpoint.Program.PickUpMessage | svm/programs/endpoint/src/instructions/pick_up_message.rs:86-125 | fails on an account without message, else behaves as the protocol's PickUp of the message in it; closes the account on the last pickup |
| SvmEndpoint.Program.NewAttestationInfo | svm/programs/endpoint/src/state/attestation_info.rs:47-78 | fails exactly on a zero chain id, else a record of the message under its own digest |
| SvmEndpoint.Program.AttestMessage | svm/programs/endpoint/src/instructions/attest_message.rs:117-179 | behaves as the protocol's Attest, whether or not the record existed |
| SvmEndpoint.Program.RecvMessage | svm/programs/endpoint/src/instructions/recv_message.rs:109-139 | behaves as the protocol's Recv although it checks neither attestations nor chains; both hold whenever it succeeds; accepted if and only if the chain config and the record exist and the record is not executed |
| SvmEndpoint.Program.ExecMessage | svm/programs/endpoint/src/instructions/exec_message.rs:89-122 | behaves as the protocol's Exec, whether or not the record existed |
| SvmEndpoint.Program.RunAll | svm/programs/endpoint/src/lib.rs:22-233 | any sequence of transactions leaves accounts that agree with the protocol run of their actions (a send to an account in use and a pickup from an account without message stand for none), a transaction succeeds exactly when it stands for an accepted action, and which account holds which message is determined; from the initial state exactly the ones the log of accepted actions allows |
| AptosEndpoint.Endpoint.Register | aptos/endpoint/sources/integrator.move:45-58 | accepts an integrator exactly once, so never again after a discard, and only with a nonzero admin; every other entry keeps its meaning |
| AptosEndpoint.Endpoint.UpdateAdmin | aptos/endpoint/sources/integrator.move:95-104 | accepts exactly the current admin with no transfer pending and naming a nonzero address; the new admin replaces it and every other entry agrees with the protocol as before; the stored configuration holds the new admin and no pending one |
| AptosEndpoint.Endpoint.TransferAdmin | aptos/endpoint/sources/integrator.move:106-116 | accepts exactly the current admin with no transfer pending and naming a nonzero address; the old admin stays beside the pending one: the stored configuration holds the caller and the named address |
| AptosEndpoint.Endpoint.ClaimAdmin | aptos/endpoint/sources/integrator.move:118-129 | accepts exactly the old and the pending admin of a pending transfer, and nobody without one; the caller becomes the admin and the transfer is cleared |
| AptosEndpoint.Endpoint.DiscardAdmin | aptos/endpoint/sources/integrator.move:131-138 | accepts exactly the current admin with no transfer pending; the stored configuration then holds neither admin nor pending admin, the state that Runs.DiscardFreezes shows frozen |
| AptosEndpoint.Endpoint.AddAdapter | aptos/endpoint/sources/integrator.move:140-155 | accepts exactly an unlisted adapter below the cap of 128 from the unlocked admin; list, index map, bitmaps and records keep their meaning |
| AptosEndpoint.Endpoint.EnableAdapter | aptos/endpoint/sources/integrator.move:157-196 | on either side succeeds exactly for a listed, not yet enabled adapter, and the bitmap then holds the set with it |
| AptosEndpoint.Endpoint.DisableAdapter | aptos/endpoint/sources/integrator.move:171-209 | on either side succeeds exactly for an enabled adapter, and the bitmap then holds the set without it |
| AptosEndpoint.Endpoint.SendMessage | aptos/endpoint/sources/endpoint.move:76-90 | aborts on a payload hash that is not 32 bytes, else behaves as the protocol's Send and returns the consumed sequence |
| AptosEndpoint.SendStep | aptos/endpoint/sources/endpoint.move:84-88 | the key of the new outbox message is never in the table, whatever pickups removed |
| AptosEndpoint.RecvGuard | aptos/endpoint/sources/endpoint.move:169-182 | on tables: a receive is accepted if and only if the record exists and is not executed and the integrator is registered |
| AptosEndpoint.Endpoint.PickUpMessage | aptos/endpoint/sources/endpoint.move:98-118 | behaves as the protocol's PickUp and removes the entry on the last pickup; returns the stored message and the adapters that remain |
| AptosEndpoint.Endpoint.AttestMessage | aptos/endpoint/sources/endpoint.move:154-167 | aborts on vectors that are not 32 bytes, else behaves as the protocol's Attest |
| AptosEndpoint.Endpoint.RecvMessage | aptos/endpoint/sources/endpoint.move:169-182 | aborts on vectors that are not 32 bytes, else behaves as the protocol's Recv and returns the two bitmaps; accepted if and only if the record exists and is not executed and the caller is registered |
| AptosEndpoint.Endpoint.ExecMessage | aptos/endpoint/sources/endpoint.move:184-194 | aborts on vectors that are not 32 bytes, else behaves as the protocol's Exec |
| AptosEndpoint.Endpoint.RunAll | aptos/endpoint/sources/endpoint.move:72-194 | any sequence of transactions leaves tables that agree with the protocol run of the same actions, and exactly the accepted ones succeed; from the initial state these are exactly the ones the log of accepted actions allows |

## Left out

- Error codes: methods say whether a transaction fails, not which error it reports.
- Events and their contents.
- keccak256: a collision-free function on byte sequences; its result length is not modelled.
- Anchor accounts: address derivation, bumps, rent, lamports and the refund recipient; a derived address is a map key and `init` means that the key is absent.
- EVM storage slots, gas, ether balances and `msg.value`; nothing ties forwarded values to what the caller paid.
- EvmEndpoint.Endpoint.SendMessage: one price function for the whole transaction, so an adapter that changes its quote during a call is not modelled; an adapter that fails is named by its position and nobody catches it within the loop.
- EVM calls from the zero address: the platform never makes one, so callers have the type EvmCaller; with one, a discarded admin would be no barrier.
- Bitmap values in Rust are copied, not shared, so bitmap.rs is modelled on values; `count_enabled_bits`, `len` and `from_value` are not modelled.
- Plain getters, the Solana universal address wrapper, mock programs, adapters, scripts and deployment: single-branch facts or code outside the endpoint.
