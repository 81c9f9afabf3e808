# Verified models of the EOSIO core

Dafny models of the parts of this repository that keep a fast or incremental form of something simple,
with proofs that the two agree in every run:

- **Authorities** (`Authorities`, `AuthorityCheck`, `AuthorityExact`, `AuthorityCuts`, `AuthorityCycles`,
  `AuthorityKeys`, `AuthorityMarks`, `AuthorityExamples`, `AuthorityChecker`): the evaluation of weighted keys, delegated permissions and waits, with its cache, depth
  limit and rollback of used keys, against a declarative sum of weights.
- **ABI codec** (`RawPack`, `AbiCodec`, `AbiRoundTrip`, `AbiTheorems`, `AbiDepth`, `AbiHeight`, `AbiBytes`, `AbiScenarios`,
  `AbiLimits`): values to bytes and back,
  over structs with bases, arrays, optionals, tagged variants and `$` extensions.
- **Votes and stakes** (`Sums`, `MapSums`, `Voting*`, `VoteTables`, `Stakes`, `StakeVotes`, `StakeLaws`,
  `StakeTheorems`, `StakeRuns`, `StakeTables`): producer and proxy tallies, delegations, refunds and the token balances behind
  them, as one ledger.
- **Fork database** (`Forks`, `ForkLaws`, `ForkDatabase`): confirmations, quorums and the irreversible number that
  travels up the tree of blocks.
- **DPOS headers** (`Dpos`, `DposHeaders`, `DposChain`, `DposConfirms`, `DposExamples`): confirmation counters, the
  check against double confirmation, changes of schedule and the last irreversible block.
- **Message buffer** (`Chunks`, `MessageBuffer`): a chain of chunks as a flat queue of bytes.
- **Names** (`Names`, `NameSuffix`, `NameText`, `NameOrder`, `NameDots`): names as 64-bit words, as texts, and their suffixes.
- **Multisig** (`Multisig`, `MultisigLaws`, `MultisigVotes`, `MultisigContract`): proposals, votes and execution.
- **Permission tree** (`Permissions`, `PermissionLaws`, `PermissionExamples`, `PermissionStore`): parents, links and the ancestor walk.
- **Visitor and schedules** (`Visitor`, `Schedule`): undo by sizes, rounds of producers, overlapping quorums.

Most subsystems come as a model on values (a state, one function per action that returns the new state or
`None` for an error, and a function that runs a list of actions), laws about every run of it, and a class that
does what the code does in place, loop by loop, proved to compute the functions. A failed action leaves no trace,
as the chain undoes it. Clocks, signatures, the permissions in force and memory contents are parameters.

## What the code does not keep

Where a promise of the documentation or the tests does not hold of the code as it stands, the code is modelled
as it is, a concrete case is proved, and the exact condition is proved for all inputs:

- A proxy does not pass on a change of at most one vote but records it as passed on (voting.cpp lines 262-285).
  The tallies are exact in every run if and only if one token is worth more than one vote
  (`VotingLimits.ExactIffSteady`).
- The verdict of the authority checker depends on the order of evaluation when permissions form a cycle or go
  deeper than the limit (`AuthorityExamples`). It never accepts an authority that is not satisfied
  (`AuthorityCheck.QuerySound`), and equals the declarative verdict on graphs that are ranked within the limit
  (`AuthorityExact.QueryExact`). On any graph a satisfied authority is rejected only when the evaluation meets the
  depth limit, or both runs into a cycle and takes a rejection from the cache (`AuthorityCycles.WrongOnlyIf`).
- Used keys alone need not satisfy an accepted authority when a permission is shared between branches
  (`AuthorityExamples.SharedLosesMarks`). On any graph they do unless the query depends on an acceptance from the
  cache whose keys were given back (`AuthorityMarks.MarksSufficeUnlessLost`), which never happens where nothing is
  shared (`AuthorityMarks.UnsharedNeverLoses`).
- A signed variable-length integer comes back, and encodes to the same bytes again, exactly when it lies within
  31 bits (`RawPack.ZigzagRoundTrip`, `AbiBytes.VarintBytes`). What was decoded from an encoding encodes to the
  same bytes again exactly if each built-in value in it does (`AbiBytes.SameBytesIff`).
- A struct whose first field is an extension cannot be read back when it is written without any
  (`AbiLimits.HollowFails`), an optional of a struct is written by no one (`AbiLimits.OptionalStructOneWay`), and
  values nested deeper than nine structs can be written but not read (`AbiLimits.DeepValuesOneWay`).
- Staking for another account, or giving a stake away, cancels the owner's scheduled refund: a run is
  `StakeRuns.RefundLeftAside`, and refunds stay scheduled exactly in the runs without such a stake
  (`StakeRuns.PromisesKeptIff`). eosio.stake holds what is staked until it stakes itself
  (`StakeTheorems.HoldsStakesUntil`), which it can from the start (`StakeRuns.StakedOutOfNothing`).
- A level asked twice for its approval can leave it standing although its last vote took it back. The approvals
  tell the last votes, however the proposal goes on, if and only if no level was asked twice
  (`MultisigVotes.TellsIff`).
- A link can name a permission its account does not have, because it is looked up by name among all accounts
  (`PermissionLaws.LinksResolveIff`; a run is `PermissionExamples.DanglingLink`).
- The last irreversible number by DPOS can fall after a new schedule takes over (a chain is
  `DposExamples.PromotionLowers`): exactly when too many of its producers, not counting the one that makes the next
  block, lag behind (`DposChain.NeverFallsIff`).
- The check against double confirmation subtracts unsigned numbers: a producer confirms a block twice exactly when
  it claims to confirm more blocks than there are (`DposConfirms.AgainIff`; a chain is
  `DposExamples.ConfirmsTwice`). A producer that left the schedule and came back cannot.
- The comment in `name_suffix` says leading dots do not count as dots; in the code they do
  (unittests/misc_tests.cpp lines 54-55), and the model follows the code (`NameDots.LeadingDotCounts`).

## Model

| member | source | states |
|---|---|---|
| Authorities.OrderedSorts | libraries/chain/include/eosio/chain/authority_checker.hpp:34-47 | The factors are visited by descending weight, at equal weight waits before keys before accounts, each factor once |
| Authorities.Validate | libraries/chain/include/eosio/chain/authority.hpp:142-187 | Accepts exactly the authorities whose entries are in strict order and whose weights, without overflow, reach a positive threshold |
| AuthorityCheck.QuerySound | libraries/chain/include/eosio/chain/authority_checker.hpp:182-270 | For every permission graph, cycles included: an accepted authority is satisfied by the provided keys, levels and delay |
| AuthorityCheck.GainedPermuted | libraries/chain/include/eosio/chain/authority_checker.hpp:189-204 | The declarative weight does not depend on the order of the factors |
| AuthorityCheck.SatGrows | libraries/chain/include/eosio/chain/authority_checker.hpp:207-270 | More keys, levels, delay or depth never unsatisfy an authority |
| AuthorityExact.QueryExact | libraries/chain/include/eosio/chain/authority_checker.hpp:182-270 | On graphs ranked within the depth limit the verdict is the declarative one, both ways |
| AuthorityExact.OrderIrrelevant | unittests/misc_tests.cpp:279-454 | There, two authorities with the same factors in any order get the same verdict |
| AuthorityCuts.ExactUnlessCut | libraries/chain/include/eosio/chain/authority_checker.hpp:237-268 | On any graph the verdict is the declarative one unless the evaluation meets a permission under evaluation or the depth limit |
| AuthorityCycles.NoDetour | libraries/chain/include/eosio/chain/authority_checker.hpp:240-250 | A satisfied permission is satisfied without reference to itself, so that one under evaluation may be looked upon as unsatisfied |
| AuthorityCycles.ExactUnlessStale | libraries/chain/include/eosio/chain/authority_checker.hpp:237-268 | On any graph, however many cycles are met, the verdict is the declarative one unless a rejection is taken from the cache or the depth limit is met |
| AuthorityCycles.WrongOnlyIf | libraries/chain/include/eosio/chain/authority_checker.hpp:237-268 | A wrong verdict is a rejection, and takes a cut evaluation as well as a rejection from the cache, or the depth limit |
| AuthorityKeys.UsedGrowsCheck | libraries/chain/include/eosio/chain/authority_checker.hpp:184-204 | A rejected authority leaves the used keys as they were, an accepted one only adds provided keys |
| AuthorityKeys.MarksSuffice | unittests/misc_tests.cpp:287-309 | When no permission is shared, the used keys alone satisfy what was accepted, within the depth limit |
| AuthorityMarks.MarksSufficeUnlessLost | unittests/misc_tests.cpp:287-309 | On any graph the used keys alone satisfy what was accepted, unless the query depends on an acceptance from the cache whose keys were given back |
| AuthorityMarks.UnsharedNeverLoses | libraries/chain/include/eosio/chain/authority_checker.hpp:182-205 | Where no permission is referred to twice no such acceptance is met |
| AuthorityExamples.SharedLoses | libraries/chain/include/eosio/chain/authority_checker.hpp:184-204 | The graph that loses a mark meets one |
| AuthorityExamples.CycleIsOrderDependent | libraries/chain/include/eosio/chain/authority_checker.hpp:237-268 | Around a cycle the same factors are accepted in one order and rejected in another, although they satisfy the authority |
| AuthorityExamples.ChainRejectsSatisfied | libraries/chain/include/eosio/chain/authority_checker.hpp:240-264 | A satisfied authority beyond the depth limit is rejected |
| AuthorityExamples.ChainAcceptsBeyondLimit | libraries/chain/include/eosio/chain/authority_checker.hpp:258-267 | The cache lets an authority through that needs more depth than the limit allows |
| AuthorityExamples.SharedLosesMarks | libraries/chain/include/eosio/chain/authority_checker.hpp:184-204 | A permission first met in a rejected branch is accepted from the cache without its key marked as used |
| AuthorityChecker.Checker.Satisfied | libraries/chain/include/eosio/chain/authority_checker.hpp:138-146 | The verdict and the used keys after it are those of the model |
| AuthorityChecker.Checker.SatisfiedAt | libraries/chain/include/eosio/chain/authority_checker.hpp:182-205 | The loop over the factors with its rollback computes the model's verdict, cache and used keys |
| AuthorityChecker.Checker.VisitFactor | libraries/chain/include/eosio/chain/authority_checker.hpp:221-269 | Visiting one factor adds the weight, the cache entries and the used key of the model |
| AuthorityChecker.Checker.SplitKeys | libraries/chain/include/eosio/chain/authority_checker.hpp:150-157 | Used and unused keys split the provided ones |
| AuthorityChecker.Checker.AllKeysUsed | libraries/chain/include/eosio/chain/authority_checker.hpp:148-148 | Whether every provided key is used |
| RawPack.VarRoundTrip | libraries/fc/include/fc/io/raw.hpp:214-243 | A 32-bit number in front of any bytes is read back, and those bytes are left |
| RawPack.WriteVar | libraries/fc/include/fc/io/raw.hpp:214-222 | The loop writes seven bits a byte, lowest first, with a bit for more |
| RawPack.ReadVar | libraries/fc/include/fc/io/raw.hpp:235-243 | The loop reads what the recursive reader reads, with its limit of five bytes and its wrap-around |
| RawPack.ZigzagRoundTrip | libraries/fc/include/fc/io/raw.hpp:204-234 | A signed number comes back exactly when it lies within 31 bits, and is never off by more than one |
| RawPack.LERoundTrip | libraries/chain/abi_serializer.cpp:32-51 | Reading a little-endian integer undoes writing it, up to the width of the type |
| RawPack.WrapFits | libraries/chain/abi_serializer.cpp:32-51 | The cast to a type keeps exactly the values of the type and always yields one |
| RawPack.TextRoundTrip | libraries/fc/include/fc/io/raw.hpp:289-316 | A byte string in front of any bytes is read back, and those bytes are left |
| AbiRoundTrip.RoundTrip | libraries/chain/abi_serializer.cpp:282-510 | Decoding what was encoded, followed by any bytes, yields the value as it is seen and those bytes, or fails just when the value cannot be seen at that depth |
| AbiRoundTrip.ItemsRoundTrip | libraries/chain/abi_serializer.cpp:330-345 | The same for the items of an array |
| AbiRoundTrip.StructRoundTrip | libraries/chain/abi_serializer.cpp:282-313 | The same for a struct with its bases, in keyed and positional form |
| AbiRoundTrip.VariantRoundTrip | libraries/chain/abi_serializer.cpp:359-367 | The same for a tagged variant |
| AbiRoundTrip.NonEmpty | libraries/chain/abi_serializer.cpp:399-496 | Where a value must leave a trace for its reader, its encoding is not empty |
| AbiDepth.SeenIff | libraries/chain/abi_serializer.cpp:282-378 | An encodable value can be read exactly when its nesting as the decoder counts it, one for a built-in value, one around arrays and variants, two around structs and one around each base, is below the limit |
| AbiHeight.EncodesIff | libraries/chain/abi_serializer.cpp:399-496 | A value encodes exactly when it fits its type and its nesting as the encoder counts it, one for a built-in value and around arrays, variants, structs and bases, is below the limit |
| AbiHeight.CanonicalRoundTrip | unittests/abi_tests.cpp:39-63 | A canonical value encodes and comes back with the bytes behind it exactly when both counts are below the limit |
| AbiDepth.ValueRoundTrip | unittests/abi_tests.cpp:39-63 | A canonical value comes back unchanged with the bytes behind it exactly when its nesting is below the limit, and is rejected otherwise |
| AbiBytes.SameBytesIff | unittests/abi_tests.cpp:3643-3647 | Whatever the decoder sees of an encodable value, given by name, by position or with other entries, encodes to the same bytes exactly if each built-in value met in it does |
| AbiBytes.BytesRoundTrip | unittests/abi_tests.cpp:38-63 | What was encoded is decoded exactly if its nesting is within the limit, and then encodes to the same bytes exactly if each built-in value met in it does |
| AbiBytes.VarintBytes | libraries/chain/abi_serializer.cpp:74-77 | A varint32 read back encodes to the same bytes exactly within 31 bits |
| AbiBytes.IntegerStable | libraries/chain/abi_serializer.cpp:32-51 | An integer read back has the same bytes, for every width |
| AbiBytes.VarUnsignedStable | libraries/fc/include/fc/io/raw.hpp:214-243 | So has an unsigned variable-length integer |
| AbiBytes.TextStable | libraries/fc/include/fc/io/raw.hpp:304-316 | So has a string |
| AbiBytes.VarSignedStableIff | libraries/fc/include/fc/io/raw.hpp:204-234 | A signed variable-length integer has exactly within 31 bits |
| AbiTheorems.PositionalIsKeyed | unittests/abi_tests.cpp:3593-3598 | A struct given as a list of values has the same bytes as one given by field names, with trailing extensions left out |
| AbiTheorems.SeenUnchanged | libraries/chain/abi_serializer.cpp:315-378 | A canonical value is seen as it is |
| AbiTheorems.IntegerLawful | libraries/chain/abi_serializer.cpp:32-51 | Integer types of every width obey the law of built-in types |
| AbiTheorems.VarUnsignedLawful | libraries/fc/include/fc/io/raw.hpp:214-243 | So do unsigned variable-length integers |
| AbiTheorems.VarSignedLawful | libraries/fc/include/fc/io/raw.hpp:204-234 | So do signed ones, seen as their reader returns them |
| AbiTheorems.TextLawful | libraries/fc/include/fc/io/raw.hpp:304-316 | So do strings |
| AbiScenarios.VariantBytes | unittests/abi_tests.cpp:3588-3595 | A variant is the position of its type and the value; a type it does not have is refused |
| AbiScenarios.WithoutExtensions | unittests/abi_tests.cpp:3637-3637 | A struct without its extensions is the bytes of its two fields |
| AbiScenarios.WithExtensions | unittests/abi_tests.cpp:3641-3641 | With all extensions the bytes are those the test lists, an array with its length and an optional with its flag |
| AbiScenarios.WrongFields | unittests/abi_tests.cpp:3629-3635 | A missing field that is no extension, and a field after a missing extension, are refused |
| AbiLimits.HollowFails | libraries/chain/abi_serializer.cpp:282-313 | A struct that begins with an extension is written as nothing and then not read back |
| AbiLimits.OptionalStructOneWay | libraries/chain/abi_serializer.cpp:399-430 | An optional of a struct can be read but never written |
| AbiLimits.DeepValuesOneWay | libraries/chain/abi_serializer.cpp:550-562 | Nested structs are written down to depth 14 and read back only down to depth 9 |
| VotingActions.StepKeeps | contracts/eosio.system/voting.cpp:131-286 | Every action keeps the recomputed tallies, the weights on record and the shape of votes and proxies |
| VotingActions.RunKeeps | contracts/eosio.system/voting.cpp:131-286 | So does every run |
| VotingActions.TalliesExact | unittests/eosio.system_tests.cpp:1117-1184 | In every run producer totals, proxied weights and the overall total are those counted from scratch |
| VotingLimits.ExactIffSteady | contracts/eosio.system/voting.cpp:262-285 | That holds in every run if and only if one token is worth more than one vote |
| VotingLimits.Drifts | contracts/eosio.system/voting.cpp:262-285 | At one vote a token or less, five actions leave a producer one vote short |
| VotingRecast.RecastKeeps | contracts/eosio.system/voting.cpp:160-225 | Taking a vote back and casting it anew keeps all tallies |
| VotingRuns.RevoteIsRecast | contracts/eosio.system/voting.cpp:131-225 | The incremental update, with its deltas and two propagations, is the vote taken back and cast anew, and keeps all tallies |
| VotingOutcomes.VoteSucceedsIff | contracts/eosio.system/voting.cpp:131-219 | A vote succeeds exactly when it is well formed and what it asks for is registered; no check for corrupted data fails |
| VotingOutcomes.VoteRecorded | contracts/eosio.system/voting.cpp:149-225 | The vote goes on record at the voter's weight, and the stake counts as activated exactly if no weight was on record |
| VotingOutcomes.StakeNeverStuck | contracts/eosio.system/delegate_bandwidth.cpp:358-380 | In every run a change of stake is refused only if the stake would fall below zero, whatever became of the proxy and the producers voted for |
| VotingSteps.PropagateIsRefreshed | contracts/eosio.system/voting.cpp:255-286 | Propagation brings one row up to date and goes no further |
| VoteTables.Tables.PropagateWeight | contracts/eosio.system/voting.cpp:255-286 | The recursive update in place computes the step of the model or fails with it |
| VoteTables.Tables.ApplyAll | contracts/eosio.system/voting.cpp:203-218 | The loop over the changes applies each once, in any order, and keeps the overall total in step |
| VoteTables.Tables.UpdateVote | contracts/eosio.system/voting.cpp:131-225 | The whole update computes the step of the model, and an error leaves the tables as they were |
| VoteTables.Tables.RegisterProxy | contracts/eosio.system/voting.cpp:236-253 | Likewise for registering a proxy |
| VoteTables.Tables.SetStake | contracts/eosio.system/delegate_bandwidth.cpp:358-380 | Likewise for a change of stake |
| VoteTables.Tables.InOrder | contracts/eosio.system/voting.cpp:138-142 | The comparison of neighbours accepts exactly the lists in strict order |
| VoteTables.CastWhole | contracts/eosio.system/voting.cpp:165-218 | Applying the merged changes producer by producer is the cast of the model, accepted in the same cases |
| StakeLaws.SettleBalances | contracts/eosio.system/delegate_bandwidth.cpp:281-339 | Whatever the case, tokens due plus the old refund equal the change of stake plus the new refund |
| StakeLaws.NextKeeps | contracts/eosio.system/delegate_bandwidth.cpp:211-423 | Every action conserves tokens and keeps stakes, totals and the balance of eosio.stake in agreement with the delegations |
| StakeLaws.RunSound | unittests/eosio.system_tests.cpp:116-179 | So does every run |
| StakeTheorems.HoldsStakesWhile | unittests/eosio.system_tests.cpp:515-678 | As long as eosio.stake stakes nothing itself, its balance above what it was given is the delegations plus the pending refunds |
| StakeTheorems.HoldsStakesUntil | contracts/eosio.system/delegate_bandwidth.cpp:276-277 | The equality is lost exactly by a stake change of eosio.stake itself |
| StakeTheorems.RefundPaid | contracts/eosio.system/delegate_bandwidth.cpp:408-423 | A refund that is due can be claimed and is paid in full while eosio.stake staked no more without tokens than it was given |
| StakeRuns.RefundsPaid | contracts/eosio.system/delegate_bandwidth.cpp:408-423 | In every run in which eosio.stake neither stakes nor pays, a refund that is due can be claimed and is paid in full |
| StakeRuns.PromisesKeptIff | contracts/eosio.system/delegate_bandwidth.cpp:341-349 | In every such run in the order of time every pending refund stays scheduled exactly if no stake leaves its owner's refund aside |
| StakeRuns.RefundLeftAside | contracts/eosio.system/delegate_bandwidth.cpp:341-349 | Four actions from the start leave a refund pending with nothing scheduled |
| StakeRuns.StakedOutOfNothing | contracts/eosio.system/delegate_bandwidth.cpp:276-277 | From any start eosio.stake can stake without tokens, and then does not hold what is staked |
| StakeTheorems.SelfStakeUsesRefund | contracts/eosio.system/delegate_bandwidth.cpp:289-322 | Staking for oneself uses the pending refund first, net and cpu apart, and only then liquid tokens |
| StakeTheorems.StakeForOtherPays | contracts/eosio.system/delegate_bandwidth.cpp:289-355 | Staking for another leaves the refund alone and is paid in liquid tokens |
| StakeTheorems.UnstakeWaits | contracts/eosio.system/delegate_bandwidth.cpp:292-338 | What is unstaked is added to the refund, whose delay starts anew, and no tokens move |
| StakeTheorems.PromiseKept | contracts/eosio.system/delegate_bandwidth.cpp:341-349 | Every pending refund stays scheduled at a time it is due, except exactly when a stake not using it cancels it |
| StakeTheorems.VotesBackedByStakes | contracts/eosio.system/delegate_bandwidth.cpp:358-380 | In every run of staking, paying and voting the tallies are exact and each voter's weight is the sum of its delegations |
| StakeTables.Bank.SettleRefund | contracts/eosio.system/delegate_bandwidth.cpp:278-351 | The update of the refund row in place computes the settlement of the model |
| StakeTables.Bank.ChangeBw | contracts/eosio.system/delegate_bandwidth.cpp:211-381 | A change of bandwidth computes the step of the model, and an error leaves all tables as they were |
| StakeTables.Bank.RefundTokens | contracts/eosio.system/delegate_bandwidth.cpp:408-423 | Likewise for claiming a refund |
| StakeTables.Bank.MoveTokens | contracts/eosio.token/eosio.token.cpp:83-116 | A transfer debits and credits, or fails when the balance does not cover it |
| ForkLaws.CarriesLargest | unittests/forked_tests.cpp:348-437 | In every run the irreversible number of a block is the largest number of a block with a quorum that it is or builds on, 0 if there is none |
| ForkLaws.RunSound | libraries/chain/fork_database.cpp:126-347 | In every run confirmers are distinct members of the schedule, blocks hang together, and each block carries its own number or that of the previous block |
| ForkLaws.NeverFalls | libraries/chain/fork_database.cpp:291-347 | No event lowers the irreversible number of a block |
| ForkLaws.CarriedUpwards | libraries/chain/fork_database.cpp:302-347 | Blocks that build on each other carry numbers in order |
| ForkDatabase.RaiseLayer | libraries/chain/fork_database.cpp:323-341 | One layer of the traversal raises the blocks on top of the queue and queues exactly those it raised |
| ForkDatabase.RaiseAbove | libraries/chain/fork_database.cpp:309-347 | The traversal that stops at blocks already raised reaches every block on top |
| ForkDatabase.RemoveAbove | libraries/chain/fork_database.cpp:203-221 | The removal queue removes the block and exactly what builds on it |
| ForkDatabase.DropRivals | libraries/chain/fork_database.cpp:245-269 | Pruning removes the block, its rivals of the same number and what builds on them |
| ForkDatabase.ForkDb.Add | libraries/chain/fork_database.cpp:126-156 | A new block links to a known one and inherits its irreversible number |
| ForkDatabase.ForkDb.AddConfirmation | libraries/chain/fork_database.cpp:291-300 | A confirmation is taken once from each scheduled producer, and the quorum raises all blocks on top |
| ForkDatabase.ForkDb.Remove | libraries/chain/fork_database.cpp:203-221 | Removal keeps the tree sound |
| ForkDatabase.ForkDb.PruneOldest | libraries/chain/fork_database.cpp:126-140 | Pruning keeps the tree sound |
| Dpos.CalcLastIrreversible | libraries/chain/block_header_state.cpp:18-29 | The element a third into the sorted numbers is the largest number that a quorum of producers reaches |
| Dpos.IrreversibleUnique | libraries/chain/block_header_state.cpp:18-29 | There is only one such number |
| DposHeaders.CountersAgree | libraries/chain/block_header_state.cpp:71-87 | On every chain each counter is what the block needs less its confirmations counted from scratch |
| DposHeaders.ProposedIsNewest | libraries/chain/block_header_state.cpp:189-222 | On every chain the proposed block has all its confirmations and no newer tracked block has |
| DposHeaders.ProposedGrows | libraries/chain/block_header_state.cpp:189-222 | Proposals only move forward |
| DposHeaders.ConfirmersDiffer | libraries/chain/block_header_state.cpp:189-222 | Without double confirmation the confirmations of a block come from as many different producers |
| DposConfirms.AgainIff | libraries/chain/block_header_state.cpp:156-159 | On every chain, whatever schedules come and go, a block confirms again what its producer confirmed before exactly when it claims to confirm more blocks than there are |
| DposConfirms.NoneTwiceIff | libraries/chain/block_header_state.cpp:156-159 | No producer confirms a block twice exactly if none that made a block before makes such a claim |
| DposConfirms.ProposedHasQuorum | libraries/chain/block_header_state.cpp:189-222 | Then a proposed block was confirmed by a quorum of different producers |
| DposExamples.ConfirmsTwice | libraries/chain/block_header_state.cpp:156-159 | A chain on which a block is confirmed twice |
| DposHeaders.SetConfirmed | libraries/chain/block_header_state.cpp:189-222 | The loop from the newest counter down computes the model's counters and proposal |
| DposChain.NextKeepsIff | libraries/chain/block_header_state.cpp:65-69 | The next block keeps the last irreversible number exactly when at most a third less one of the producers that count, other than the one that makes it, lag behind |
| DposChain.NeverFallsIff | libraries/chain/block_header_state.cpp:92-125 | On every chain with changes of schedule the number never falls exactly if that holds at each change |
| DposChain.IrreversibleNeverFalls | libraries/chain/block_header_state.cpp:36-90 | As long as no new schedule takes over it never falls |
| DposExamples.PromotionLowers | libraries/chain/block_header_state.cpp:92-125 | A chain of ten blocks from the first one on which it falls from 5 to 3 |
| MessageBuffer.Buffer.Read | libraries/fc/include/fc/network/message_buffer.hpp:208-222 | Reads the first bytes of the queue across chunks, or fails and changes nothing |
| MessageBuffer.Buffer.Peek | libraries/fc/include/fc/network/message_buffer.hpp:228-242 | Reads ahead from an index and moves it by as much, or fails and moves nothing |
| MessageBuffer.Buffer.AdvanceReadPtr | libraries/fc/include/fc/network/message_buffer.hpp:160-173 | Drops bytes from the queue and the chunks behind them, and resets when all is read |
| MessageBuffer.Buffer.AdvanceWritePtr | libraries/fc/include/fc/network/message_buffer.hpp:179-185 | What was written becomes readable, and chunks are added so that room remains |
| MessageBuffer.Buffer.Fill | libraries/fc/include/fc/network/message_buffer.hpp:187-202 | Bytes arriving in the room leave the queue alone |
| MessageBuffer.Buffer.Write | unittests/message_buffer_tests.cpp:142-208 | Bytes written are appended to the queue |
| MessageBuffer.Buffer.BufferSequence | libraries/fc/include/fc/network/message_buffer.hpp:193-202 | The stretches handed out are the whole room, in order |
| MessageBuffer.Buffer.AddSpace | libraries/fc/include/fc/network/message_buffer.hpp:87-93 | At least that many more bytes can be written, and the queue is unchanged |
| MessageBuffer.Buffer.AddBufferToChain | libraries/fc/include/fc/network/message_buffer.hpp:77-80 | One more chunk of room |
| MessageBuffer.Buffer.Reset | libraries/fc/include/fc/network/message_buffer.hpp:99-117 | One chunk and an empty queue |
| MessageBuffer.Buffer.TotalBytes | libraries/fc/include/fc/network/message_buffer.hpp:148-150 | Total bytes are readable plus writable plus the read offset |
| MessageBuffer.Buffer.BytesToRead | libraries/fc/include/fc/network/message_buffer.hpp:123-133 | The length of the queue |
| MessageBuffer.Buffer.BytesToWrite | libraries/fc/include/fc/network/message_buffer.hpp:141-143 | The room, which is never zero |
| Chunks.AdvanceMoves | libraries/fc/include/fc/network/message_buffer.hpp:260-263 | Advancing an index moves its position by as many bytes, for every chunk length |
| NameSuffix.Suffix | unittests/misc_tests.cpp:36-64 | For every 64-bit value the result is the name itself if it has no actual dot, else the characters behind the last one, moved to the left |
| NameSuffix.FindLastDot | unittests/misc_tests.cpp:37-52 | The loop finds the last dot with another character behind it |
| NameSuffix.NoCarry | unittests/misc_tests.cpp:57-63 | The two parts that are added have no bit in common and stay within 64 bits |
| NameSuffix.SuffixUnique | unittests/misc_tests.cpp:36-64 | There is only one such result |
| NameSuffix.SuffixIdempotent | unittests/misc_tests.cpp:36-64 | Taking the suffix again changes nothing |
| NameSuffix.SuffixStarts | unittests/misc_tests.cpp:36-64 | But for the empty name it starts with a character other than a dot, and dots only end it |
| NameDots.SuffixOfText | unittests/misc_tests.cpp:68-75 | The suffix of a text with letters behind its last dot is the name of those letters, with anything or nothing in front of the dot |
| NameDots.LeadingDotCounts | unittests/misc_tests.cpp:54-55 | The suffix of ".abc" is "abc" |
| NameText.EncodePrinted | libraries/chain/name.cpp:18-33 | Every 64-bit value is the encoding of its text |
| NameText.PrintEncoded | libraries/chain/name.cpp:9-16 | A text comes back from its encoding exactly when it is canonical |
| NameText.StringToName | libraries/chain/include/eosio/chain/name.hpp:17-38 | The loop of shifts and ors computes the number of the symbols |
| NameText.ToText | libraries/chain/name.cpp:18-33 | The loop of masks and shifts prints the characters and drops the dots at the end |
| NameText.SetName | libraries/chain/name.cpp:9-16 | A name is accepted exactly when its text is canonical |
| NameOrder.OrderIsAlphabetic | unittests/misc_tests.cpp:538-585 | The order of the 64-bit values is that of the texts |
| MultisigLaws.ProvidedIsLastVote | contracts/eosio.msig/eosio.msig.cpp:62-89 | In every run, when each level is asked once, the approvals are the levels asked whose last vote was to approve |
| MultisigLaws.NothingLost | contracts/eosio.msig/eosio.msig.cpp:62-89 | In every run what is requested and what is provided is what was asked for |
| MultisigVotes.TellsIff | contracts/eosio.msig/eosio.msig.cpp:62-89 | In every run, however an open proposal goes on, its approvals are those of the last votes if and only if no level was asked twice |
| MultisigLaws.ProposalsConserved | contracts/eosio.msig/eosio.msig.cpp:19-133 | In every run a transaction was proposed as often as it was sent, is still open or was cancelled |
| MultisigLaws.ExecNeedsVotes | contracts/eosio.msig/eosio.msig.cpp:108-133 | A transaction is sent only if each level it declares is satisfied by the approving levels, under the permissions in force at that time, and it has not expired |
| MultisigLaws.HowProposalsEnd | contracts/eosio.msig/eosio.msig.cpp:91-133 | A proposal goes exactly when it is executed with the approvals it needs, or cancelled by its proposer or after it expired; only execution sends anything |
| MultisigContract.Contract.ProposeTrx | contracts/eosio.msig/eosio.msig.cpp:19-60 | Computes the step of the model |
| MultisigContract.Contract.ApproveTrx | contracts/eosio.msig/eosio.msig.cpp:62-75 | Computes the step of the model |
| MultisigContract.Contract.UnapproveTrx | contracts/eosio.msig/eosio.msig.cpp:77-89 | Computes the step of the model |
| MultisigContract.Contract.ExecTrx | contracts/eosio.msig/eosio.msig.cpp:108-133 | Computes the step of the model |
| MultisigContract.CheckAuthorization | libraries/chain/authorization_manager.cpp:498-519 | The loop accepts exactly when every declared level is satisfied |
| PermissionLaws.RunSound | unittests/auth_tests.cpp:96-226 | In every run the permissions of every account are a tree with unique names, rooted at its owner permission |
| PermissionLaws.UnderOwner | unittests/auth_tests.cpp:96-226 | Every permission is under the owner permission of its account |
| PermissionLaws.SatisfiesIsAbove | libraries/chain/include/eosio/chain/permission_object.hpp:50-71 | The walk accepts exactly the permission itself and its ancestors |
| PermissionLaws.RelevantIsAbove | libraries/chain/authorization_manager.cpp:479-489 | A permission may perform an action exactly when it is the linked permission or one of its ancestors |
| PermissionLaws.LinksResolveUnless | libraries/chain/eosio_contract.cpp:298-344 | Links keep naming a permission of their account, except exactly when a link is made to a name the account does not have |
| PermissionLaws.LinksResolveIff | libraries/chain/eosio_contract.cpp:298-344 | In every run all links lead to a permission of their account all the time exactly if no link is made to a name the account does not have |
| PermissionExamples.LinksAnyway | libraries/chain/eosio_contract.cpp:298-344 | An account can link its actions to a permission only another account has |
| PermissionExamples.DanglingLink | libraries/chain/eosio_contract.cpp:298-344 | Four actions from the start leave a link that leads nowhere |
| PermissionStore.Store.SatisfiesPermission | libraries/chain/include/eosio/chain/permission_object.hpp:50-71 | The loop up the parents ends, and finds exactly the ancestors |
| PermissionStore.Store.UpdatePermission | libraries/chain/eosio_contract.cpp:203-265 | Computes the step of the model and keeps the tree |
| PermissionStore.Store.DeletePermission | libraries/chain/eosio_contract.cpp:267-296 | Computes the step of the model and keeps the tree |
| PermissionStore.Store.CreateAccount | libraries/chain/authorization_manager.cpp:136-161 | Computes the step of the model and keeps the tree |
| Visitor.RunsAgree | unittests/misc_tests.cpp:233-268 | In every run undo by sizes leaves the list that undo by copies leaves, sizes are in order and within the list |
| Visitor.PermissionVisitor.Pop | unittests/misc_tests.cpp:252-259 | The list is what it was when the undo was pushed |
| Schedule.OneRunPerRound | unittests/producer_schedule_tests.cpp:18-22 | In each round every producer has one run of twelve slots, in the order of the schedule |
| Schedule.ProducerIndex | unittests/producer_schedule_tests.cpp:18-22 | The index is within the schedule |
| Schedule.NextRoundFirstBlock | unittests/producer_schedule_tests.cpp:33-43 | The loop ends at the least boundary after the head, where the first producer follows the last |
| Schedule.ExpectedTrails | unittests/database_tests.cpp:68-79 | The expected irreversible block ends a round, trails the head within its bounds and moves on with it |
| Schedule.QuorumAttainable | unittests/special_accounts_tests.cpp:55-62 | The threshold can be reached, and two quorums overlap in more than a third |
| Schedule.QuorumsShare | unittests/forked_tests.cpp:389-415 | Two blocks with a quorum under one schedule share more than a third of its producers as confirmers |

## Left out

- Signatures, hashes, keys and Merkle roots are opaque: ids and keys are numbers, and whether a signature is right is an input.
- Time-decayed vote weights: votes are counted at one moment in time, where all weights are multiples of what one token weighs.
- The vesting check of the account b1, the RAM market, RAM rows in the resource totals and producer pay.
- Asset amounts are unbounded integers; the overflow checks of assets and the wrap-around of block numbers at 32 bits are not modelled.
- The fork database keeps no head and no order by irreversible number; pruning may happen at any time to the oldest block, and writing the database to disk is not modelled.
- ForkDatabase.ForkDb.PruneOldest: takes the oldest block as its argument, because which of several oldest blocks comes first depends on the order of an index.
- MessageBuffer.Buffer.Peek: requires an index not beyond the write position; beyond it the unsigned difference of the code wraps around and the read leaves the chain.
- MessageBuffer.Buffer.AdvanceReadPtr: requires that no more is skipped than there is to read, which the code does not check.
- The message buffer ends the process when it has more than a million chunks, and its byte counts wrap at 32 bits; chunks are sequences of bytes, so that pointers into them are not modelled.
- AbiRoundTrip.RoundTrip: needs every struct met in values of the type to have a base or to begin with a field that is not an extension, which `AbiLimits.HollowFails` shows to be needed, and every built-in type to have a reader that undoes its writer.
- The ABI codec leaves out reading unknown types as raw bytes, arrays of 2^32 items and more, time limits on serialization, and JSON text; type names are trees instead of strings with suffixes.
- AuthorityMarks.MarksSufficeUnlessLost: one way only; an acceptance whose keys were given back does no harm when the keys marked otherwise suffice, which depends on all weights and thresholds on the way to it.
- AuthorityExact.QueryExact: the condition is sufficient only; on other graphs `AuthorityCycles.WrongOnlyIf` says what a wrong verdict takes.
- MultisigContract.CheckAuthorization: takes the levels a transaction declares as given, without merging the delays and the check of each action's minimum permission, which the permission tree models.
- Authority checks leave out the time limit.
- PermissionStore.Store.UpdatePermission: the checks on the authority itself and on reserved names are an input; the validity of an authority is `Authorities.Validate`. The accounting of RAM is left out.
- AbiBytes.SameBytesIff: needs the names of all fields of a struct, those of its bases included, to differ, because a decoded object has one value for each name.
- The ABI generator, WASM execution, snapshots, network and wallet plugins, and the test harness.
