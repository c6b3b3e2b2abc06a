# HelloWorld contract, modelled in Dafny

This project models the `HelloWorld` contract of the Phala enclave runtime
(`pruntime/enclave/src/contracts/helloworld.rs`). The contract's state is
one map, `whisper`, from account to string. It is driven by two operations:

- `handle_command` applies a `SetWhisper { whisper }` transaction from the
  ledger. It stores the string under the transaction's origin, overwriting
  any earlier entry, and always returns `TransactionStatus::Ok`.
- `handle_query` answers `GetWhisper`. A caller that gives an origin and has
  an entry gets `Response::GetWhisper { whisper }` with its own entry. Every
  other caller gets `Response::Error(Error::NotAuthorized)`. The inner
  closure's `Result` is folded into a `Response`, so a query never fails in
  any other way, and `Error::SomeOtherError` is never produced.

Files:

- `wrappers.dfy` (module `Wrappers`): `Option` and `Result`, as in Rust.
- `helloworld.dfy` (module `HelloWorldContract`): the types `Command`,
  `Request`, `Response`, `Error`, `TransactionStatus` and `TxRef`. Then the
  pure step `Apply` (what one command does to the map) and the pure answer
  `Query` (what a query returns). Then the class `HelloWorld`, whose
  `whisper` field its methods update in place. Last, the one-step lemmas and
  the example session.
- `command_log.dfy` (module `CommandLog`): the state as a function of the
  ordered transaction log (`Replay`). It proves what a query returns after
  any log. It also proves that an account's readable entry depends only on
  that account's own transactions.

`HandleQuery` has no `modifies` clause, although the Rust method takes
`&mut self`. Dafny therefore checks that the query leaves the state alone.

The code stores a Rust `String`, so the model uses `string`.

## Model

| member | source | states |
|---|---|---|
| `HelloWorldContract.Apply` | pruntime/enclave/src/contracts/helloworld.rs:68-72 | the origin's entry becomes the new whisper, whether or not it existed; the key set grows by the origin only; every other entry keeps its value |
| `HelloWorldContract.Query` | pruntime/enclave/src/contracts/helloworld.rs:80-106 | the response is `GetWhisper` exactly when an origin is given and has an entry, and then it carries that entry; otherwise it is an error, and the error is always `NotAuthorized` (never `SomeOtherError`) |
| `HelloWorldContract.HelloWorld.constructor` | pruntime/enclave/src/contracts/helloworld.rs:53-57 | a new contract has an empty whisper map |
| `HelloWorldContract.HelloWorld.HandleCommand` | pruntime/enclave/src/contracts/helloworld.rs:65-77 | the status is always `Ok`, and the new map is the old one with the origin's entry set to the command's whisper |
| `HelloWorldContract.HelloWorld.HandleQuery` | pruntime/enclave/src/contracts/helloworld.rs:80-106 | the inner result, with errors wrapped as `Response::Error`, equals `Query` on the current map; with no `modifies` clause, the state is unchanged |
| `HelloWorldContract.FreshContractRefusesQueries` | pruntime/enclave/src/contracts/helloworld.rs:55-57 | on the empty map every query, with or without an origin, returns `Error(NotAuthorized)` |
| `HelloWorldContract.AnonymousQueryRefused` | pruntime/enclave/src/contracts/helloworld.rs:86-98 | a query without an origin returns `Error(NotAuthorized)` in every state |
| `HelloWorldContract.ReadAfterWrite` | pruntime/enclave/src/contracts/helloworld.rs:72-95 | right after `a` sets `v`, a query by `a` returns `GetWhisper { whisper: v }` |
| `HelloWorldContract.LastWriteWins` | pruntime/enclave/src/contracts/helloworld.rs:72 | two writes by the same account leave the same map as the second write alone |
| `HelloWorldContract.WriteIsolation` | pruntime/enclave/src/contracts/helloworld.rs:72 | a write by `a` leaves another account's entry present or absent as before, with the same value, and leaves every query by that account unchanged |
| `HelloWorldContract.Session` | pruntime/enclave/src/contracts/helloworld.rs:65-106 | on a new contract, after `a` sets "hi": the command returns `Ok`, `a` reads "hi", and another account and an anonymous caller both get `NotAuthorized` |
| `CommandLog.ReplayAppend` | pruntime/enclave/src/contracts/helloworld.rs:65-77 | replaying two logs in turn gives the same state as replaying their concatenation |
| `CommandLog.ReplayEntry` | pruntime/enclave/src/contracts/helloworld.rs:72 | after any log, an account's entry is the whisper of its last transaction in the log; if it issued none, the entry is as before the log, present or absent |
| `CommandLog.QueryAfterLog` | pruntime/enclave/src/contracts/helloworld.rs:84-98 | after any log replayed on a new contract, a query by `a` returns `a`'s last whisper, or `NotAuthorized` if `a` issued no transaction |
| `CommandLog.IssuedBy` | pruntime/enclave/src/contracts/helloworld.rs:70-72 | a transaction is in the sub-log of an account exactly when it is in the log and was issued by that account |
| `CommandLog.LastWhisperIssuedBy` | pruntime/enclave/src/contracts/helloworld.rs:70-72 | an account's last whisper is the same in the full log and in the sub-log of its own transactions |
| `CommandLog.OthersDoNotAffect` | pruntime/enclave/src/contracts/helloworld.rs:70-72 | what an account reads after a log equals what it would read if only its own transactions were on the ledger |

## Left out

- Serialization: the `Serialize`/`Deserialize`/`Debug` derives and the wire format belong to the serialization library, which is not part of this model.
- `id()`: it only returns the registry constant `contracts::HELLO_WORLD`, which is defined outside this file.
- Account identities: `chain::AccountId` and `AccountIdWrapper` are defined elsewhere. The model uses a byte string compared by equality.
- `TxRef`: it is declared elsewhere and never read by the contract. The model uses a stand-in with a single position field.
- `TransactionStatus`: it is declared elsewhere. The model keeps `Ok`, the only status this contract returns, and one `Failed` constructor for all the others.
- `BTreeMap` key ordering and balancing: they do not affect behaviour, so the model uses a Dafny `map`.
- The replay driver and the query gateway are external callers. `Replay` states the state reached after an ordered log, but no method drives a contract through a log, since the contract itself has no such loop.
- Concurrency: the runtime serializes all calls to one contract, and this code has none.
