# Sepolia mobile wallet: session state and RPC fallback, in Dafny

This project models the two stateful parts of a small Ethereum (Sepolia test
network) mobile wallet and proves properties about them.

- **Wallet slice** (`wallet_slice.dfy`, module `WalletSlice`): the session
  state (`address`, `privateKey`, `balance`, `isLoading`, `error`) and the
  transaction ledger, newest first. The state is a class, `WalletState`. Each
  of the nine reducers is a method. Its `modifies` clause names exactly the
  fields it assigns, and its postcondition gives the new value of every field.
  `updateTransaction` finds the first record with a given hash and sets its
  status. The search is the method `FindTransaction`. The resulting ledger is
  specified by the function `WithStatus`, which is proved to preserve length
  and hashes and to be idempotent.
- **RPC layer** (`rpc_service.dfy`, module `RpcService`): the fixed list of
  three endpoint URLs and the rotation cursor `currentRpcIndex` form the class
  `RpcPool`. `rotateRpc` advances the cursor modulo the pool size.
  `fetchBalance` and `sendTransaction` each make one pass over the pool. They
  share one loop, `RetryPass`, which is proved against the predicate
  `OnePass`:
  - at most one attempt per endpoint, in pool order from the cursor;
  - the first answer is returned, and the cursor is left on the endpoint that
    gave it, after exactly k rotations;
  - when every attempt fails, the last attempt's error is thrown and the
    cursor is back where it started.

  So the `new Error(...)` fallback is never thrown by the non-empty pool.
  `getTransactionReceipt`, `waitForTransaction` and `getGasPrice` each make a
  single attempt. They never rotate the cursor, and they turn any error into
  `null` or `"0"`.

The blockchain library and the network are opaque. They are passed in as
function-valued parameters:
- `Ethers`: wallet construction from a private key, `isAddress`,
  `parseEther`, `formatEther`, `formatUnits(…, 'gwei')`;
- `Network`: `getBalance`, `getFeeData` and the signed send, each as seen at
  a given endpoint URL.
- The receipt queries of `getTransactionReceipt` and `waitForTransaction`
  are separate function parameters of those two methods, `(url, hash)` and
  `(url, hash, confirmations)`. The receipt type is then a type parameter,
  because no code in the wallet reads a receipt's fields.

A `Reply` is one call's answer or thrown error. An exported operation ends
in an `Outcome`: it returns a value or throws an `Error`.

Points where the code does something other than the obvious intent, and the
model follows the code:
- Recipient validation is deterministic, so one would expect it to fail at
  once. In `src/services/rpcService.ts:56-63`, however, the wallet
  construction and the `isAddress` check sit inside the `try`. So an invalid
  recipient is tried once on every endpoint and rotates the cursor each time.
  `RpcPool.SendTransaction` proves the result: with a well-formed key and a
  malformed recipient, `'Invalid recipient address'` is thrown after a full
  pass, with the cursor back where it started. `InvalidRecipientSendsNothing`
  proves that no fee query or send influences this outcome.
- A malformed private key fails in the wallet constructor. That happens
  before the recipient check, so its error takes precedence (`SendAttempt`).
- After a failed pass the code throws the last caught error itself, not a
  wrapper error, and the model does the same.
- `getGasPrice` tests `if (feeData.gasPrice)`. A zero price (`0n`) is falsy,
  so it gives `"0"`, just like a null price.

## Model

| member | source | states |
|---|---|---|
| `WalletSlice.FirstMatch` | src/redux/slices/walletSlice.ts:78 | the index `find` selects is the first record whose hash matches; no index means no record has that hash |
| `WalletSlice.FirstMatchUnique` | src/redux/slices/walletSlice.ts:78 | any index that is the first match is the one `find` selects |
| `WalletSlice.FindTransaction` | src/redux/slices/walletSlice.ts:78 | the search loop returns the first matching index, or none exactly when no record has the hash |
| `WalletSlice.WithStatus` | src/redux/slices/walletSlice.ts:74-82 | same length; the first record with the hash gets the new status and keeps every other field; every other record is unchanged; an absent hash leaves the ledger unchanged |
| `WalletSlice.WithStatusKeepsHashes` | src/redux/slices/walletSlice.ts:74-82 | a status update never changes any record's hash |
| `WalletSlice.WithStatusIdempotent` | src/redux/slices/walletSlice.ts:74-82 | applying the same `{hash, status}` twice gives the ledger one application gives |
| `WalletSlice.WalletState.constructor` | src/redux/slices/walletSlice.ts:21-28 | initial state: no address or key, balance `"0"`, not loading, no error, empty ledger |
| `WalletSlice.WalletState.SetWallet` | src/redux/slices/walletSlice.ts:35-39 | sets address and key from the payload and clears the error; balance, loading flag and ledger unchanged |
| `WalletSlice.WalletState.ClearWallet` | src/redux/slices/walletSlice.ts:41-47 | address and key null, balance `"0"`, ledger empty, error null; loading flag unchanged |
| `WalletSlice.WalletState.SetBalance` | src/redux/slices/walletSlice.ts:50-52 | only the balance changes |
| `WalletSlice.WalletState.SetLoading` | src/redux/slices/walletSlice.ts:55-57 | only the loading flag changes |
| `WalletSlice.WalletState.SetError` | src/redux/slices/walletSlice.ts:60-63 | sets the error and forces loading off; nothing else changes |
| `WalletSlice.WalletState.ClearError` | src/redux/slices/walletSlice.ts:65-67 | only the error changes, to null |
| `WalletSlice.WalletState.AddTransaction` | src/redux/slices/walletSlice.ts:70-72 | the ledger becomes `[tx] + old`: one longer, every old record shifted by one and in order; other fields unchanged |
| `WalletSlice.WalletState.UpdateTransaction` | src/redux/slices/walletSlice.ts:74-82 | the ledger becomes `WithStatus(old, hash, status)`; same length; an unknown hash changes nothing and does not fail; other fields unchanged |
| `WalletSlice.WalletState.ClearTransactions` | src/redux/slices/walletSlice.ts:84-86 | only the ledger changes, to empty |
| `WalletSlice.RepeatedUpdate` | src/redux/slices/walletSlice.ts:74-82 | dispatching the same update twice leaves the ledger one dispatch leaves |
| `RpcService.Rotate` | src/services/rpcService.ts:19-22 | one rotation keeps the cursor inside the pool |
| `RpcService.RotationsAdvance` | src/services/rpcService.ts:19-22 | for every k, k rotations from cursor i give `(i + k) mod N` |
| `RpcService.FullCycle` | src/services/rpcService.ts:19-22 | N rotations over a pool of N endpoints return the cursor to its start |
| `RpcService.FirstAnswer` | src/services/rpcService.ts:28-37 | the first answered attempt of a pass: it is answered and all earlier ones failed; none means every attempt of the pass failed |
| `RpcService.FirstAnswerIs` | src/services/rpcService.ts:28-37 | an answered attempt preceded only by failures is the first answer |
| `RpcService.OnePassCursor` | src/services/rpcService.ts:28-39 | after a pass the cursor is inside the pool; on success it points at the endpoint that answered, which is the last one contacted; on failure it is back at the start after N attempts |
| `RpcService.ThrownErrorIsLastAttempts` | src/services/rpcService.ts:39 | a thrown error is the last contacted endpoint's own error, and every contacted endpoint failed, so the fallback message is unreachable |
| `RpcService.BalanceAttempt` | src/services/rpcService.ts:29-32 | one `fetchBalance` attempt answers exactly when the endpoint's `getBalance` answers, with `formatEther` of the reported wei; otherwise it fails with the endpoint's own error |
| `RpcService.SendAttempt` | src/services/rpcService.ts:56-87 | a bad key fails first with its own error; with a good key, a malformed recipient fails with `'Invalid recipient address'`; a success has `from` = the signer's address, `to` and `value` = the caller's strings, and the hash the endpoint gave for a 21000-gas transfer priced from that endpoint's fee data |
| `RpcService.InvalidRecipientSendsNothing` | src/services/rpcService.ts:58-63 | with a good key and a malformed recipient, an attempt fails with the recipient error whatever the network does |
| `RpcService.RpcPool.constructor` | src/services/rpcService.ts:4-10 | the pool is the three Sepolia URLs, with the cursor at 0 |
| `RpcService.RpcPool.GetSepoliaProvider` | src/services/rpcService.ts:13-16 | the provider's URL is the pool entry at the cursor; the cursor is not changed |
| `RpcService.RpcPool.RotateRpc` | src/services/rpcService.ts:19-22 | the cursor becomes `(old + 1) mod N` and stays inside the pool |
| `RpcService.RpcPool.RetryPass` | src/services/rpcService.ts:28-39 | the shared loop satisfies `OnePass`: at most N attempts in pool order from the cursor; the first answer is returned after exactly k rotations; otherwise the last error is thrown and the cursor is back |
| `RpcService.RpcPool.FetchBalance` | src/services/rpcService.ts:25-40 | one pass of balance queries; a returned balance is `formatEther` of the wei the endpoint now under the cursor reported |
| `RpcService.RpcPool.SendTransaction` | src/services/rpcService.ts:43-95 | one pass of send attempts; a success echoes `to` and `value` and names the signer as `from`; with a good key and a malformed recipient it throws `'Invalid recipient address'` after N attempts, with the cursor back at its start |
| `RpcService.RpcPool.GetTransactionReceipt` | src/services/rpcService.ts:98-109 | one query at the current endpoint; its receipt or null is returned; an error gives null; the cursor is untouched |
| `RpcService.RpcPool.WaitForTransaction` | src/services/rpcService.ts:112-124 | one wait at the current endpoint, with 1 confirmation by default; an error gives null; the cursor is untouched |
| `RpcService.RpcPool.GetGasPrice` | src/services/rpcService.ts:127-139 | the current endpoint's gas price in gwei; `"0"` when the query fails or the price is null or zero; the cursor is untouched |
| `RpcService.ThirdEndpointAnswers` | src/services/rpcService.ts:25-40 | pool [A, B, C] where A and B fail and C answers: the result is C's balance, the cursor ends on C (index 2), and A, B, C were contacted in that order |

## Left out

- The network is a fixed snapshot for the duration of one operation: an endpoint's reply is a function of its URL and the request. Replies that change over time, latency and timeouts are not modelled.
- Concurrency: overlapping operations that share `currentRpcIndex` (for example the 30-second balance poll in the application shell) are not modelled; each operation runs alone.
- The internals of the blockchain library: key handling and address derivation, `isAddress`, `parseEther`, `formatEther`, `formatUnits`, signing and the JSON-RPC wire protocol. They are opaque function parameters.
- A provider object is identified by the URL it was built from. Building one is assumed not to throw on its own; any failure at an endpoint is part of that endpoint's reply.
- Thrown values are always `Error` objects. A falsy thrown value (`null`, `undefined`) would make `lastError || new Error(...)` use the fallback message; the library never throws such values, and the model does not represent them.
- `console.log`/`console.error` output, including the logging of transaction hashes and endpoints.
- `src/services/walletService.ts` (key generation and `AsyncStorage` persistence) is not part of this model, because it only wraps the library and storage. The screens in `App.tsx` and `src/components/` are not part of it either: rendering, navigation, alerts and the caller-side amount checks.
- The Redux plumbing (`createSlice`, action creators, the store): each reducer is modelled as a method on the state it updates.
