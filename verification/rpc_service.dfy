/**
 * The Sepolia RPC layer: a fixed pool of endpoints, a process-wide
 * rotation cursor, and the one-pass retry loops of `fetchBalance` and
 * `sendTransaction`, plus three single-attempt queries.
 *
 * Everything the blockchain library and the network do is opaque here:
 * it enters as function-valued parameters. A `Reply` is what one call
 * into the library or one request to an endpoint produced: an answer or
 * a thrown error. The network is a snapshot for the duration of one
 * operation: what each endpoint (by URL) answers to each request.
 */
module RpcService {
  import opened Wrappers

  const SepoliaRpcUrls: seq<string> := [
    "wss://ethereum-sepolia-rpc.publicnode.com",
    "https://eth-sepolia.g.alchemy.com/v2/demo",
    "https://sepolia.gateway.tenderly.co"
  ]

  const FetchBalanceFallback: string := "Failed to fetch balance from all RPC endpoints"
  const SendTransactionFallback: string := "Failed to send transaction from all RPC endpoints"
  const InvalidRecipientMessage: string := "Invalid recipient address"

  /** The fixed gas limit of a plain value transfer. */
  const TransferGasLimit: nat := 21000

  /** A thrown JavaScript `Error`; such an object is always truthy. */
  datatype Error = Error(message: string)

  /** What one library call or one endpoint request produced. */
  datatype Reply<+T> = Answer(value: T) | Fault(error: Error)

  /** How an exported operation ends: it returns a value or throws. */
  datatype Outcome<+T> = Returned(value: T) | Thrown(error: Error)

  /** The node's fee data; every field may be null. */
  datatype FeeData = FeeData(
    gasPrice: Option<nat>,
    maxFeePerGas: Option<nat>,
    maxPriorityFeePerGas: Option<nat>)

  /** The transfer handed to the signing wallet (amounts in wei). */
  datatype TransferRequest = TransferRequest(
    to: string,
    value: nat,
    gasLimit: nat,
    maxFeePerGas: Option<nat>,
    maxPriorityFeePerGas: Option<nat>)

  /** What `sendTransaction` returns on success. */
  datatype SentTransfer = SentTransfer(hash: string, from: string, to: string, value: string)

  /** The library functions the layer calls, none of which touches the network. */
  datatype Ethers = Ethers(
    newWallet: string -> Reply<string>,    // the signer's address for a private key, or the constructor's error
    isAddress: string -> bool,
    parseEther: string -> Reply<nat>,      // decimal ether string to wei
    formatEther: nat -> string,            // wei to decimal ether string
    formatGwei: nat -> string)             // wei to decimal gwei string

  /** How each endpoint (by URL) responds during one operation. */
  datatype Network = Network(
    getBalance: (string, string) -> Reply<nat>,                       // (url, address) to wei
    getFeeData: string -> Reply<FeeData>,                             // url
    sendTransaction: (string, string, TransferRequest) -> Reply<string>)  // (url, private key, request) to hash

  // ---------------------------------------------------------------------
  // Rotation

  /** One `rotateRpc` step. */
  function Rotate(cursor: nat, n: nat): (c: nat)
    requires 0 < n
    ensures c < n
  {
    (cursor + 1) % n
  }

  /** The cursor after `k` rotations starting from `cursor`. */
  function Rotations(cursor: nat, k: nat, n: nat): nat
    requires 0 < n
  {
    if k == 0 then cursor else Rotate(Rotations(cursor, k - 1, n), n)
  }

  lemma MulDistrib(a: int, b: int, n: int)
    ensures (a - b) * n == a * n - b * n
  {
  }

  lemma MulAtLeast(d: nat, n: nat)
    requires 1 <= d
    ensures n <= d * n
  {
    assert d * n == (d - 1) * n + n;
  }

  /** A remainder below n in a decomposition x == q * n + r is x % n. */
  lemma ModUnique(x: nat, n: nat, q: nat, r: nat)
    requires 0 < n && r < n && x == q * n + r
    ensures x % n == r
  {
    var q', r' := x / n, x % n;
    assert x == q' * n + r';
    if q' < q {
      MulDistrib(q, q', n);
      MulAtLeast(q - q', n);
    } else if q < q' {
      MulDistrib(q', q, n);
      MulAtLeast(q' - q, n);
    }
  }

  /** Adding one before or after reducing modulo n gives the same remainder. */
  lemma ModSucc(a: nat, n: nat)
    requires 0 < n
    ensures (a % n + 1) % n == (a + 1) % n
  {
    var q, r := a / n, a % n;
    assert a == q * n + r;
    if r + 1 < n {
      ModUnique(a + 1, n, q, r + 1);
      ModUnique(r + 1, n, 0, r + 1);
    } else {
      assert a + 1 == (q + 1) * n + 0;
      ModUnique(a + 1, n, q + 1, 0);
      ModUnique(r + 1, n, 1, 0);
    }
  }

  /** The k-th rotation from cursor i lands on (i + k) mod n. */
  lemma {:induction false} RotationsAdvance(cursor: nat, k: nat, n: nat)
    requires 0 < n && cursor < n
    ensures Rotations(cursor, k, n) == (cursor + k) % n
  {
    if k == 0 {
      ModUnique(cursor, n, 0, cursor);
    } else {
      var before := Rotations(cursor, k - 1, n);
      RotationsAdvance(cursor, k - 1, n);
      ModSucc(cursor + (k - 1), n);
      calc {
        Rotations(cursor, k, n);
        Rotate(before, n);
        (before + 1) % n;
        ((cursor + (k - 1)) % n + 1) % n;
        (cursor + (k - 1) + 1) % n;
      }
    }
  }

  /** n rotations over a pool of n endpoints bring the cursor back. */
  lemma FullCycle(cursor: nat, n: nat)
    requires 0 < n && cursor < n
    ensures Rotations(cursor, n, n) == cursor
  {
    RotationsAdvance(cursor, n, n);
    ModUnique(cursor + n, n, 1, cursor);
  }

  // ---------------------------------------------------------------------
  // One pass over the pool

  /** The endpoint the k-th attempt of a pass that starts at `start` uses. */
  function Endpoint(urls: seq<string>, start: nat, k: nat): string
    requires 0 < |urls|
  {
    urls[(start + k) % |urls|]
  }

  /** The reply the k-th attempt of a pass that starts at `start` gets. */
  function ReplyAt<T>(attempt: string -> Reply<T>, urls: seq<string>, start: nat, k: nat): Reply<T>
    requires 0 < |urls|
  {
    attempt(Endpoint(urls, start, k))
  }

  /** The first attempt from `from` on, within one pass, that is answered. */
  function FirstAnswer<T>(attempt: string -> Reply<T>, urls: seq<string>, start: nat, from: nat): (k: Option<nat>)
    requires 0 < |urls|
    decreases |urls| - from
    ensures k.Some? ==> from <= k.value < |urls| && ReplyAt(attempt, urls, start, k.value).Answer?
    ensures k.Some? ==> forall j :: from <= j < k.value ==> ReplyAt(attempt, urls, start, j).Fault?
    ensures k.None? ==> forall j :: from <= j < |urls| ==> ReplyAt(attempt, urls, start, j).Fault?
  {
    if from >= |urls| then None
    else if ReplyAt(attempt, urls, start, from).Answer? then Some(from)
    else FirstAnswer(attempt, urls, start, from + 1)
  }

  /** The first answered attempt is the one all earlier attempts failed before. */
  lemma FirstAnswerIs<T>(attempt: string -> Reply<T>, urls: seq<string>, start: nat, k: nat)
    requires k < |urls| && ReplyAt(attempt, urls, start, k).Answer?
    requires forall j :: 0 <= j < k ==> ReplyAt(attempt, urls, start, j).Fault?
    ensures FirstAnswer(attempt, urls, start, 0) == Some(k)
  {
    var r := FirstAnswer(attempt, urls, start, 0);
    if r != Some(k) {
      assert r.Some? ==> r.value >= k;
    }
  }

  /**
   * What one pass over `urls` from cursor `start` leaves behind: `tried`
   * lists the endpoints contacted, in order. The first answered attempt
   * `k` is returned, after exactly `k` rotations; when every attempt
   * fails, the last attempt's error is thrown and the cursor is back at
   * `start`.
   */
  ghost predicate OnePass<T>(attempt: string -> Reply<T>, urls: seq<string>, start: nat,
                             result: Outcome<T>, cursor: nat, tried: seq<string>)
    requires 0 < |urls|
  {
    && 0 < |tried| <= |urls|
    && (forall j :: 0 <= j < |tried| ==> tried[j] == Endpoint(urls, start, j))
    && match FirstAnswer(attempt, urls, start, 0)
       case Some(k) =>
         && |tried| == k + 1
         && cursor == Rotations(start, k, |urls|)
         && cursor == (start + k) % |urls|
         && result == Returned(ReplyAt(attempt, urls, start, k).value)
       case None =>
         && |tried| == |urls|
         && cursor == Rotations(start, |urls|, |urls|)
         && cursor == start
         && result == Thrown(ReplyAt(attempt, urls, start, |urls| - 1).error)
  }

  /** A pass ends on the endpoint that answered, or on its starting point. */
  lemma OnePassCursor<T>(attempt: string -> Reply<T>, urls: seq<string>, start: nat,
                         result: Outcome<T>, cursor: nat, tried: seq<string>)
    requires 0 < |urls| && start < |urls|
    requires OnePass(attempt, urls, start, result, cursor, tried)
    ensures cursor < |urls|
    ensures result.Returned? ==> urls[cursor] == tried[|tried| - 1]
    ensures result.Returned? ==> attempt(urls[cursor]) == Answer(result.value)
    ensures result.Thrown? ==> cursor == start && |tried| == |urls|
  {
  }

  /**
   * A thrown error always comes from an endpoint's failed attempt, so
   * the `new Error(...)` fallback is never thrown by a non-empty pool.
   */
  lemma ThrownErrorIsLastAttempts<T>(attempt: string -> Reply<T>, urls: seq<string>, start: nat,
                                     result: Outcome<T>, cursor: nat, tried: seq<string>)
    requires 0 < |urls|
    requires OnePass(attempt, urls, start, result, cursor, tried)
    requires result.Thrown?
    ensures attempt(tried[|tried| - 1]) == Fault(result.error)
    ensures forall j :: 0 <= j < |tried| ==> attempt(tried[j]).Fault?
  {
    var k := FirstAnswer(attempt, urls, start, 0);
    assert k.None?;
    forall j | 0 <= j < |tried| ensures attempt(tried[j]).Fault? {
      assert tried[j] == Endpoint(urls, start, j);
      assert ReplyAt(attempt, urls, start, j).Fault?;
    }
  }

  // ---------------------------------------------------------------------
  // The two retried operations' single attempts

  /** One attempt of `fetchBalance` at endpoint `url`. */
  function BalanceAttempt(lib: Ethers, net: Network, address: string, url: string): (r: Reply<string>)
    ensures r.Answer? <==> net.getBalance(url, address).Answer?
    ensures r.Answer? ==> r.value == lib.formatEther(net.getBalance(url, address).value)
    ensures r.Fault? ==> r.error == net.getBalance(url, address).error
  {
    match net.getBalance(url, address)
    case Answer(wei) => Answer(lib.formatEther(wei))
    case Fault(e) => Fault(e)
  }

  function BalanceAttempts(lib: Ethers, net: Network, address: string): string -> Reply<string>
  {
    url => BalanceAttempt(lib, net, address, url)
  }

  /** The request one `sendTransaction` attempt hands to the signing wallet. */
  function TransferFor(toAddress: string, wei: nat, fee: FeeData): TransferRequest
  {
    TransferRequest(toAddress, wei, TransferGasLimit, fee.maxFeePerGas, fee.maxPriorityFeePerGas)
  }

  /**
   * One attempt of `sendTransaction` at endpoint `url`, with everything
   * the source puts inside its `try`: wallet construction, the recipient
   * check, amount parsing, the fee query and the send.
   */
  function SendAttempt(lib: Ethers, net: Network, privateKey: string, toAddress: string, amount: string,
                       url: string): (r: Reply<SentTransfer>)
    // a malformed key fails first, before the recipient is looked at
    ensures lib.newWallet(privateKey).Fault? ==> r == Fault(lib.newWallet(privateKey).error)
    ensures lib.newWallet(privateKey).Answer? && !lib.isAddress(toAddress) ==>
      r == Fault(Error(InvalidRecipientMessage))
    // a success echoes the caller's strings, names the signer, and carries the hash
    // the endpoint gave for a 21000-gas transfer priced from that endpoint's fee data
    ensures r.Answer? ==>
      && lib.newWallet(privateKey).Answer? && lib.isAddress(toAddress)
      && lib.parseEther(amount).Answer? && net.getFeeData(url).Answer?
      && r.value.from == lib.newWallet(privateKey).value
      && r.value.to == toAddress && r.value.value == amount
      && net.sendTransaction(url, privateKey,
           TransferFor(toAddress, lib.parseEther(amount).value, net.getFeeData(url).value))
         == Answer(r.value.hash)
  {
    match lib.newWallet(privateKey)
    case Fault(e) => Fault(e)
    case Answer(from) =>
      if !lib.isAddress(toAddress) then Fault(Error(InvalidRecipientMessage))
      else
        match lib.parseEther(amount)
        case Fault(e) => Fault(e)
        case Answer(wei) =>
          match net.getFeeData(url)
          case Fault(e) => Fault(e)
          case Answer(fee) =>
            match net.sendTransaction(url, privateKey, TransferFor(toAddress, wei, fee))
            case Fault(e) => Fault(e)
            case Answer(hash) => Answer(SentTransfer(hash, from, toAddress, amount))
  }

  function SendAttempts(lib: Ethers, net: Network, privateKey: string, toAddress: string,
                        amount: string): string -> Reply<SentTransfer>
  {
    url => SendAttempt(lib, net, privateKey, toAddress, amount, url)
  }

  /**
   * With a valid key and a malformed recipient, an attempt fails with the
   * recipient error whatever the network would do: no fee query and no
   * send is made.
   */
  lemma InvalidRecipientSendsNothing(lib: Ethers, net: Network, other: Network, privateKey: string,
                                     toAddress: string, amount: string, url: string)
    requires lib.newWallet(privateKey).Answer? && !lib.isAddress(toAddress)
    ensures SendAttempt(lib, net, privateKey, toAddress, amount, url)
         == SendAttempt(lib, other, privateKey, toAddress, amount, url)
         == Fault(Error(InvalidRecipientMessage))
  {
  }

  // ---------------------------------------------------------------------
  // The endpoint pool

  /** The module-level endpoint list and its rotation cursor `currentRpcIndex`. */
  class RpcPool {
    const urls: seq<string>
    var currentRpcIndex: nat

    ghost predicate Valid()
      reads this
    {
      0 < |urls| && currentRpcIndex < |urls|
    }

    /** Module initialisation: the Sepolia list, cursor at 0. */
    constructor ()
      ensures Valid()
      ensures urls == SepoliaRpcUrls && currentRpcIndex == 0
    {
      urls := SepoliaRpcUrls;
      currentRpcIndex := 0;
    }

    /** The URL of the provider `getSepoliaProvider` builds; the cursor only is read. */
    method GetSepoliaProvider() returns (url: string)
      requires Valid()
      ensures url == urls[currentRpcIndex]
      ensures url in urls
    {
      url := urls[currentRpcIndex];
    }

    method RotateRpc()
      requires Valid()
      modifies this`currentRpcIndex
      ensures Valid()
      ensures currentRpcIndex == Rotate(old(currentRpcIndex), |urls|)
      ensures currentRpcIndex == (old(currentRpcIndex) + 1) % |urls|
    {
      currentRpcIndex := (currentRpcIndex + 1) % |urls|;
    }

    /**
     * The loop `fetchBalance` and `sendTransaction` share: one attempt per
     * pool entry, starting at the cursor; a caught error is recorded as
     * `lastError` and rotates the cursor; the first answer is returned;
     * after the pass, `lastError || new Error(fallback)` is thrown.
     */
    method RetryPass<T>(attempt: string -> Reply<T>, fallback: string)
      returns (result: Outcome<T>, ghost tried: seq<string>)
      requires Valid()
      modifies this`currentRpcIndex
      ensures Valid()
      ensures OnePass(attempt, urls, old(currentRpcIndex), result, currentRpcIndex, tried)
    {
      ghost var start := currentRpcIndex;
      var lastError: Option<Error> := None;
      tried := [];
      var i := 0;
      while i < |urls|
        invariant Valid()
        invariant 0 <= i <= |urls| && |tried| == i
        invariant currentRpcIndex == Rotations(start, i, |urls|)
        invariant forall j :: 0 <= j < i ==> tried[j] == Endpoint(urls, start, j)
        invariant forall j :: 0 <= j < i ==> ReplyAt(attempt, urls, start, j).Fault?
        invariant i == 0 ==> lastError == None
        invariant i > 0 ==> lastError == Some(ReplyAt(attempt, urls, start, i - 1).error)
      {
        RotationsAdvance(start, i, |urls|);
        var url := GetSepoliaProvider();
        tried := tried + [url];
        var reply := attempt(url);
        if reply.Answer? {
          result := Returned(reply.value);
          FirstAnswerIs(attempt, urls, start, i);
          return;
        }
        lastError := Some(reply.error);
        RotateRpc();
        i := i + 1;
      }
      FullCycle(start, |urls|);
      result := Thrown(if lastError.Some? then lastError.value else Error(fallback));
    }

    /** `fetchBalance(address)`: the balance, in ether, of the first endpoint that answers. */
    method FetchBalance(lib: Ethers, net: Network, address: string)
      returns (result: Outcome<string>, ghost tried: seq<string>)
      requires Valid()
      modifies this`currentRpcIndex
      ensures Valid()
      ensures OnePass(BalanceAttempts(lib, net, address), urls, old(currentRpcIndex), result, currentRpcIndex, tried)
      ensures result.Returned? ==>
        net.getBalance(urls[currentRpcIndex], address).Answer? &&
        result.value == lib.formatEther(net.getBalance(urls[currentRpcIndex], address).value)
    {
      ghost var start := currentRpcIndex;
      result, tried := RetryPass(BalanceAttempts(lib, net, address), FetchBalanceFallback);
      OnePassCursor(BalanceAttempts(lib, net, address), urls, start, result, currentRpcIndex, tried);
    }

    /** `sendTransaction(privateKey, toAddress, amount)`. */
    method SendTransaction(lib: Ethers, net: Network, privateKey: string, toAddress: string, amount: string)
      returns (result: Outcome<SentTransfer>, ghost tried: seq<string>)
      requires Valid()
      modifies this`currentRpcIndex
      ensures Valid()
      ensures OnePass(SendAttempts(lib, net, privateKey, toAddress, amount), urls, old(currentRpcIndex),
                      result, currentRpcIndex, tried)
      ensures result.Returned? ==>
        result.value.from == lib.newWallet(privateKey).value &&
        result.value.to == toAddress && result.value.value == amount
      // the recipient check sits inside the `try`: it is retried on every endpoint
      ensures lib.newWallet(privateKey).Answer? && !lib.isAddress(toAddress) ==>
        && result == Thrown(Error(InvalidRecipientMessage))
        && currentRpcIndex == old(currentRpcIndex)
        && |tried| == |urls|
    {
      ghost var start := currentRpcIndex;
      var attempts := SendAttempts(lib, net, privateKey, toAddress, amount);
      result, tried := RetryPass(attempts, SendTransactionFallback);
      OnePassCursor(attempts, urls, start, result, currentRpcIndex, tried);
      if result.Returned? {
        assert attempts(urls[currentRpcIndex]) == Answer(result.value);
      }
      if lib.newWallet(privateKey).Answer? && !lib.isAddress(toAddress) {
        assert ReplyAt(attempts, urls, start, 0).Fault?;
        assert FirstAnswer(attempts, urls, start, 0).None?;
      }
    }

    /** `getTransactionReceipt`: one attempt at the current endpoint; an error gives null. */
    method GetTransactionReceipt<R>(getReceipt: (string, string) -> Reply<Option<R>>, txHash: string)
      returns (receipt: Option<R>)
      requires Valid()
      ensures getReceipt(urls[currentRpcIndex], txHash).Answer? ==>
        receipt == getReceipt(urls[currentRpcIndex], txHash).value
      ensures getReceipt(urls[currentRpcIndex], txHash).Fault? ==> receipt == None
    {
      var url := GetSepoliaProvider();
      match getReceipt(url, txHash)
      case Answer(r) => receipt := r;
      case Fault(_) => receipt := None;
    }

    /** `waitForTransaction`: one wait at the current endpoint; an error gives null. */
    method WaitForTransaction<R>(wait: (string, string, nat) -> Reply<Option<R>>, txHash: string,
                                 confirmations: nat := 1)
      returns (receipt: Option<R>)
      requires Valid()
      ensures wait(urls[currentRpcIndex], txHash, confirmations).Answer? ==>
        receipt == wait(urls[currentRpcIndex], txHash, confirmations).value
      ensures wait(urls[currentRpcIndex], txHash, confirmations).Fault? ==> receipt == None
    {
      var url := GetSepoliaProvider();
      match wait(url, txHash, confirmations)
      case Answer(r) => receipt := r;
      case Fault(_) => receipt := None;
    }

    /**
     * `getGasPrice`: the current endpoint's gas price in gwei, or "0" when
     * the query fails or the price is null or zero (`0n` is falsy).
     */
    method GetGasPrice(lib: Ethers, net: Network) returns (gwei: string)
      requires Valid()
      ensures gwei != "0" ==>
        && net.getFeeData(urls[currentRpcIndex]).Answer?
        && net.getFeeData(urls[currentRpcIndex]).value.gasPrice.Some?
        && gwei == lib.formatGwei(net.getFeeData(urls[currentRpcIndex]).value.gasPrice.value)
      ensures net.getFeeData(urls[currentRpcIndex]).Fault? ==> gwei == "0"
      ensures net.getFeeData(urls[currentRpcIndex]).Answer? ==>
        var price := net.getFeeData(urls[currentRpcIndex]).value.gasPrice;
        gwei == if price.Some? && price.value != 0 then lib.formatGwei(price.value) else "0"
    {
      var url := GetSepoliaProvider();
      match net.getFeeData(url)
      case Fault(_) => gwei := "0";
      case Answer(fee) =>
        if fee.gasPrice.Some? && fee.gasPrice.value != 0 {
          gwei := lib.formatGwei(fee.gasPrice.value);
        } else {
          gwei := "0";
        }
    }
  }

  /**
   * The pool [A, B, C] with A and B failing and C answering: the balance
   * is C's, the cursor ends on C, and three endpoints were contacted.
   */
  method ThirdEndpointAnswers(lib: Ethers) returns (result: Outcome<string>, cursor: nat, ghost tried: seq<string>)
    ensures result == Returned(lib.formatEther(1500))
    ensures cursor == 2
    ensures tried == SepoliaRpcUrls
  {
    var pool := new RpcPool();
    var net := Network(
      (url: string, address: string) =>
        if url == SepoliaRpcUrls[2] then Answer(1500) else Fault(Error("timeout")),
      (url: string) => Fault(Error("timeout")),
      (url: string, key: string, req: TransferRequest) => Fault(Error("timeout")));
    result, tried := pool.FetchBalance(lib, net, "0xabc");
    cursor := pool.currentRpcIndex;
    ghost var attempts := BalanceAttempts(lib, net, "0xabc");
    assert ReplyAt(attempts, SepoliaRpcUrls, 0, 0).Fault?;
    assert ReplyAt(attempts, SepoliaRpcUrls, 0, 1).Fault?;
    assert ReplyAt(attempts, SepoliaRpcUrls, 0, 2).Answer?;
    FirstAnswerIs(attempts, SepoliaRpcUrls, 0, 2);
  }
}
