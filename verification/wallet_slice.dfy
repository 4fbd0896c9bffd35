/**
 * The wallet session state and its nine reducers. Each reducer assigns
 * fields of the state in place, so the state is a class whose methods
 * name exactly the fields they may change; the transaction ledger is a
 * sequence field, newest first.
 */
module WalletSlice {
  import opened Wrappers

  datatype Status = Pending | Confirmed | Failed

  /** One submitted transfer as the ledger records it. */
  datatype Transaction = Transaction(
    hash: string,
    from: string,
    to: string,
    value: string,
    timestamp: int,
    status: Status)

  type Ledger = seq<Transaction>

  /** `i` is the position of the first record of `ledger` whose hash is `hash`. */
  ghost predicate IsFirstMatch(ledger: Ledger, hash: string, i: nat)
  {
    && i < |ledger|
    && ledger[i].hash == hash
    && forall j :: 0 <= j < i ==> ledger[j].hash != hash
  }

  /** The record `find` selects: the first one carrying `hash`, if any. */
  function FirstMatch(ledger: Ledger, hash: string): (r: Option<nat>)
    ensures r.Some? ==> IsFirstMatch(ledger, hash, r.value)
    ensures r.None? <==> forall j :: 0 <= j < |ledger| ==> ledger[j].hash != hash
  {
    if ledger == [] then None
    else if ledger[0].hash == hash then Some(0)
    else match FirstMatch(ledger[1..], hash)
      case None => None
      case Some(i) => Some(i + 1)
  }

  /** The first match is unique. */
  lemma FirstMatchUnique(ledger: Ledger, hash: string, i: nat)
    requires IsFirstMatch(ledger, hash, i)
    ensures FirstMatch(ledger, hash) == Some(i)
  {
  }

  /**
   * The ledger after `updateTransaction(hash, status)`: the first record
   * carrying `hash` gets the new status, nothing else changes.
   */
  function WithStatus(ledger: Ledger, hash: string, status: Status): (r: Ledger)
    ensures |r| == |ledger|
    ensures forall i :: 0 <= i < |ledger| ==>
      r[i] == if IsFirstMatch(ledger, hash, i) then ledger[i].(status := status) else ledger[i]
    ensures (forall j :: 0 <= j < |ledger| ==> ledger[j].hash != hash) ==> r == ledger
  {
    match FirstMatch(ledger, hash)
    case None => ledger
    case Some(k) =>
      var r := ledger[k := ledger[k].(status := status)];
      assert forall i :: 0 <= i < |ledger| && i != k ==> !IsFirstMatch(ledger, hash, i) by {
        forall i | 0 <= i < |ledger| && i != k && IsFirstMatch(ledger, hash, i)
          ensures false
        {
          FirstMatchUnique(ledger, hash, i);
        }
      }
      r
  }

  /** A status update never changes which records carry which hash. */
  lemma WithStatusKeepsHashes(ledger: Ledger, hash: string, status: Status)
    ensures forall i :: 0 <= i < |ledger| ==> WithStatus(ledger, hash, status)[i].hash == ledger[i].hash
  {
    var r := WithStatus(ledger, hash, status);
    forall i | 0 <= i < |ledger| ensures r[i].hash == ledger[i].hash {
      assert r[i] == if IsFirstMatch(ledger, hash, i) then ledger[i].(status := status) else ledger[i];
    }
  }

  /** Applying the same update twice gives the same ledger as applying it once. */
  lemma WithStatusIdempotent(ledger: Ledger, hash: string, status: Status)
    ensures WithStatus(WithStatus(ledger, hash, status), hash, status) == WithStatus(ledger, hash, status)
  {
    var once := WithStatus(ledger, hash, status);
    var twice := WithStatus(once, hash, status);
    WithStatusKeepsHashes(ledger, hash, status);
    forall i | 0 <= i < |ledger|
      ensures IsFirstMatch(once, hash, i) == IsFirstMatch(ledger, hash, i)
    {
    }
    forall i | 0 <= i < |ledger| ensures twice[i] == once[i] {
      if IsFirstMatch(ledger, hash, i) {
        assert once[i].status == status;
      }
    }
  }

  /** The search `state.transactions.find((tx) => tx.hash === hash)` performs. */
  method FindTransaction(ledger: Ledger, hash: string) returns (found: Option<nat>)
    ensures found.Some? ==> IsFirstMatch(ledger, hash, found.value)
    ensures found.None? ==> forall j :: 0 <= j < |ledger| ==> ledger[j].hash != hash
    ensures found == FirstMatch(ledger, hash)
  {
    var i := 0;
    while i < |ledger|
      invariant i <= |ledger|
      invariant forall j :: 0 <= j < i ==> ledger[j].hash != hash
    {
      if ledger[i].hash == hash {
        FirstMatchUnique(ledger, hash, i);
        return Some(i);
      }
      i := i + 1;
    }
    return None;
  }

  /** The wallet slice of the store. */
  class WalletState {
    var address: Option<string>
    var balance: string
    var privateKey: Option<string>
    var isLoading: bool
    var error: Option<string>
    var transactions: Ledger

    /** The initial state: no wallet, balance "0", not loading, no error, empty ledger. */
    constructor ()
      ensures address == None && privateKey == None
      ensures balance == "0" && !isLoading && error == None
      ensures transactions == []
    {
      address := None;
      balance := "0";
      privateKey := None;
      isLoading := false;
      error := None;
      transactions := [];
    }

    method SetWallet(newAddress: string, newPrivateKey: string)
      modifies this`address, this`privateKey, this`error
      ensures address == Some(newAddress) && privateKey == Some(newPrivateKey)
      ensures error == None
      ensures balance == old(balance) && isLoading == old(isLoading)
      ensures transactions == old(transactions)
    {
      address := Some(newAddress);
      privateKey := Some(newPrivateKey);
      error := None;
    }

    /** Logout: forgets the credential, balance and ledger; the loading flag is kept. */
    method ClearWallet()
      modifies this`address, this`privateKey, this`balance, this`transactions, this`error
      ensures address == None && privateKey == None
      ensures balance == "0" && transactions == [] && error == None
      ensures isLoading == old(isLoading)
    {
      address := None;
      privateKey := None;
      balance := "0";
      transactions := [];
      error := None;
    }

    method SetBalance(newBalance: string)
      modifies this`balance
      ensures balance == newBalance
      ensures address == old(address) && privateKey == old(privateKey)
      ensures isLoading == old(isLoading) && error == old(error)
      ensures transactions == old(transactions)
    {
      balance := newBalance;
    }

    method SetLoading(loading: bool)
      modifies this`isLoading
      ensures isLoading == loading
      ensures address == old(address) && privateKey == old(privateKey)
      ensures balance == old(balance) && error == old(error)
      ensures transactions == old(transactions)
    {
      isLoading := loading;
    }

    /** Records an error and always ends any loading phase. */
    method SetError(message: string)
      modifies this`error, this`isLoading
      ensures error == Some(message) && !isLoading
      ensures address == old(address) && privateKey == old(privateKey)
      ensures balance == old(balance) && transactions == old(transactions)
    {
      error := Some(message);
      isLoading := false;
    }

    method ClearError()
      modifies this`error
      ensures error == None
      ensures address == old(address) && privateKey == old(privateKey)
      ensures balance == old(balance) && isLoading == old(isLoading)
      ensures transactions == old(transactions)
    {
      error := None;
    }

    /** `unshift`: the new record goes in front; no record is lost or reordered. */
    method AddTransaction(tx: Transaction)
      modifies this`transactions
      ensures transactions == [tx] + old(transactions)
      ensures |transactions| == |old(transactions)| + 1
      ensures forall i :: 0 <= i < |old(transactions)| ==> transactions[i + 1] == old(transactions)[i]
      ensures address == old(address) && privateKey == old(privateKey)
      ensures balance == old(balance) && isLoading == old(isLoading) && error == old(error)
    {
      transactions := [tx] + transactions;
    }

    /**
     * Sets the status of the first record carrying `hash`; a hash that is
     * not in the ledger is silently ignored.
     */
    method UpdateTransaction(hash: string, status: Status)
      modifies this`transactions
      ensures transactions == WithStatus(old(transactions), hash, status)
      ensures |transactions| == |old(transactions)|
      ensures (forall j :: 0 <= j < |old(transactions)| ==> old(transactions)[j].hash != hash) ==>
        transactions == old(transactions)
      ensures address == old(address) && privateKey == old(privateKey)
      ensures balance == old(balance) && isLoading == old(isLoading) && error == old(error)
    {
      var found := FindTransaction(transactions, hash);
      match found
      case None =>
      case Some(i) =>
        transactions := transactions[i := transactions[i].(status := status)];
    }

    method ClearTransactions()
      modifies this`transactions
      ensures transactions == []
      ensures address == old(address) && privateKey == old(privateKey)
      ensures balance == old(balance) && isLoading == old(isLoading) && error == old(error)
    {
      transactions := [];
    }
  }

  /** Dispatching the same status update twice leaves the slice as one dispatch does. */
  method RepeatedUpdate(w: WalletState, hash: string, status: Status)
    modifies w`transactions
    ensures w.transactions == WithStatus(old(w.transactions), hash, status)
  {
    w.UpdateTransaction(hash, status);
    w.UpdateTransaction(hash, status);
    WithStatusIdempotent(old(w.transactions), hash, status);
  }
}
