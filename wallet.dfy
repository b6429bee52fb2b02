/**
 * The wallet state the account screen works on: the payload's legacy
 * addresses and HD accounts, the balance cache kept by the multi-address
 * service, and the session's temporary second password.
 */
module WalletModel {

  /** Flat fee charged once per consolidation spend, in satoshi. */
  const AVERAGE_FEE: int := 10000
  /** Dust threshold: a post-fee amount must exceed it to be worth sending. */
  const DUST: int := 5460
  /** Tag value that marks a legacy address as archived. */
  const ARCHIVED_ADDRESS: int := 2
  /** Tag value given to freshly imported addresses. */
  const NORMAL_ADDRESS: int := 0

  newtype byte = b: int | 0 <= b < 256

  datatype Option<T> = None | Some(value: T)

  /** What the payload stores in a legacy address's key slot. */
  datatype KeySlot =
    | NoKey                              // watch-only: no private key known
    | PlainKey(bytes: seq<byte>)         // raw private key bytes (no second password)
    | DoubleEncrypted(cipher: string)    // Base58 key encrypted under the second password

  datatype LegacyAddress = LegacyAddress(
    address: string,
    name: string,
    tag: int,
    watchOnly: bool,
    encryptedKey: KeySlot)

  /** An HD account (`name` is its label); `imported` marks the synthetic ImportedAccount entry. */
  datatype Account = Account(name: string, xpub: string, archived: bool, imported: bool)

  /**
   * Foreign cryptography, given as functions: Base58 encoding of key bytes
   * and the second-password encryption (text, sharedKey, password, iterations).
   */
  datatype Crypto = Crypto(
    base58: seq<byte> -> string,
    encrypt: (string, string, string, int) -> string)

  /** A balance-cache lookup: a missing entry reads as 0. */
  function BalanceOf(cache: map<string, int>, key: string): (r: int)
    ensures key in cache ==> r == cache[key]
    ensures key !in cache ==> r == 0
  {
    if key in cache then cache[key] else 0
  }

  /** Recording a balance changes the lookup for that key only. */
  lemma BalanceOfUpdate(cache: map<string, int>, key: string, v: int, other: string)
    ensures BalanceOf(cache[key := v], key) == v
    ensures other != key ==> BalanceOf(cache[key := v], other) == BalanceOf(cache, other)
  {
  }

  /** An upgraded (HD) wallet has a default account that indexes its accounts. */
  predicate HasDefault(upgraded: bool, accounts: seq<Account>, defaultIndex: nat)
  {
    upgraded ==> defaultIndex < |accounts|
  }

  class Wallet {
    // mutable payload and cache state
    var legacy: seq<LegacyAddress>
    var balances: map<string, int>    // per-address legacy balances
    var legacyBalance: int            // aggregate legacy balance
    var tempPassword: string          // cached second password ("" = none)
    var saveRequests: nat             // payload saves requested so far
    var restartRequested: bool        // a failed save asked the app to restart

    // state this part of the application never changes
    const accounts: seq<Account>
    const defaultIndex: nat
    const xpubAmounts: map<string, int>
    const upgraded: bool
    const doubleEncrypted: bool
    const sharedKey: string
    const iterations: int

    ghost predicate Valid()
      reads this
    {
      HasDefault(upgraded, accounts, defaultIndex)
    }

    constructor (legacy: seq<LegacyAddress>, balances: map<string, int>, legacyBalance: int,
                 accounts: seq<Account>, defaultIndex: nat, xpubAmounts: map<string, int>,
                 upgraded: bool, doubleEncrypted: bool, sharedKey: string, iterations: int)
      requires HasDefault(upgraded, accounts, defaultIndex)
      ensures Valid()
      ensures this.legacy == legacy && this.balances == balances
      ensures this.legacyBalance == legacyBalance && this.tempPassword == ""
      ensures this.saveRequests == 0 && !this.restartRequested
      ensures this.accounts == accounts && this.defaultIndex == defaultIndex
      ensures this.xpubAmounts == xpubAmounts && this.upgraded == upgraded
      ensures this.doubleEncrypted == doubleEncrypted && this.sharedKey == sharedKey
      ensures this.iterations == iterations
    {
      this.legacy := legacy;
      this.balances := balances;
      this.legacyBalance := legacyBalance;
      this.tempPassword := "";
      this.saveRequests := 0;
      this.restartRequested := false;
      this.accounts := accounts;
      this.defaultIndex := defaultIndex;
      this.xpubAmounts := xpubAmounts;
      this.upgraded := upgraded;
      this.doubleEncrypted := doubleEncrypted;
      this.sharedKey := sharedKey;
      this.iterations := iterations;
    }
  }
}
