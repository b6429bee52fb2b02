/**
 * Importing into the legacy address book: routing a scanned private key
 * to the entry it belongs to, the key slot it gets, and the checks a
 * scanned watch-only address must pass.
 */
module AddressBook {
  import opened WalletModel

  datatype ImportError = NoPrivateKey | InvalidAddress | AlreadyInWallet

  /** What the key parser made of scanned text. */
  datatype ParsedKey =
    | Unparseable                           // the parser threw
    | WithoutPrivateKey                     // no key, or a key without its private part
    | Key(address: string, priv: seq<byte>)

  /** Where an imported private key goes. */
  datatype KeyRoute =
    | RejectKey
    | AttachTo(index: nat)                  // the address is already listed
    | AppendNew(address: string, priv: seq<byte>)

  /** The scanned-address check of a watch-only import. */
  datatype Verdict = Accepted(address: string) | Rejected(error: ImportError)

  /** Address validation and BIP 21 URI helpers. */
  datatype Formats = Formats(
    isBitcoinUri: string -> bool,
    uriAddress: string -> string,
    isValidAddress: string -> bool)

  predicate Contains(legacy: seq<LegacyAddress>, a: string)
  {
    exists i :: 0 <= i < |legacy| && legacy[i].address == a
  }

  /** No address is listed twice. */
  predicate Unique(legacy: seq<LegacyAddress>)
  {
    forall i, j :: 0 <= i < j < |legacy| ==> legacy[i].address != legacy[j].address
  }

  /** A watch-only entry holds no key. */
  predicate KeysConsistent(legacy: seq<LegacyAddress>)
  {
    forall i :: 0 <= i < |legacy| ==> legacy[i].watchOnly ==> legacy[i].encryptedKey == NoKey
  }

  /** The list's indexOf over the address strings: the first match, or -1. */
  function IndexOf(legacy: seq<LegacyAddress>, a: string): (r: int)
    ensures -1 <= r < |legacy|
    ensures r == -1 <==> !Contains(legacy, a)
    ensures r >= 0 ==> legacy[r].address == a && forall j :: 0 <= j < r ==> legacy[j].address != a
  {
    if |legacy| == 0 then -1
    else if legacy[0].address == a then 0
    else
      var r := IndexOf(legacy[1..], a);
      if r == -1 then
        assert forall i :: 1 <= i < |legacy| ==> legacy[i] == legacy[1..][i - 1];
        -1
      else r + 1
  }

  /** The key slot of an imported key: raw bytes, or the encrypted Base58 text under a second password. */
  function StoredKey(priv: seq<byte>, w: Wallet, crypto: Crypto): (k: KeySlot)
    reads w
    ensures !w.doubleEncrypted ==> k == PlainKey(priv)
    ensures w.doubleEncrypted ==>
              k == DoubleEncrypted(crypto.encrypt(crypto.base58(priv), w.sharedKey, w.tempPassword, w.iterations))
    ensures k != NoKey
  {
    if !w.doubleEncrypted then PlainKey(priv)
    else DoubleEncrypted(crypto.encrypt(crypto.base58(priv), w.sharedKey, w.tempPassword, w.iterations))
  }

  /** The entry at `i` gets the key and stops being watch-only. */
  function AttachKey(legacy: seq<LegacyAddress>, i: nat, key: KeySlot): seq<LegacyAddress>
    requires i < |legacy|
  {
    legacy[i := legacy[i].(encryptedKey := key, watchOnly := false)]
  }

  /** Routing of importNonBIP38Address: an unusable key is rejected, a known address is updated, a new one appended. */
  function RouteKey(parsed: ParsedKey, legacy: seq<LegacyAddress>): (r: KeyRoute)
    ensures r == RejectKey <==> !parsed.Key?
    ensures r.AttachTo? ==> parsed.Key? && r.index == IndexOf(legacy, parsed.address)
                            && r.index < |legacy| && legacy[r.index].address == parsed.address
    ensures r.AppendNew? ==> parsed.Key? && r.address == parsed.address && r.priv == parsed.priv
                             && !Contains(legacy, parsed.address)
    ensures parsed.Key? ==> (r.AttachTo? <==> Contains(legacy, parsed.address))
  {
    match parsed
    case Key(address, priv) =>
      var i := IndexOf(legacy, address);
      if i >= 0 then AttachTo(i) else AppendNew(address, priv)
    case _ => RejectKey
  }

  /** Text with some character other than white space or control characters, as a Java trim sees it. */
  predicate Visible(s: string)
  {
    exists i :: 0 <= i < |s| && s[i] > ' '
  }

  /** The label dialog: visible text as typed, otherwise (blank text or the dialog declined) the address. */
  function ChosenLabel(input: Option<string>, address: string): (chosen: string)
    ensures chosen == address || (input.Some? && chosen == input.value)
    ensures Visible(address) ==> Visible(chosen)
    ensures Visible(chosen) <==> (input.Some? && Visible(input.value)) || Visible(address)
    ensures input.Some? && Visible(input.value) ==> chosen == input.value
    ensures !(input.Some? && Visible(input.value)) ==> chosen == address
  {
    if input.Some? && Visible(input.value) then input.value else address
  }

  /** The entry built for an imported private key. */
  function NewKeyEntry(address: string, key: KeySlot, name: string): LegacyAddress
  {
    LegacyAddress(address, name, NORMAL_ADDRESS, false, key)
  }

  /** The entry built for a watch-only import. */
  function NewWatchOnlyEntry(address: string, name: string): LegacyAddress
  {
    LegacyAddress(address, name, NORMAL_ADDRESS, true, NoKey)
  }

  /** Repairs a malformed BIP 21 URI: a leading "bitcoin://" becomes "bitcoin:" when more text follows. */
  function RepairUri(text: string): (r: string)
    ensures |text| > 10 && text[..10] == "bitcoin://" ==> r == "bitcoin:" + text[10..] && |r| == |text| - 2
    ensures !(|text| > 10 && text[..10] == "bitcoin://") ==> r == text
  {
    if |text| > 10 && text[..10] == "bitcoin://" then "bitcoin:" + text[10..] else text
  }

  /** The address a scanned text stands for: the URI's address, or the text itself. */
  function ScannedAddress(text: string, formats: Formats): string
  {
    var t := RepairUri(text);
    if formats.isBitcoinUri(t) then formats.uriAddress(t) else t
  }

  /** importWatchOnly's checks: an invalid address, then a listed one, are refused. */
  function CheckWatchOnly(text: string, formats: Formats, legacy: seq<LegacyAddress>): (v: Verdict)
    ensures v.Accepted? ==> v.address == ScannedAddress(text, formats)
    ensures v.Accepted? <==>
              formats.isValidAddress(ScannedAddress(text, formats)) && !Contains(legacy, ScannedAddress(text, formats))
    ensures v == Rejected(InvalidAddress) <==> !formats.isValidAddress(ScannedAddress(text, formats))
    ensures v == Rejected(AlreadyInWallet) <==>
              formats.isValidAddress(ScannedAddress(text, formats)) && Contains(legacy, ScannedAddress(text, formats))
  {
    var address := ScannedAddress(text, formats);
    if !formats.isValidAddress(address) then Rejected(InvalidAddress)
    else if IndexOf(legacy, address) >= 0 then Rejected(AlreadyInWallet)
    else Accepted(address)
  }

  /**
   * Attaching a key keeps the list's length and every other entry, turns
   * the entry spendable, and keeps the list free of duplicates and of
   * watch-only entries holding keys.
   */
  lemma AttachKeyKeepsBook(legacy: seq<LegacyAddress>, i: nat, key: KeySlot)
    requires i < |legacy|
    ensures var r := AttachKey(legacy, i, key);
            |r| == |legacy|
            && r[i].address == legacy[i].address && r[i].name == legacy[i].name && r[i].tag == legacy[i].tag
            && r[i].encryptedKey == key && !r[i].watchOnly
            && (forall j :: 0 <= j < |legacy| && j != i ==> r[j] == legacy[j])
            && (Unique(legacy) ==> Unique(r))
            && (KeysConsistent(legacy) ==> KeysConsistent(r))
  {
  }

  /** Appending an unlisted address keeps the list free of duplicates; appending a listed one does not. */
  lemma AppendKeepsUnique(legacy: seq<LegacyAddress>, e: LegacyAddress)
    requires Unique(legacy)
    ensures Unique(legacy + [e]) <==> !Contains(legacy, e.address)
  {
    if Contains(legacy, e.address) {
      var i :| 0 <= i < |legacy| && legacy[i].address == e.address;
      assert (legacy + [e])[i].address == (legacy + [e])[|legacy|].address;
    }
  }

  /** The two entry shapes keep the key invariant when appended. */
  lemma NewEntriesKeepKeysConsistent(legacy: seq<LegacyAddress>, address: string, name: string, key: KeySlot)
    requires KeysConsistent(legacy)
    ensures KeysConsistent(legacy + [NewKeyEntry(address, key, name)])
    ensures KeysConsistent(legacy + [NewWatchOnlyEntry(address, name)])
  {
  }

  /**
   * When exactly two slashes follow "bitcoin:", the repaired text is "bitcoin:"
   * followed by the character after them, and it no longer starts with "bitcoin://".
   */
  lemma RepairUriDropsDoubleSlash(text: string)
    requires |text| > 10 && text[..10] == "bitcoin://" && text[10] != '/'
    ensures RepairUri(text)[..8] == "bitcoin:" && RepairUri(text)[8] == text[10]
    ensures !(|RepairUri(text)| > 10 && RepairUri(text)[..10] == "bitcoin://")
  {
    var r := RepairUri(text);
    assert r[8] == text[10];
  }

  /** The repair drops one pair of slashes only: with four, two are left. */
  lemma RepairUriDropsOnePairOnly()
    ensures RepairUri("bitcoin:////x") == "bitcoin://x"
  {
    assert "bitcoin:////x"[..10] == "bitcoin://";
    assert "bitcoin:////x"[10..] == "//x";
  }

  /** The wallet state an import changes. */
  datatype Book = Book(
    legacy: seq<LegacyAddress>,
    balances: map<string, int>,
    legacyBalance: int,
    tempPassword: string,
    saveRequests: nat,
    restartRequested: bool)

  function BookOf(w: Wallet): Book
    reads w
  {
    Book(w.legacy, w.balances, w.legacyBalance, w.tempPassword, w.saveRequests, w.restartRequested)
  }

  /**
   * What saving a new address meets: connectivity, the payload save's
   * result, and the address's final balance as fetched afterwards (None
   * when the lookup returned nothing or could not be read).
   */
  datatype SaveEnv = SaveEnv(online: bool, saveOk: bool, refresh: Option<Cache>, fetchedBalance: Option<int>)

  /**
   * The legacy balance cache as the refresh after a good save leaves it:
   * per-address balances and the aggregate. None when the refresh threw
   * and left the cache as it was.
   */
  datatype Cache = Cache(balances: map<string, int>, aggregate: int)

  /** The cache the book holds once the refresh has run. */
  function CacheAfter(b: Book, refresh: Option<Cache>): Cache
  {
    if refresh.Some? then refresh.value else Cache(b.balances, b.legacyBalance)
  }

  function FetchedBalance(fetched: Option<int>): int
  {
    if fetched.Some? then fetched.value else 0
  }

  /** addAddressAndUpdateList: the fetched balance is cached for the address and added to the aggregate. */
  function RecordBalance(b: Book, address: string, fetched: Option<int>): Book
  {
    b.(balances := b.balances[address := FetchedBalance(fetched)],
       legacyBalance := b.legacyBalance + FetchedBalance(fetched))
  }

  /**
   * remoteSaveNewAddress: offline nothing happens; otherwise the entry is
   * appended and a save requested; a good save clears the second password,
   * refreshes the legacy balance cache and records the new address's
   * balance; a failed one asks for a restart.
   */
  function SaveNewAddress(b: Book, entry: LegacyAddress, env: SaveEnv): Book
  {
    if !env.online then b
    else
      var appended := b.(legacy := b.legacy + [entry], saveRequests := b.saveRequests + 1);
      if env.saveOk then
        var cache := CacheAfter(appended, env.refresh);
        var refreshed := appended.(tempPassword := "", balances := cache.balances, legacyBalance := cache.aggregate);
        RecordBalance(refreshed, entry.address, env.fetchedBalance)
      else appended.(restartRequested := true)
  }

  /** setPrivateKey: the key is attached in place and a save requested. */
  function SetKeyState(b: Book, i: nat, key: KeySlot): Book
    requires i < |b.legacy|
  {
    b.(legacy := AttachKey(b.legacy, i, key), saveRequests := b.saveRequests + 1)
  }

  /**
   * Saving a new address appends exactly that entry when online and
   * changes nothing offline; an entry for an unlisted address keeps the
   * address book free of duplicates.
   */
  lemma SaveNewAddressAppends(b: Book, entry: LegacyAddress, env: SaveEnv)
    ensures var r := SaveNewAddress(b, entry, env);
            (!env.online ==> r == b)
            && (env.online ==> |r.legacy| == |b.legacy| + 1 && r.legacy[..|b.legacy|] == b.legacy
                               && r.legacy[|b.legacy|] == entry
                               && r.saveRequests == b.saveRequests + 1)
            && (Unique(b.legacy) && !Contains(b.legacy, entry.address) ==> Unique(r.legacy))
            && (KeysConsistent(b.legacy) && (entry.watchOnly ==> entry.encryptedKey == NoKey)
                ==> KeysConsistent(r.legacy))
  {
    if env.online && Unique(b.legacy) && !Contains(b.legacy, entry.address) {
      AppendKeepsUnique(b.legacy, entry);
    }
  }

  /**
   * After a good save the new address's cached balance is the fetched one
   * (0 when it could not be read), the aggregate is the refreshed one plus
   * that amount, and every other address keeps its refreshed balance.
   */
  lemma SaveNewAddressBalances(b: Book, entry: LegacyAddress, env: SaveEnv)
    requires env.online && env.saveOk
    ensures var r := SaveNewAddress(b, entry, env);
            var cache := CacheAfter(b, env.refresh);
            var fetched := FetchedBalance(env.fetchedBalance);
            BalanceOf(r.balances, entry.address) == fetched
            && r.legacyBalance == cache.aggregate + fetched
            && r.tempPassword == "" && r.restartRequested == b.restartRequested
            && (forall a :: a != entry.address ==> BalanceOf(r.balances, a) == BalanceOf(cache.balances, a))
  {
  }

  /**
   * Without a refresh, or with one that leaves the cache as it was, a good
   * save only adds the new address: every other balance is kept and the
   * aggregate grows by the fetched balance.
   */
  lemma SaveWithoutRefreshAddsOnly(b: Book, entry: LegacyAddress, env: SaveEnv)
    requires env.online && env.saveOk
    requires env.refresh.None? || env.refresh == Some(Cache(b.balances, b.legacyBalance))
    ensures var r := SaveNewAddress(b, entry, env);
            r.legacyBalance == b.legacyBalance + FetchedBalance(env.fetchedBalance)
            && (forall a :: a != entry.address ==> BalanceOf(r.balances, a) == BalanceOf(b.balances, a))
  {
    SaveNewAddressBalances(b, entry, env);
  }
}
