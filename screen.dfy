/**
 * The accounts screen's own state and operations: the list it shows, the
 * transfer-funds option, the consolidation run, and the import paths.
 * Dialogs become parameters carrying the user's answer.
 */
module Screen {
  import opened WalletModel
  import opened Planner
  import opened Consolidation
  import opened AddressBook
  import opened AccountList

  /** What the user is told at the end of an import. */
  datatype ImportOutcome =
    | Refused(error: ImportError)
    | KeyAttached(index: nat, saved: bool)
    | Cancelled                    // the watch-only warning was declined
    | NotConnected                 // no connectivity: nothing was saved
    | AddressAdded(saved: bool)

  class AccountActivity {
    const wallet: Wallet
    const headers: seq<string>
    var rows: seq<Row>
    var headerPositions: seq<int>
    var hdAccountsIdx: int
    var transferMenuVisible: bool

    ghost predicate Valid()
      reads this, wallet
    {
      wallet.Valid()
      && headers == Headers(wallet.upgraded)
      && hdAccountsIdx == HdCount(wallet.upgraded, wallet.accounts)
    }

    /** The list on screen shows the wallet as it is now. */
    ghost predicate ListFresh()
      reads this, wallet
      requires wallet.Valid()
    {
      rows == Layout(ViewOf(wallet)) && headerPositions == HeaderPositions(ViewOf(wallet))
    }

    constructor (wallet: Wallet)
      requires wallet.Valid()
      ensures Valid() && ListFresh()
      ensures this.wallet == wallet && !transferMenuVisible
    {
      this.wallet := wallet;
      this.headers := Headers(wallet.upgraded);
      this.rows := [];
      this.headerPositions := [];
      this.hdAccountsIdx := 0;
      this.transferMenuVisible := false;
      new;
      UpdateAccountsList();
    }

    /** Clears and rebuilds the list from the wallet. */
    method UpdateAccountsList()
      requires wallet.Valid() && headers == Headers(wallet.upgraded)
      requires !wallet.upgraded ==> hdAccountsIdx == 0
      modifies this`rows, this`headerPositions, this`hdAccountsIdx
      ensures Valid() && ListFresh()
    {
      headerPositions := [];
      rows := [];
      if wallet.upgraded {
        ListHdAccounts();
      }
      HdCountIsHdPart(ViewOf(wallet));
      if |wallet.legacy| > 0 {
        ListLegacyAddresses();
      }
    }

    /** The HD part of the list: one row per shown account, in order. */
    method ListHdAccounts()
      requires wallet.Valid() && wallet.upgraded
      modifies this`rows, this`hdAccountsIdx
      ensures rows == old(rows) + HdRows(ViewOf(wallet))
      ensures hdAccountsIdx == HdCount(wallet.upgraded, wallet.accounts)
    {
      var v := ViewOf(wallet);
      var accounts := wallet.accounts;
      var shown := accounts;
      if shown[|shown| - 1].imported {
        shown := shown[..|shown| - 1];
      }
      var defaultAccount := accounts[wallet.defaultIndex];
      var archivedCount := 0;
      var i := 0;
      while i < |shown|
        invariant 0 <= i <= |shown| && shown == ShownAccounts(accounts)
        invariant rows == old(rows) + HdRows(v)[..i]
      {
        var title := shown[i].name;
        var balance := BalanceOf(wallet.xpubAmounts, accounts[i].xpub);
        if title == "" {
          title := "Account: " + Decimal(i + 1);
        }
        var row := HdRow(title, balance, shown[i].archived, defaultAccount.xpub == shown[i].xpub);
        assert row == HdRows(v)[i];
        assert HdRows(v)[..i + 1] == HdRows(v)[..i] + [row];
        rows := rows + [row];
        i := i + 1;
      }
      assert HdRows(v)[..i] == HdRows(v);
      hdAccountsIdx := |shown| - archivedCount;
    }

    /** The imported part of the list: the header of an upgraded wallet, then one row per legacy address. */
    method ListLegacyAddresses()
      requires wallet.Valid() && headers == Headers(wallet.upgraded) && |wallet.legacy| > 0
      requires rows == HdPart(ViewOf(wallet)) && headerPositions == []
      modifies this`rows, this`headerPositions
      ensures rows == Layout(ViewOf(wallet)) && headerPositions == HeaderPositions(ViewOf(wallet))
    {
      ghost var v := ViewOf(wallet);
      if wallet.upgraded {
        headerPositions := headerPositions + [|rows|];
        rows := rows + [HeaderRow(headers[0])];
      }
      assert rows == HdPart(v) + HeaderRows(wallet.upgraded);
      var legacy := wallet.legacy;
      var base := rows;
      var j := 0;
      while j < |legacy|
        invariant 0 <= j <= |legacy|
        invariant rows == base + AddressRows(legacy, wallet.balances)[..j]
        invariant headerPositions == HeaderPositions(v)
      {
        var title := legacy[j].name;
        var balance := BalanceOf(wallet.balances, legacy[j].address);
        if title == "" {
          title := legacy[j].address;
        }
        rows := rows + [AddressRow(title, balance, legacy[j].tag == ARCHIVED_ADDRESS, legacy[j].watchOnly)];
        j := j + 1;
      }
      assert AddressRows(legacy, wallet.balances)[..j] == AddressRows(legacy, wallet.balances);
      assert rows == HdPart(v) + ImportedPart(v);
    }

    /**
     * A row click: on a fresh list, an HD row opens its account, a legacy
     * address row opens that address, and the header does nothing.
     */
    method OnItemClick(position: int) returns (target: Option<EditTarget>)
      requires Valid()
      ensures target == RowClick(position, wallet.upgraded, headerPositions, |headers|, hdAccountsIdx)
      ensures ListFresh() && 0 <= position < |rows| ==>
                (rows[position].HdRow? ==> target == Some(AccountIndex(position)))
                && (rows[position].HeaderRow? ==> target == None)
                && (rows[position].AddressRow? ==>
                      target.Some? && target.value.AddressIndex?
                      && 0 <= target.value.index < |wallet.legacy|
                      && rows[position] == AddressRows(wallet.legacy, wallet.balances)[target.value.index])
    {
      if wallet.upgraded && position in headerPositions {
        target := None;   // headers are not clickable
      } else if position - |headers| >= hdAccountsIdx {
        target := Some(AddressIndex(position - |headers| - hdAccountsIdx));
      } else {
        target := Some(AccountIndex(position));
      }
      if ListFresh() && 0 <= position < |rows| {
        HdCountIsHdPart(ViewOf(wallet));
        ClickedRow(ViewOf(wallet), hdAccountsIdx, position);
      }
    }

    /** Whether any spendable legacy address holds more than the fee plus dust. */
    method HasTransferableFunds() returns (r: bool)
      ensures r <==> AnyOfferable(wallet.legacy, wallet.balances)
    {
      var legacy := wallet.legacy;
      var i := 0;
      while i < |legacy|
        invariant 0 <= i <= |legacy|
        invariant forall k :: 0 <= k < i ==> !Offerable(legacy[k], wallet.balances)
      {
        if !legacy[i].watchOnly {
          var balance := BalanceOf(wallet.balances, legacy[i].address);
          if balance - AVERAGE_FEE > DUST {
            return true;
          }
        }
        i := i + 1;
      }
      return false;
    }

    /** The transfer option is shown for an upgraded wallet with transferable funds. */
    method OnCreateOptionsMenu()
      modifies this`transferMenuVisible
      ensures transferMenuVisible <==> AnyOfferable(wallet.legacy, wallet.balances) && wallet.upgraded
    {
      var funds := HasTransferableFunds();
      transferMenuVisible := funds && wallet.upgraded;
    }

    /**
     * Builds the consolidation plan; `receive(k)` is the receive address
     * the k-th derivation for the default account returns.
     */
    method CheckTransferFunds(receive: nat -> string) returns (spends: seq<PendingSpend>, totalToSend: int)
      ensures spends == Plan(wallet.legacy, wallet.balances, receive, |wallet.legacy|)
      ensures totalToSend == TotalAmount(spends)
    {
      spends := [];
      totalToSend := 0;
      var legacy := wallet.legacy;
      var i := 0;
      while i < |legacy|
        invariant 0 <= i <= |legacy|
        invariant spends == Plan(legacy, wallet.balances, receive, i)
        invariant totalToSend == TotalAmount(spends)
      {
        var a := legacy[i];
        if !a.watchOnly && a.tag != ARCHIVED_ADDRESS {
          var balance := BalanceOf(wallet.balances, a.address);
          if balance - AVERAGE_FEE > DUST {
            var afterFee := balance - AVERAGE_FEE;
            var spend := PendingSpend(a, receive(|spends|), AVERAGE_FEE, afterFee);
            TotalAmountAppend(spends, spend);
            totalToSend := totalToSend + afterFee;
            spends := spends + [spend];
          }
        }
        i := i + 1;
      }
    }

    /** The callbacks of one send; only a successful final spend saves and refreshes. */
    method ExecuteSend(s: PendingSpend, result: Broadcast, isLast: bool)
      requires Valid()
      modifies wallet`legacyBalance, wallet`tempPassword, wallet`saveRequests
      modifies this`rows, this`headerPositions, this`hdAccountsIdx, this`transferMenuVisible
      ensures Valid()
      ensures LedgerOf(wallet) == AfterSend(old(LedgerOf(wallet)), s, result, isLast)
      ensures result.Sent? && isLast ==> ListFresh() && !transferMenuVisible
      ensures !(result.Sent? && isLast) ==>
                unchanged(this`rows, this`headerPositions, this`transferMenuVisible)
    {
      match result
      case Sent(_) =>
        wallet.legacyBalance := wallet.legacyBalance - (s.amount + s.fee);
        if isLast {
          wallet.tempPassword := "";
          wallet.saveRequests := wallet.saveRequests + 1;
          UpdateAccountsList();
          transferMenuVisible := false;
        }
      case Failed(_) =>
      case FailedPermanently(_) =>
        wallet.tempPassword := "";
    }

    /**
     * Sends the plan, one spend after another; `attempts[k]` is what the
     * network does with the k-th spend.
     */
    method SendPayment(spends: seq<PendingSpend>, attempts: seq<Attempt>) returns (reports: seq<SpendReport>)
      requires Valid() && |attempts| == |spends|
      modifies wallet`legacyBalance, wallet`tempPassword, wallet`saveRequests
      modifies this`rows, this`headerPositions, this`hdAccountsIdx, this`transferMenuVisible
      ensures Valid()
      ensures LedgerOf(wallet) == Run(old(LedgerOf(wallet)), spends, attempts, |spends|)
      ensures reports == Reports(spends, attempts, |spends|)
      ensures Refreshes(spends, attempts) ==> ListFresh() && !transferMenuVisible
      ensures !Refreshes(spends, attempts) ==>
                unchanged(this`rows, this`headerPositions, this`transferMenuVisible)
    {
      ghost var start := LedgerOf(wallet);
      reports := [];
      var sendCount := 1;
      var i := 0;
      while i < |spends|
        invariant 0 <= i <= |spends| && sendCount == i + 1
        invariant Valid()
        invariant LedgerOf(wallet) == Run(start, spends, attempts, i)
        invariant reports == Reports(spends, attempts, i)
        invariant i == |spends| && Refreshes(spends, attempts) ==> ListFresh() && !transferMenuVisible
        invariant !(i == |spends| && Refreshes(spends, attempts)) ==>
                    unchanged(this`rows, this`headerPositions, this`transferMenuVisible)
      {
        var s := spends[i];
        var target := s.amount + AVERAGE_FEE;
        var unspents := attempts[i].unspents;
        var isLastSpend := false;
        if |spends| == sendCount {
          isLastSpend := true;
        }
        assert isLastSpend <==> i + 1 == |spends|;
        assert Run(start, spends, attempts, i + 1)
               == Step(Run(start, spends, attempts, i), s, attempts[i], isLastSpend);
        assert Reports(spends, attempts, i + 1)
               == Reports(spends, attempts, i) + [ReportOf(s, attempts[i], isLastSpend)];
        if unspents.Bundle? {
          ExecuteSend(s, attempts[i].broadcast, isLastSpend);
          reports := reports + [SpendReport(s.source.address, target, isLastSpend,
                                            Executed(unspents.notice, attempts[i].broadcast))];
        } else {
          reports := reports + [SpendReport(s.source.address, target, isLastSpend, NoConfirmedFunds)];
        }
        sendCount := sendCount + 1;
        i := i + 1;
      }
    }

    /** Caches the new address's fetched balance, adds it to the aggregate, and refreshes the list. */
    method AddAddressAndUpdateList(entry: LegacyAddress, fetched: Option<int>)
      requires Valid()
      modifies wallet`balances, wallet`legacyBalance
      modifies this`rows, this`headerPositions, this`hdAccountsIdx
      ensures Valid() && ListFresh()
      ensures BookOf(wallet) == RecordBalance(old(BookOf(wallet)), entry.address, fetched)
    {
      var balance := 0;
      if fetched.Some? {
        balance := fetched.value;
      }
      wallet.balances := wallet.balances[entry.address := balance];
      wallet.legacyBalance := wallet.legacyBalance + balance;
      UpdateAccountsList();
    }

    /** Appends a new entry to the payload and saves it. */
    method RemoteSaveNewAddress(entry: LegacyAddress, env: SaveEnv) returns (outcome: ImportOutcome)
      requires Valid()
      modifies wallet`legacy, wallet`balances, wallet`legacyBalance, wallet`tempPassword
      modifies wallet`saveRequests, wallet`restartRequested
      modifies this`rows, this`headerPositions, this`hdAccountsIdx
      ensures Valid()
      ensures BookOf(wallet) == SaveNewAddress(old(BookOf(wallet)), entry, env)
      ensures outcome == if env.online then AddressAdded(env.saveOk) else NotConnected
      ensures env.online && env.saveOk ==> ListFresh()
      ensures !(env.online && env.saveOk) ==> unchanged(this`rows, this`headerPositions)
    {
      if !env.online {
        return NotConnected;
      }
      wallet.legacy := wallet.legacy + [entry];
      wallet.saveRequests := wallet.saveRequests + 1;
      if env.saveOk {
        wallet.tempPassword := "";
        if env.refresh.Some? {
          // the refresh of every legacy address's balance
          wallet.balances := env.refresh.value.balances;
          wallet.legacyBalance := env.refresh.value.aggregate;
        }
        AddAddressAndUpdateList(entry, env.fetchedBalance);
      } else {
        wallet.restartRequested := true;
      }
      outcome := AddressAdded(env.saveOk);
    }

    /** Attaches an imported key to the listed entry for its address and saves. */
    method SetPrivateKey(address: string, priv: seq<byte>, crypto: Crypto, saveOk: bool)
      requires Valid() && Contains(wallet.legacy, address)
      modifies wallet`legacy, wallet`saveRequests
      modifies this`rows, this`headerPositions, this`hdAccountsIdx
      ensures Valid()
      ensures BookOf(wallet)
              == SetKeyState(old(BookOf(wallet)), IndexOf(old(wallet.legacy), address), old(StoredKey(priv, wallet, crypto)))
      ensures saveOk ==> ListFresh()
      ensures !saveOk ==> unchanged(this`rows, this`headerPositions)
    {
      var index := IndexOf(wallet.legacy, address);
      var entry := wallet.legacy[index];
      if !wallet.doubleEncrypted {
        entry := entry.(encryptedKey := PlainKey(priv));
      } else {
        var encrypted := crypto.encrypt(crypto.base58(priv), wallet.sharedKey, wallet.tempPassword, wallet.iterations);
        entry := entry.(encryptedKey := DoubleEncrypted(encrypted));
      }
      entry := entry.(watchOnly := false);
      assert wallet.legacy[index := entry] == AttachKey(wallet.legacy, index, StoredKey(priv, wallet, crypto));
      wallet.legacy := wallet.legacy[index := entry];
      wallet.saveRequests := wallet.saveRequests + 1;
      if saveOk {
        UpdateAccountsList();
      }
    }

    /**
     * Imports a parsed (non-BIP38) private key: a listed address gets the
     * key in place, an unlisted one becomes a new entry labelled from the
     * label dialog.
     */
    method ImportNonBIP38Address(parsed: ParsedKey, crypto: Crypto, labelInput: Option<string>, env: SaveEnv)
      returns (outcome: ImportOutcome)
      requires Valid()
      modifies wallet`legacy, wallet`balances, wallet`legacyBalance, wallet`tempPassword
      modifies wallet`saveRequests, wallet`restartRequested
      modifies this`rows, this`headerPositions, this`hdAccountsIdx
      ensures Valid()
      ensures match RouteKey(parsed, old(wallet.legacy))
              case RejectKey =>
                outcome == Refused(NoPrivateKey) && BookOf(wallet) == old(BookOf(wallet))
                && unchanged(this`rows, this`headerPositions)
              case AttachTo(i) =>
                outcome == KeyAttached(i, env.saveOk)
                && BookOf(wallet) == SetKeyState(old(BookOf(wallet)), i, old(StoredKey(parsed.priv, wallet, crypto)))
                && (env.saveOk ==> ListFresh())
                && (!env.saveOk ==> unchanged(this`rows, this`headerPositions))
              case AppendNew(a, priv) =>
                BookOf(wallet)
                == SaveNewAddress(old(BookOf(wallet)),
                                  NewKeyEntry(a, old(StoredKey(priv, wallet, crypto)), ChosenLabel(labelInput, a)),
                                  env)
                && outcome == (if env.online then AddressAdded(env.saveOk) else NotConnected)
                && (env.online && env.saveOk ==> ListFresh())
                && (!(env.online && env.saveOk) ==> unchanged(this`rows, this`headerPositions))
      ensures old(Unique(wallet.legacy)) ==> Unique(wallet.legacy)
      ensures old(KeysConsistent(wallet.legacy)) ==> KeysConsistent(wallet.legacy)
    {
      var route := RouteKey(parsed, wallet.legacy);
      ghost var before := wallet.legacy;
      match route
      case RejectKey =>
        outcome := Refused(NoPrivateKey);
      case AttachTo(i) =>
        SetPrivateKey(parsed.address, parsed.priv, crypto, env.saveOk);
        AttachKeyKeepsBook(before, i, StoredKey(parsed.priv, wallet, crypto));
        outcome := KeyAttached(i, env.saveOk);
      case AppendNew(a, priv) =>
        var key := StoredKey(priv, wallet, crypto);
        var entry := NewKeyEntry(a, key, ChosenLabel(labelInput, a));
        ghost var book := BookOf(wallet);
        outcome := RemoteSaveNewAddress(entry, env);
        SaveNewAddressAppends(book, entry, env);
    }

    /** Imports a scanned watch-only address after the format and duplicate checks. */
    method ImportWatchOnly(text: string, formats: Formats, proceed: bool, labelInput: Option<string>, env: SaveEnv)
      returns (outcome: ImportOutcome)
      requires Valid()
      modifies wallet`legacy, wallet`balances, wallet`legacyBalance, wallet`tempPassword
      modifies wallet`saveRequests, wallet`restartRequested
      modifies this`rows, this`headerPositions, this`hdAccountsIdx
      ensures Valid()
      ensures match CheckWatchOnly(text, formats, old(wallet.legacy))
              case Rejected(e) =>
                outcome == Refused(e) && BookOf(wallet) == old(BookOf(wallet))
                && unchanged(this`rows, this`headerPositions)
              case Accepted(a) =>
                if !proceed then
                  outcome == Cancelled && BookOf(wallet) == old(BookOf(wallet))
                  && unchanged(this`rows, this`headerPositions)
                else
                  BookOf(wallet)
                  == SaveNewAddress(old(BookOf(wallet)), NewWatchOnlyEntry(a, ChosenLabel(labelInput, a)), env)
                  && outcome == (if env.online then AddressAdded(env.saveOk) else NotConnected)
                  && (env.online && env.saveOk ==> ListFresh())
                  && (!(env.online && env.saveOk) ==> unchanged(this`rows, this`headerPositions))
      ensures old(Unique(wallet.legacy)) ==> Unique(wallet.legacy)
      ensures old(KeysConsistent(wallet.legacy)) ==> KeysConsistent(wallet.legacy)
    {
      var address := RepairUri(text);
      if formats.isBitcoinUri(address) {
        address := formats.uriAddress(address);
      }
      if !formats.isValidAddress(address) {
        return Refused(InvalidAddress);
      } else if IndexOf(wallet.legacy, address) >= 0 {
        return Refused(AlreadyInWallet);
      }
      if !proceed {
        return Cancelled;
      }
      var entry := NewWatchOnlyEntry(address, ChosenLabel(labelInput, address));
      ghost var book := BookOf(wallet);
      outcome := RemoteSaveNewAddress(entry, env);
      SaveNewAddressAppends(book, entry, env);
    }
  }
}
