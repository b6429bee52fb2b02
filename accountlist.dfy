/**
 * The rows of the accounts screen: HD accounts first, then (when there are
 * legacy addresses) the imported-addresses header of an upgraded wallet and
 * one row per legacy address; and the mapping from a clicked row back to
 * the account or address it shows.
 */
module AccountList {
  import opened WalletModel

  /** Text of the imported-addresses header (a string resource of the app). */
  const IMPORTED_HEADER: string := "Imported Addresses"

  /** One row of the list; balances are in satoshi. */
  datatype Row =
    | HdRow(title: string, balance: int, archived: bool, isDefault: bool)
    | HeaderRow(title: string)
    | AddressRow(title: string, balance: int, archived: bool, watchOnly: bool)

  /** What a row click opens the editor on. */
  datatype EditTarget = AccountIndex(index: int) | AddressIndex(index: int)

  /** The wallet state the list is built from. */
  datatype View = View(
    upgraded: bool,
    accounts: seq<Account>,
    defaultIndex: nat,
    xpubAmounts: map<string, int>,
    legacy: seq<LegacyAddress>,
    balances: map<string, int>)

  ghost predicate ValidView(v: View)
  {
    HasDefault(v.upgraded, v.accounts, v.defaultIndex)
  }

  function ViewOf(w: Wallet): View
    reads w
  {
    View(w.upgraded, w.accounts, w.defaultIndex, w.xpubAmounts, w.legacy, w.balances)
  }

  function Digit(d: nat): char
    requires d < 10
  {
    "0123456789"[d]
  }

  /** Decimal digits of `n`. */
  function Decimal(n: nat): (s: string)
    ensures |s| > 0
  {
    if n < 10 then [Digit(n)] else Decimal(n / 10) + [Digit(n % 10)]
  }

  /** The headers of the screen: one for an upgraded wallet, none otherwise. */
  function Headers(upgraded: bool): seq<string>
  {
    if upgraded then [IMPORTED_HEADER] else []
  }

  /** The header rows: the imported-addresses header of an upgraded wallet. */
  function HeaderRows(upgraded: bool): seq<Row>
  {
    var headers := Headers(upgraded);
    seq(|headers|, i requires 0 <= i < |headers| => HeaderRow(headers[i]))
  }

  /** The accounts shown: a trailing ImportedAccount entry is dropped. */
  function ShownAccounts(accounts: seq<Account>): (shown: seq<Account>)
    requires |accounts| > 0
    ensures |shown| == |accounts| || |shown| == |accounts| - 1
    ensures |shown| == |accounts| - 1 <==> accounts[|accounts| - 1].imported
    ensures shown == accounts[..|shown|]
  {
    if accounts[|accounts| - 1].imported then accounts[..|accounts| - 1] else accounts
  }

  function AccountTitle(a: Account, i: nat): string
  {
    if a.name == "" then "Account: " + Decimal(i + 1) else a.name
  }

  function AddressTitle(a: LegacyAddress): string
  {
    if a.name == "" then a.address else a.name
  }

  /** One row per shown account; the default account is recognised by its xpub. */
  function HdRows(v: View): seq<Row>
    requires ValidView(v) && v.upgraded
  {
    var shown := ShownAccounts(v.accounts);
    seq(|shown|, i requires 0 <= i < |shown| =>
      HdRow(AccountTitle(shown[i], i), BalanceOf(v.xpubAmounts, v.accounts[i].xpub),
            shown[i].archived, v.accounts[v.defaultIndex].xpub == shown[i].xpub))
  }

  function AddressRows(legacy: seq<LegacyAddress>, balances: map<string, int>): seq<Row>
  {
    seq(|legacy|, j requires 0 <= j < |legacy| =>
      AddressRow(AddressTitle(legacy[j]), BalanceOf(balances, legacy[j].address),
                 legacy[j].tag == ARCHIVED_ADDRESS, legacy[j].watchOnly))
  }

  /** The HD part of the list: empty for a wallet that is not upgraded. */
  function HdPart(v: View): seq<Row>
    requires ValidView(v)
  {
    if v.upgraded then HdRows(v) else []
  }

  /** How many HD rows the list has: the shown accounts of an upgraded wallet, none otherwise. */
  function HdCount(upgraded: bool, accounts: seq<Account>): nat
    requires upgraded ==> |accounts| > 0
  {
    if upgraded then |ShownAccounts(accounts)| else 0
  }

  lemma HdCountIsHdPart(v: View)
    requires ValidView(v)
    ensures |HdPart(v)| == HdCount(v.upgraded, v.accounts)
  {
  }

  function ImportedPart(v: View): seq<Row>
  {
    if |v.legacy| == 0 then []
    else HeaderRows(v.upgraded) + AddressRows(v.legacy, v.balances)
  }

  function Layout(v: View): seq<Row>
    requires ValidView(v)
  {
    HdPart(v) + ImportedPart(v)
  }

  function HeaderPositions(v: View): seq<int>
    requires ValidView(v)
  {
    if v.upgraded && |v.legacy| > 0 then [|HdPart(v)|] else []
  }

  /** onRowClick: past the headers and the HD rows a position names a legacy address, before them an account. */
  function ClickTarget(position: int, headerCount: nat, hdAccountsIdx: int): EditTarget
  {
    if position - headerCount >= hdAccountsIdx
    then AddressIndex(position - headerCount - hdAccountsIdx)
    else AccountIndex(position)
  }

  /** The click listener: on an upgraded wallet a header row does nothing. */
  function RowClick(position: int, upgraded: bool, headerPositions: seq<int>,
                    headerCount: nat, hdAccountsIdx: int): Option<EditTarget>
  {
    if upgraded && position in headerPositions then None
    else Some(ClickTarget(position, headerCount, hdAccountsIdx))
  }

  /** Where each part of the list sits. */
  lemma LayoutParts(v: View)
    requires ValidView(v)
    ensures var rows := Layout(v);
            var offset := |HdPart(v)| + |Headers(v.upgraded)|;
            (|v.legacy| == 0 ==> |rows| == |HdPart(v)|)
            && (|v.legacy| > 0 ==> |rows| == offset + |v.legacy|)
            && (forall i :: 0 <= i < |HdPart(v)| ==> rows[i] == HdPart(v)[i] && rows[i].HdRow?)
            && (v.upgraded && |v.legacy| > 0 ==> rows[|HdPart(v)|] == HeaderRow(IMPORTED_HEADER))
            && (|v.legacy| > 0 ==> forall j :: 0 <= j < |v.legacy| ==>
                  rows[offset + j] == AddressRows(v.legacy, v.balances)[j])
  {
    var hd, imp := HdPart(v), ImportedPart(v);
    var headerRows := HeaderRows(v.upgraded);
    assert Layout(v) == hd + imp;
    if |v.legacy| > 0 {
      assert imp == headerRows + AddressRows(v.legacy, v.balances);
      assert |headerRows| == |Headers(v.upgraded)|;
      forall j | 0 <= j < |v.legacy|
        ensures Layout(v)[|hd| + |headerRows| + j] == AddressRows(v.legacy, v.balances)[j]
      {
        assert imp[|headerRows| + j] == AddressRows(v.legacy, v.balances)[j];
      }
    }
  }

  /**
   * The list built from a wallet, clicked anywhere, opens the editor on the
   * entry the row shows: HD row i on account i, the row of legacy address j
   * on address j; the header does nothing.
   */
  lemma LayoutClickRoundTrip(v: View, hdAccountsIdx: int)
    requires ValidView(v)
    requires hdAccountsIdx == |HdPart(v)|
    ensures var headers := Headers(v.upgraded);
            var offset := |HdPart(v)| + |headers|;
            (forall i :: 0 <= i < |HdPart(v)| ==>
                  RowClick(i, v.upgraded, HeaderPositions(v), |headers|, hdAccountsIdx) == Some(AccountIndex(i)))
            && (v.upgraded && |v.legacy| > 0 ==>
                  RowClick(|HdPart(v)|, v.upgraded, HeaderPositions(v), |headers|, hdAccountsIdx) == None)
            && (forall j :: 0 <= j < |v.legacy| ==>
                  RowClick(offset + j, v.upgraded, HeaderPositions(v), |headers|, hdAccountsIdx)
                  == Some(AddressIndex(j)))
  {
  }

  /**
   * The round trip for one clicked row of the list as built: an HD row
   * opens its account, the header does nothing, and an address row opens
   * the legacy address whose row it is.
   */
  lemma ClickedRow(v: View, hdAccountsIdx: int, position: int)
    requires ValidView(v) && hdAccountsIdx == |HdPart(v)|
    requires 0 <= position < |Layout(v)|
    ensures var click := RowClick(position, v.upgraded, HeaderPositions(v), |Headers(v.upgraded)|, hdAccountsIdx);
            var row := Layout(v)[position];
            (row.HdRow? ==> click == Some(AccountIndex(position)))
            && (row.HeaderRow? ==> click == None)
            && (row.AddressRow? ==>
                  click.Some? && click.value.AddressIndex?
                  && 0 <= click.value.index < |v.legacy|
                  && row == AddressRows(v.legacy, v.balances)[click.value.index])
  {
    var hd, imp := HdPart(v), ImportedPart(v);
    var headers := Headers(v.upgraded);
    assert Layout(v) == hd + imp;
    if position < |hd| {
      assert Layout(v)[position] == hd[position];
      assert hd[position].HdRow?;
    } else {
      var headerRows := HeaderRows(v.upgraded);
      assert imp == headerRows + AddressRows(v.legacy, v.balances);
      assert Layout(v)[position] == imp[position - |hd|];
      if position >= |hd| + |headerRows| {
        var j := position - |hd| - |headerRows|;
        assert imp[|headerRows| + j] == AddressRows(v.legacy, v.balances)[j];
      }
    }
  }

  /**
   * Row contents: the HD rows show the shown accounts in order with a
   * non-empty title and the xpub balance (0 when missing); the address rows
   * show the legacy addresses in order, titled by label or else address.
   */
  lemma RowContents(v: View)
    requires ValidView(v)
    ensures v.upgraded ==> |HdPart(v)| == |ShownAccounts(v.accounts)|
    ensures forall i :: 0 <= i < |HdPart(v)| ==>
              var a := v.accounts[i];
              HdPart(v)[i] == HdRow(if a.name == "" then "Account: " + Decimal(i + 1) else a.name,
                                    BalanceOf(v.xpubAmounts, a.xpub),
                                    a.archived, v.accounts[v.defaultIndex].xpub == a.xpub)
              && HdPart(v)[i].title != ""
    ensures forall j :: 0 <= j < |v.legacy| ==>
              var a := v.legacy[j];
              AddressRows(v.legacy, v.balances)[j]
              == AddressRow(if a.name == "" then a.address else a.name,
                            BalanceOf(v.balances, a.address),
                            a.tag == ARCHIVED_ADDRESS, a.watchOnly)
  {
  }
}
