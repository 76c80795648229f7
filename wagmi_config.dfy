/** Wallet detection and the list of wallets the page offers: the flag
    classifier for the injected `window.ethereum` provider, the table of
    supported wallets and `getAvailableWallets`, which collects the detected
    type and the ids of the usable injected connectors in a `Set`, looks them
    up in the table and deduplicates the entries through a `Map`. The
    connector list of the wagmi configuration is an input. */
module WagmiConfig {
  import opened JsValues

  /** The brand flags a provider object may carry. */
  datatype EthereumFlags = EthereumFlags(isMetaMask: bool, isCoinbaseWallet: bool,
                                         isBraveWallet: bool, isRainbow: bool)

  /** `window.ethereum`: `undefined`, `null`, or a provider object. */
  datatype EthereumSlot = EthereumUndefined | EthereumNull | Provider(flags: EthereumFlags)

  /** The value a call returns, or the fact that it threw. */
  datatype Outcome<T> = Returned(value: T) | Threw

  /** `detectWalletType`; `hasWindow` is `typeof window !== 'undefined'`.
      Reading a flag of a `null` provider throws a `TypeError`. */
  function DetectWalletType(hasWindow: bool, ethereum: EthereumSlot): (r: Outcome<Option<string>>)
    ensures r == Returned(None) <==> !hasWindow || ethereum.EthereumUndefined?
    ensures r == Threw <==> hasWindow && ethereum.EthereumNull?
    ensures r == Returned(Some("metaMask")) <==>
      hasWindow && ethereum.Provider? && ethereum.flags.isMetaMask
    ensures r == Returned(Some("coinbase")) <==>
      hasWindow && ethereum.Provider? && !ethereum.flags.isMetaMask && ethereum.flags.isCoinbaseWallet
    ensures r == Returned(Some("brave")) <==>
      hasWindow && ethereum.Provider? && !ethereum.flags.isMetaMask && !ethereum.flags.isCoinbaseWallet
      && ethereum.flags.isBraveWallet
    ensures r == Returned(Some("rainbow")) <==>
      hasWindow && ethereum.Provider? && !ethereum.flags.isMetaMask && !ethereum.flags.isCoinbaseWallet
      && !ethereum.flags.isBraveWallet && ethereum.flags.isRainbow
    ensures r == Returned(Some("injected")) <==>
      hasWindow && ethereum.Provider? && !ethereum.flags.isMetaMask && !ethereum.flags.isCoinbaseWallet
      && !ethereum.flags.isBraveWallet && !ethereum.flags.isRainbow
  {
    if !hasWindow || ethereum.EthereumUndefined? then Returned(None)
    else if ethereum.EthereumNull? then Threw
    else
      var f := ethereum.flags;
      if f.isMetaMask then Returned(Some("metaMask"))
      else if f.isCoinbaseWallet then Returned(Some("coinbase"))
      else if f.isBraveWallet then Returned(Some("brave"))
      else if f.isRainbow then Returned(Some("rainbow"))
      else Returned(Some("injected"))
  }

  // ---------------------------------------------------------------------
  // The table of supported wallets

  datatype WalletInfo = WalletInfo(id: string, name: string, icon: string, description: string)

  /** `SUPPORTED_WALLETS`. */
  const SupportedWallets: map<string, WalletInfo> := map[
    "metaMask" := WalletInfo("metaMask", "MetaMask", "/assets/metamask-logo.svg",
                             "Connect using MetaMask browser extension or mobile app"),
    "coinbaseWallet" := WalletInfo("coinbaseWallet", "Coinbase Wallet", "/assets/coinbase-logo.svg",
                                   "Connect using Coinbase Wallet"),
    "injected" := WalletInfo("injected", "Browser Wallet", "/assets/wallet-logo.svg",
                             "Connect using your browser wallet (e.g., Brave, Rainbow)")]

  /** Each entry's `id` is its key. */
  lemma SupportedWalletIdsAreKeys()
    ensures forall k :: k in SupportedWallets ==> SupportedWallets[k].id == k
  {
  }

  /** Three of the five names `detectWalletType` can return have no entry. */
  lemma DetectedTypesWithoutEntry()
    ensures "coinbase" !in SupportedWallets && "brave" !in SupportedWallets && "rainbow" !in SupportedWallets
    ensures "metaMask" in SupportedWallets && "injected" in SupportedWallets
  {
  }

  // ---------------------------------------------------------------------
  // Specification of getAvailableWallets

  /** A wagmi connector as `getAvailableWallets` reads it. */
  datatype Connector = Connector(id: string, kind: string, hasGetProvider: bool)

  /** `connectors.filter(c => c.type === 'injected' && c.getProvider)`. */
  function InjectedWithProvider(cs: seq<Connector>): (r: seq<Connector>)
    ensures forall c :: c in r <==> c in cs && c.kind == "injected" && c.hasGetProvider
  {
    if cs == [] then []
    else
      var rest := InjectedWithProvider(cs[1..]);
      if cs[0].kind == "injected" && cs[0].hasGetProvider then [cs[0]] + rest else rest
  }

  /** `filter` keeps the usable connectors in list order: filtering
      distributes over any split of the list. */
  lemma {:induction false} InjectedWithProviderAppend(a: seq<Connector>, b: seq<Connector>)
    ensures InjectedWithProvider(a + b) == InjectedWithProvider(a) + InjectedWithProvider(b)
  {
    if a != [] {
      assert (a + b)[0] == a[0] && (a + b)[1..] == a[1..] + b;
      InjectedWithProviderAppend(a[1..], b);
      if a[0].kind == "injected" && a[0].hasGetProvider {
        assert InjectedWithProvider(a + b)
               == [a[0]] + (InjectedWithProvider(a[1..]) + InjectedWithProvider(b));
      }
    } else {
      assert a + b == b;
    }
  }

  function ConnectorIds(cs: seq<Connector>): (r: seq<string>)
    ensures |r| == |cs| && forall i :: 0 <= i < |cs| ==> r[i] == cs[i].id
  {
    seq(|cs|, i requires 0 <= i < |cs| => cs[i].id)
  }

  function WalletIds(ws: seq<WalletInfo>): (r: seq<string>)
    ensures |r| == |ws| && forall i :: 0 <= i < |ws| ==> r[i] == ws[i].id
  {
    seq(|ws|, i requires 0 <= i < |ws| => ws[i].id)
  }

  predicate NoDuplicates<T(==)>(s: seq<T>)
  {
    forall i, j :: 0 <= i < j < |s| ==> s[i] != s[j]
  }

  /** `set.add(x)` on a `Set` seen in its iteration order. */
  function SetAdd(set_: seq<string>, x: string): seq<string>
  {
    if x in set_ then set_ else set_ + [x]
  }

  /** The iteration order of a `Set` built by adding `s` element by element:
      each value once, at its first occurrence. */
  function InsertionOrder(s: seq<string>): seq<string>
  {
    if s == [] then [] else SetAdd(InsertionOrder(s[..|s| - 1]), s[|s| - 1])
  }

  /** Position of the first occurrence of `x` in `s`. */
  function FirstIndex(s: seq<string>, x: string): (i: nat)
    requires x in s
    ensures i < |s| && s[i] == x && x !in s[..i]
  {
    if s[0] == x then 0 else 1 + FirstIndex(s[1..], x)
  }

  lemma FirstIndexInPrefix(s: seq<string>, n: nat, x: string)
    requires n <= |s| && x in s[..n]
    ensures FirstIndex(s, x) == FirstIndex(s[..n], x)
  {
    var i := FirstIndex(s[..n], x);
    var j := FirstIndex(s, x);
  }

  /** A `Set` holds each value once, holds exactly the values added, and
      iterates them in the order of their first insertion. */
  lemma {:induction false} InsertionOrderSpec(s: seq<string>)
    ensures NoDuplicates(InsertionOrder(s))
    ensures forall x :: x in InsertionOrder(s) <==> x in s
    ensures forall i, j :: 0 <= i < j < |InsertionOrder(s)| ==>
      FirstIndex(s, InsertionOrder(s)[i]) < FirstIndex(s, InsertionOrder(s)[j])
    decreases |s|
  {
    if s != [] {
      var n := |s| - 1;
      var prefix := s[..n];
      InsertionOrderSpec(prefix);
      var p := InsertionOrder(prefix);
      var r := InsertionOrder(s);
      assert s == prefix + [s[n]];
      forall x ensures x in r <==> x in s {
        assert x in s <==> x in prefix || x == s[n];
      }
      forall i, j | 0 <= i < j < |r|
        ensures FirstIndex(s, r[i]) < FirstIndex(s, r[j])
      {
        FirstIndexInPrefix(s, n, r[i]);
        if j < |p| {
          FirstIndexInPrefix(s, n, r[j]);
        } else {
          assert r[j] == s[n] && s[n] !in prefix;
          assert FirstIndex(s, r[j]) == n;
        }
      }
    }
  }

  /** `Array.from(set).map(id => SUPPORTED_WALLETS[id]).filter(Boolean)`. */
  function TableEntries(ids: seq<string>): (r: seq<WalletInfo>)
    ensures forall w :: w in r ==> w in SupportedWallets.Values
  {
    if ids == [] then []
    else
      var rest := TableEntries(ids[1..]);
      if ids[0] in SupportedWallets then [SupportedWallets[ids[0]]] + rest else rest
  }

  /** The ids of the table entries for `ids`: those ids that have an entry,
      in order. */
  function SupportedOnly(ids: seq<string>): (r: seq<string>)
  {
    if ids == [] then []
    else
      var rest := SupportedOnly(ids[1..]);
      if ids[0] in SupportedWallets then [ids[0]] + rest else rest
  }

  lemma {:induction false} TableEntriesIds(ids: seq<string>)
    ensures WalletIds(TableEntries(ids)) == SupportedOnly(ids)
    ensures forall x :: x in SupportedOnly(ids) <==> x in ids && x in SupportedWallets
    ensures NoDuplicates(ids) ==> NoDuplicates(SupportedOnly(ids))
  {
    TableEntriesCarryIds(ids);
    SupportedOnlyMembers(ids);
    if NoDuplicates(ids) {
      SupportedOnlyDistinct(ids);
    }
  }

  lemma {:induction false} TableEntriesCarryIds(ids: seq<string>)
    ensures WalletIds(TableEntries(ids)) == SupportedOnly(ids)
  {
    if ids != [] {
      TableEntriesCarryIds(ids[1..]);
    }
  }

  lemma {:induction false} SupportedOnlyMembers(ids: seq<string>)
    ensures forall x :: x in SupportedOnly(ids) <==> x in ids && x in SupportedWallets
  {
    if ids != [] {
      SupportedOnlyMembers(ids[1..]);
      assert forall x :: x in ids <==> x == ids[0] || x in ids[1..];
    }
  }

  lemma {:induction false} SupportedOnlyDistinct(ids: seq<string>)
    requires NoDuplicates(ids)
    ensures NoDuplicates(SupportedOnly(ids))
  {
    if ids != [] {
      assert NoDuplicates(ids[1..]);
      SupportedOnlyDistinct(ids[1..]);
      SupportedOnlyMembers(ids[1..]);
      var rest := SupportedOnly(ids[1..]);
      assert ids[0] !in ids[1..];
      if ids[0] in SupportedWallets {
        var r := SupportedOnly(ids);
        assert r == [ids[0]] + rest;
        forall i, j | 0 <= i < j < |r| ensures r[i] != r[j] {
          if i == 0 { assert r[j] in rest; }
          else { assert r[i] == rest[i - 1] && r[j] == rest[j - 1]; }
        }
      }
    }
  }

  /** The ids in the order they are added to the `Set`: the detected type
      first when there is one, then the connector ids in list order. */
  function DetectionOrder(walletType: Option<string>, available: seq<Connector>): seq<string>
  {
    (if walletType.Some? then [walletType.value] else []) + ConnectorIds(available)
  }

  /** The ids collected in the `Set`: each added id once. */
  function CollectedIds(walletType: Option<string>, available: seq<Connector>): seq<string>
  {
    InsertionOrder(DetectionOrder(walletType, available))
  }

  /** What `getAvailableWallets` returns, stated on values. */
  function AvailableWallets(hasWindow: bool, ethereum: EthereumSlot, connectors: seq<Connector>)
    : (r: Outcome<seq<WalletInfo>>)
    ensures !hasWindow || ethereum.EthereumUndefined? || InjectedWithProvider(connectors) == []
            ==> r == Returned([])
    ensures r.Threw? <==> hasWindow && ethereum.EthereumNull? && InjectedWithProvider(connectors) != []
    ensures r.Returned? ==> forall w :: w in r.value ==> w in SupportedWallets.Values
  {
    if !hasWindow || ethereum.EthereumUndefined? then Returned([])
    else
      var available := InjectedWithProvider(connectors);
      if available == [] then Returned([])
      else
        match DetectWalletType(hasWindow, ethereum)
        case Threw => Threw
        case Returned(t) => Returned(TableEntries(CollectedIds(t, available)))
  }

  /** Every offered wallet is a table entry; no id is offered twice; an id
      is offered exactly when it was detected or belongs to a usable injected
      connector and has a table entry. */
  lemma AvailableWalletsSpec(hasWindow: bool, ethereum: EthereumSlot, connectors: seq<Connector>)
    requires AvailableWallets(hasWindow, ethereum, connectors).Returned?
    ensures var ws := AvailableWallets(hasWindow, ethereum, connectors).value;
      && (forall w :: w in ws ==> w in SupportedWallets.Values)
      && NoDuplicates(WalletIds(ws))
      && (forall x :: x in WalletIds(ws) <==>
            x in SupportedWallets && hasWindow && ethereum.Provider? && InjectedWithProvider(connectors) != []
            && ((exists c :: c in InjectedWithProvider(connectors) && c.id == x)
                || DetectWalletType(hasWindow, ethereum) == Returned(Some(x))))
  {
    var ws := AvailableWallets(hasWindow, ethereum, connectors).value;
    if hasWindow && !ethereum.EthereumUndefined? {
      var available := InjectedWithProvider(connectors);
      if available != [] {
        var t := DetectWalletType(hasWindow, ethereum).value;
        var raw := DetectionOrder(t, available);
        InsertionOrderSpec(raw);
        TableEntriesIds(CollectedIds(t, available));
        forall x ensures x in raw <==> (exists c :: c in available && c.id == x) || t == Some(x) {
          if x in ConnectorIds(available) {
            var i :| 0 <= i < |available| && ConnectorIds(available)[i] == x;
            assert available[i] in available;
          }
          if exists c :: c in available && c.id == x {
            var c :| c in available && c.id == x;
            var i :| 0 <= i < |available| && available[i] == c;
            assert ConnectorIds(available)[i] == x;
          }
        }
      }
    }
  }

  /** Dropping the ids without a table entry keeps the others in their
      order. */
  lemma {:induction false} SupportedOnlyKeepsOrder(ids: seq<string>, raw: seq<string>)
    requires forall x :: x in ids ==> x in raw
    requires forall i, j :: 0 <= i < j < |ids| ==> FirstIndex(raw, ids[i]) < FirstIndex(raw, ids[j])
    ensures forall x :: x in SupportedOnly(ids) ==> x in raw
    ensures forall i, j :: 0 <= i < j < |SupportedOnly(ids)| ==>
      FirstIndex(raw, SupportedOnly(ids)[i]) < FirstIndex(raw, SupportedOnly(ids)[j])
  {
    TableEntriesIds(ids);
    if ids != [] {
      var tail := ids[1..];
      forall i, j | 0 <= i < j < |tail| ensures FirstIndex(raw, tail[i]) < FirstIndex(raw, tail[j]) {
        assert tail[i] == ids[i + 1] && tail[j] == ids[j + 1];
      }
      SupportedOnlyKeepsOrder(tail, raw);
      TableEntriesIds(tail);
      var rest := SupportedOnly(tail);
      var r := SupportedOnly(ids);
      if ids[0] in SupportedWallets {
        forall i, j | 0 <= i < j < |r| ensures FirstIndex(raw, r[i]) < FirstIndex(raw, r[j]) {
          if i == 0 {
            assert r[j] == rest[j - 1] && r[j] in tail;
            var k :| 0 <= k < |tail| && tail[k] == r[j];
            assert ids[k + 1] == r[j];
          } else {
            assert r[i] == rest[i - 1] && r[j] == rest[j - 1];
          }
        }
      }
    }
  }

  /** The offered wallets come in the order their ids were first added to
      the `Set`: the detected type first, then the connector ids in list
      order. */
  lemma AvailableWalletsOrder(hasWindow: bool, ethereum: EthereumSlot, connectors: seq<Connector>,
                              t: Option<string>)
    requires DetectWalletType(hasWindow, ethereum) == Returned(t)
    ensures var ws := AvailableWallets(hasWindow, ethereum, connectors).value;
      var raw := DetectionOrder(t, InjectedWithProvider(connectors));
      forall i, j :: 0 <= i < j < |ws| ==>
        ws[i].id in raw && ws[j].id in raw && FirstIndex(raw, ws[i].id) < FirstIndex(raw, ws[j].id)
  {
    var available := InjectedWithProvider(connectors);
    if hasWindow && !ethereum.EthereumUndefined? && available != [] {
      var raw := DetectionOrder(t, available);
      var ids := CollectedIds(t, available);
      InsertionOrderSpec(raw);
      TableEntriesIds(ids);
      SupportedOnlyKeepsOrder(ids, raw);
      var ws := AvailableWallets(hasWindow, ethereum, connectors).value;
      assert WalletIds(ws) == SupportedOnly(ids);
      forall i | 0 <= i < |ws| ensures ws[i].id == SupportedOnly(ids)[i] {
      }
    }
  }

  lemma {:induction false} NoneInjected(cs: seq<Connector>)
    requires forall c :: c in cs ==> c.kind != "injected" || !c.hasGetProvider
    ensures InjectedWithProvider(cs) == []
  {
    if cs != [] {
      assert cs[0] in cs;
      NoneInjected(cs[1..]);
    }
  }

  /** The list is empty without a window, without `window.ethereum`, or when
      no connector is an injected one with a provider getter. */
  lemma AvailableWalletsEmpty(hasWindow: bool, ethereum: EthereumSlot, connectors: seq<Connector>)
    requires !hasWindow || ethereum.EthereumUndefined?
             || (forall c :: c in connectors ==> c.kind != "injected" || !c.hasGetProvider)
    ensures AvailableWallets(hasWindow, ethereum, connectors) == Returned([])
  {
    if hasWindow && !ethereum.EthereumUndefined? {
      NoneInjected(connectors);
    }
  }

  // ---------------------------------------------------------------------
  // The operation

  /** The `Set` filled by `getAvailableWallets`: the detected type, then
      `availableWagmiConnectors.forEach(c => detectedWallets.add(c.id))`. */
  method CollectWalletIds(walletType: Option<string>, available: seq<Connector>)
    returns (detectedWallets: seq<string>)
    ensures detectedWallets == CollectedIds(walletType, available)
  {
    ghost var raw := DetectionOrder(walletType, available);
    ghost var lead := |raw| - |available|;
    detectedWallets := [];
    if walletType.Some? {
      detectedWallets := SetAdd(detectedWallets, walletType.value);
      assert raw[..1] == [walletType.value];
    }
    assert raw[..lead] == if walletType.Some? then [walletType.value] else [];
    var i := 0;
    while i < |available|
      invariant 0 <= i <= |available|
      invariant detectedWallets == InsertionOrder(raw[..lead + i])
    {
      assert raw[..lead + i + 1][..lead + i] == raw[..lead + i];
      detectedWallets := SetAdd(detectedWallets, available[i].id);
      i := i + 1;
    }
    assert raw[..lead + i] == raw;
  }

  /** The last item of `ws` with id `id`: the value a `Map` keyed by id
      keeps for that key. */
  function LastWithId(ws: seq<WalletInfo>, id: string): (r: Option<WalletInfo>)
    ensures r.Some? <==> id in WalletIds(ws)
    ensures r.Some? ==> r.value in ws && r.value.id == id
  {
    if ws == [] then None
    else if ws[|ws| - 1].id == id then Some(ws[|ws| - 1])
    else
      var r := LastWithId(ws[..|ws| - 1], id);
      assert WalletIds(ws) == WalletIds(ws[..|ws| - 1]) + [ws[|ws| - 1].id];
      r
  }

  lemma InsertionOrderSnoc(s: seq<string>, x: string)
    ensures InsertionOrder(s + [x]) == SetAdd(InsertionOrder(s), x)
  {
    assert (s + [x])[..|s|] == s;
  }

  /** `Array.from(new Map(list.map(item => [item.id, item])).values())`:
      one item per id, in the order the ids first occur, each the last item
      listed with that id. */
  method DedupeById(walletList: seq<WalletInfo>) returns (values: seq<WalletInfo>)
    ensures WalletIds(values) == InsertionOrder(WalletIds(walletList))
    ensures forall k :: 0 <= k < |values| ==> LastWithId(walletList, values[k].id) == Some(values[k])
  {
    var byId: map<string, WalletInfo> := map[];
    var keys: seq<string> := [];
    var j := 0;
    while j < |walletList|
      invariant 0 <= j <= |walletList|
      invariant keys == InsertionOrder(WalletIds(walletList[..j]))
      invariant forall x :: x in byId <==> x in WalletIds(walletList[..j])
      invariant forall x :: x in byId ==> LastWithId(walletList[..j], x) == Some(byId[x])
    {
      var item := walletList[j];
      ghost var seen := WalletIds(walletList[..j]);
      assert walletList[..j + 1][..j] == walletList[..j];
      assert WalletIds(walletList[..j + 1]) == seen + [item.id];
      InsertionOrderSpec(seen);
      InsertionOrderSnoc(seen, item.id);
      if item.id !in byId {
        keys := keys + [item.id];
      }
      byId := byId[item.id := item];
      j := j + 1;
    }
    assert walletList[..j] == walletList;
    InsertionOrderSpec(WalletIds(walletList));
    values := seq(|keys|, k requires 0 <= k < |keys| => byId[keys[k]]);
  }

  /** When the ids are already distinct, the `Map` gives the list back. */
  lemma {:induction false} DedupeDistinct(ws: seq<WalletInfo>, values: seq<WalletInfo>)
    requires NoDuplicates(WalletIds(ws))
    requires WalletIds(values) == InsertionOrder(WalletIds(ws))
    requires forall k :: 0 <= k < |values| ==> LastWithId(ws, values[k].id) == Some(values[k])
    ensures values == ws
  {
    InsertionOrderOfDistinct(WalletIds(ws));
    forall k | 0 <= k < |ws| ensures values[k] == ws[k] {
      LastWithIdOfDistinct(ws, k);
    }
  }

  lemma {:induction false} InsertionOrderOfDistinct(s: seq<string>)
    requires NoDuplicates(s)
    ensures InsertionOrder(s) == s
    decreases |s|
  {
    if s != [] {
      var n := |s| - 1;
      InsertionOrderOfDistinct(s[..n]);
      assert s[n] !in s[..n];
      assert s == s[..n] + [s[n]];
    }
  }

  lemma {:induction false} LastWithIdOfDistinct(ws: seq<WalletInfo>, k: nat)
    requires NoDuplicates(WalletIds(ws)) && k < |ws|
    ensures LastWithId(ws, ws[k].id) == Some(ws[k])
    decreases |ws|
  {
    var n := |ws| - 1;
    if k < n {
      assert WalletIds(ws)[k] != WalletIds(ws)[n];
      var prefix := ws[..n];
      assert WalletIds(prefix) == WalletIds(ws)[..n];
      LastWithIdOfDistinct(prefix, k);
    }
  }

  /** `getAvailableWallets`. */
  method GetAvailableWallets(hasWindow: bool, ethereum: EthereumSlot, connectors: seq<Connector>)
    returns (r: Outcome<seq<WalletInfo>>)
    ensures r == AvailableWallets(hasWindow, ethereum, connectors)
  {
    if !hasWindow || ethereum.EthereumUndefined? {
      return Returned([]);
    }
    var available := InjectedWithProvider(connectors);
    if |available| == 0 {
      return Returned([]);
    }
    var walletType := DetectWalletType(hasWindow, ethereum);
    if walletType.Threw? {
      return Threw;
    }
    var detectedWallets := CollectWalletIds(walletType.value, available);
    var walletList := TableEntries(detectedWallets);
    InsertionOrderSpec(DetectionOrder(walletType.value, available));
    TableEntriesIds(detectedWallets);
    var values := DedupeById(walletList);
    DedupeDistinct(walletList, values);
    return Returned(values);
  }
}
