/**
 The gate in front of deleting an account: the places gathered from its record, what was read of each, and
 the reason a deletion is refused for.
 */
module Holdings {
  import opened Texts
  import opened Lists

  predicate UniqueKeys<V>(s: seq<(Text, V)>) { forall i, j | 0 <= i < j < |s| :: s[i].0 != s[j].0 }

  /** A JavaScript object used as a dictionary, in the order of its entries. */
  type Record<V> = s: seq<(Text, V)> | UniqueKeys(s)

  datatype Wallets = Wallets(
    buyerAddress: Text, sellerAddress: Text, x402Wallet: Option<Text>, gatewayWallet: Option<Text>,
    bridgeWallets: Record<Text>, buyerBridgeWallets: Record<Text>, sellerBridgeWallets: Record<Text>,
    legacyBridgeWallets: Record<seq<Text>>)

  datatype Chain = Chain(key: Text, circleBlockchain: Text)

  datatype Place =
    | OnArc(address: Text) | OnChain(key: Text, address: Text) | OnSolana(address: Text)
    | Unified(identity: Text) | X402Deposit(depositor: Text) | Stake(identity: Text)

  /** `micros` is None when the read threw. */
  datatype Holding = Holding(place: Place, micros: Option<int>)

  const SOL := Ascii("SOL")

  // ---- The places, one list after another ----

  function Get<V>(s: seq<(Text, V)>, key: Text): Option<V> {
    if s == [] then None else if s[0].0 == key then Some(s[0].1) else Get(s[1..], key)
  }

  /** The non-empty addresses in lower case, each once. */
  function Cleaned(addresses: seq<Text>): seq<Text> {
    var present := Filter(addresses, a => a != []);
    Distinct(seq(|present|, i requires 0 <= i < |present| => Lower(present[i])))
  }

  function AddressOn(wallets: seq<(Text, Text)>, blockchain: Text): seq<Text> {
    match Get(wallets, blockchain) case None => [] case Some(a) => [a]
  }

  function Present(a: Option<Text>): seq<Text> { if a.Some? then [a.value] else [] }

  function ArcAddresses(identity: Text, record: Option<Wallets>): seq<Text> {
    [identity] + match record
      case None => []
      case Some(r) => [r.buyerAddress, r.sellerAddress] + Present(r.x402Wallet) + Present(r.gatewayWallet)
  }

  function ChainAddresses(identity: Text, record: Option<Wallets>, blockchain: Text): seq<Text> {
    [identity] + match record
      case None => []
      case Some(r) =>
        [r.buyerAddress, r.sellerAddress]
        + AddressOn(r.bridgeWallets, blockchain) + AddressOn(r.buyerBridgeWallets, blockchain)
        + AddressOn(r.sellerBridgeWallets, blockchain)
        + (match Get(r.legacyBridgeWallets, blockchain) case None => [] case Some(ws) => ws)
  }

  function SolanaOf(wallets: seq<(Text, Text)>): seq<Text> {
    if wallets == [] then []
    else SolanaOf(wallets[..|wallets| - 1]) + if StartsWith(wallets[|wallets| - 1].0, SOL)
      then [wallets[|wallets| - 1].1] else []
  }

  function SolanaLegacyOf(wallets: seq<(Text, seq<Text>)>): seq<Text> {
    if wallets == [] then []
    else SolanaLegacyOf(wallets[..|wallets| - 1]) + if StartsWith(wallets[|wallets| - 1].0, SOL)
      then wallets[|wallets| - 1].1 else []
  }

  /** Unlike the others, these are compared and read in the letter case they are stored in. */
  function SolanaAddresses(record: Option<Wallets>): seq<Text> {
    match record
    case None => []
    case Some(r) => Distinct(SolanaOf(r.bridgeWallets) + SolanaLegacyOf(r.legacyBridgeWallets))
  }

  function At(key: Option<Text>, address: Text): Place {
    match key case None => OnArc(address) case Some(k) => OnChain(k, address)
  }

  function Placed(key: Option<Text>, addresses: seq<Text>): seq<Place> {
    var cleaned := Cleaned(addresses);
    seq(|cleaned|, i requires 0 <= i < |cleaned| => At(key, cleaned[i]))
  }

  function ChainPlaced(identity: Text, record: Option<Wallets>, c: Chain): seq<Place> {
    Placed(Some(c.key), ChainAddresses(identity, record, c.circleBlockchain))
  }

  function ChainJobs(identity: Text, record: Option<Wallets>, chains: seq<Chain>): seq<Place> {
    if chains == [] then []
    else
      ChainJobs(identity, record, chains[..|chains| - 1]) + ChainPlaced(identity, record, chains[|chains| - 1])
  }

  function SolanaJobs(record: Option<Wallets>): seq<Place> {
    var a := SolanaAddresses(record);
    seq(|a|, i requires 0 <= i < |a| => OnSolana(a[i]))
  }

  function OtherJobs(identity: Text, record: Option<Wallets>): seq<Place> {
    [Unified(identity)]
    + (if record.Some? && record.value.x402Wallet.Some? then [X402Deposit(record.value.x402Wallet.value)] else [])
    + [Stake(identity)]
  }

  function Jobs(identity: Text, record: Option<Wallets>, chains: seq<Chain>): seq<Place> {
    Placed(None, ArcAddresses(identity, record)) + ChainJobs(identity, record, chains) + SolanaJobs(record)
      + OtherJobs(identity, record)
  }

  function ReadAll(jobs: seq<Place>, answer: Place -> Option<int>): seq<Holding> {
    seq(|jobs|, i requires 0 <= i < |jobs| => Holding(jobs[i], answer(jobs[i])))
  }

  // ---- The methods ----

  /** The closure that pushes the reads of one chain. */
  method Add(jobs: seq<Place>, key: Option<Text>, addresses: seq<Text>) returns (r: seq<Place>)
    ensures r == jobs + Placed(key, addresses)
  {
    r := jobs;
    var cleaned := Cleaned(addresses);
    for i := 0 to |cleaned|
      invariant r == jobs + Placed(key, addresses)[..i]
    {
      r := r + [At(key, cleaned[i])];
      assert Placed(key, addresses)[..i + 1] == Placed(key, addresses)[..i] + [At(key, cleaned[i])];
    }
    assert Placed(key, addresses)[..|cleaned|] == Placed(key, addresses);
  }

  method AddSolana(jobs: seq<Place>, record: Option<Wallets>) returns (r: seq<Place>)
    ensures r == jobs + SolanaJobs(record)
  {
    r := jobs;
    var addresses := SolanaAddresses(record);
    for i := 0 to |addresses|
      invariant r == jobs + SolanaJobs(record)[..i]
    {
      r := r + [OnSolana(addresses[i])];
      assert SolanaJobs(record)[..i + 1] == SolanaJobs(record)[..i] + [OnSolana(addresses[i])];
    }
    assert SolanaJobs(record)[..|addresses|] == SolanaJobs(record);
  }

  method AddChains(jobs: seq<Place>, identity: Text, record: Option<Wallets>,
      chains: seq<Chain>) returns (r: seq<Place>)
    ensures r == jobs + ChainJobs(identity, record, chains)
  {
    hide Placed, ChainAddresses;
    r := jobs;
    for i := 0 to |chains|
      invariant r == jobs + ChainJobs(identity, record, chains[..i])
    {
      ghost var before := r;
      r := Add(r, Some(chains[i].key), ChainAddresses(identity, record, chains[i].circleBlockchain));
      assert r == before + ChainPlaced(identity, record, chains[i]);
      assert chains[..i + 1][..i] == chains[..i];
    }
    assert chains[..|chains|] == chains;
  }

  /** Each job is read once; a read that throws is recorded as None. */
  method ReadEach(jobs: seq<Place>, answer: Place -> Option<int>) returns (holdings: seq<Holding>)
    ensures holdings == ReadAll(jobs, answer)
  {
    holdings := [];
    for i := 0 to |jobs|
      invariant holdings == ReadAll(jobs[..i], answer)
    {
      holdings := holdings + [Holding(jobs[i], answer(jobs[i]))];
    }
    assert jobs[..|jobs|] == jobs;
  }

  method HoldingsOf(identity: Text, record: Option<Wallets>, chains: seq<Chain>, answer: Place -> Option<int>)
    returns (holdings: seq<Holding>)
    ensures holdings == ReadAll(Jobs(identity, record, chains), answer)
  {
    hide Placed, ChainJobs, SolanaJobs;
    var jobs := Add([], None, ArcAddresses(identity, record));
    jobs := AddChains(jobs, identity, record, chains);
    jobs := AddSolana(jobs, record);
    var gathered := jobs;
    jobs := jobs + [Unified(identity)];
    if record.Some? && record.value.x402Wallet.Some? {
      jobs := jobs + [X402Deposit(record.value.x402Wallet.value)];
    }
    jobs := jobs + [Stake(identity)];
    assert jobs == gathered + OtherJobs(identity, record);
    holdings := ReadEach(jobs, answer);
  }

  // ---- Which places those are ----

  ghost predicate OnAccount(identity: Text, record: Option<Wallets>, raw: Text) {
    raw == identity || (record.Some? && (raw == record.value.buyerAddress || raw == record.value.sellerAddress))
  }

  ghost predicate IsArcAddress(identity: Text, record: Option<Wallets>, raw: Text) {
    || OnAccount(identity, record, raw)
    || (record.Some? && (record.value.x402Wallet == Some(raw) || record.value.gatewayWallet == Some(raw)))
  }

  ghost predicate IsChainAddress(identity: Text, record: Option<Wallets>, blockchain: Text, raw: Text) {
    || OnAccount(identity, record, raw)
    || (record.Some? && var r := record.value;
        || (blockchain, raw) in r.bridgeWallets || (blockchain, raw) in r.buyerBridgeWallets
        || (blockchain, raw) in r.sellerBridgeWallets
        || exists ws :: (blockchain, ws) in r.legacyBridgeWallets && raw in ws)
  }

  ghost predicate IsSolanaAddress(record: Option<Wallets>, raw: Text) {
    record.Some? && var r := record.value;
      || (exists b :: StartsWith(b, Ascii("SOL")) && (b, raw) in r.bridgeWallets)
      || (exists b, ws :: StartsWith(b, Ascii("SOL")) && (b, ws) in r.legacyBridgeWallets && raw in ws)
  }

  ghost predicate IsOnArc(identity: Text, record: Option<Wallets>, p: Place) {
    p.OnArc? && exists raw :: raw != [] && Lower(raw) == p.address && IsArcAddress(identity, record, raw)
  }

  ghost predicate IsOnChain(identity: Text, record: Option<Wallets>, c: Chain, p: Place) {
    p.OnChain? && p.key == c.key
    && exists raw :: raw != [] && Lower(raw) == p.address && IsChainAddress(identity, record, c.circleBlockchain, raw)
  }

  /**
   Every place the gathering reads: Solana addresses are looked for among the account's own and its
   earlier wallets only.
   */
  ghost predicate IsPlace(identity: Text, record: Option<Wallets>, chains: seq<Chain>, p: Place) {
    match p
    case OnArc(_) => IsOnArc(identity, record, p)
    case OnChain(_, _) => exists c :: c in chains && IsOnChain(identity, record, c, p)
    case OnSolana(a) => IsSolanaAddress(record, a)
    case Unified(id) => id == identity
    case X402Deposit(a) => record.Some? && record.value.x402Wallet == Some(a)
    case Stake(id) => id == identity
  }

  lemma {:induction false} GetFinds<V>(s: seq<(Text, V)>, key: Text, v: V)
    requires UniqueKeys(s)
    ensures Get(s, key) == Some(v) <==> (key, v) in s
  {
    if s != [] {
      GetFinds(s[1..], key, v);
      assert s == [s[0]] + s[1..];
    }
  }

  lemma CleanedAre(addresses: seq<Text>)
    ensures forall a :: a in Cleaned(addresses) <==> exists raw :: raw in addresses && raw != [] && Lower(raw) == a
    ensures NoRepeats(Cleaned(addresses))
  {
    var keep := (a: Text) => a != [];
    var present := Filter(addresses, keep);
    var lower := seq(|present|, i requires 0 <= i < |present| => Lower(present[i]));
    forall a ensures a in Cleaned(addresses) <==> exists raw :: raw in addresses && raw != [] && Lower(raw) == a {
      assert a in Cleaned(addresses) <==> a in Elements(lower);
      if a in lower {
        var i :| 0 <= i < |lower| && lower[i] == a;
        FilterHas(addresses, keep, present[i]);
      }
      if raw :| raw in addresses && raw != [] && Lower(raw) == a {
        FilterHas(addresses, keep, raw);
        var i :| 0 <= i < |present| && present[i] == raw;
        assert lower[i] == a;
      }
    }
  }

  lemma PlacedAre(key: Option<Text>, addresses: seq<Text>, p: Place)
    ensures p in Placed(key, addresses)
      <==> exists raw :: raw in addresses && raw != [] && At(key, Lower(raw)) == p
    ensures NoRepeats(Placed(key, addresses))
  {
    hide Cleaned;
    CleanedAre(addresses);
    var cleaned, placed := Cleaned(addresses), Placed(key, addresses);
    if p in placed {
      var i :| 0 <= i < |placed| && placed[i] == p;
      assert cleaned[i] in cleaned;
      var raw :| raw in addresses && raw != [] && Lower(raw) == cleaned[i];
      assert At(key, Lower(raw)) == p;
    }
    if raw :| raw in addresses && raw != [] && At(key, Lower(raw)) == p {
      assert Lower(raw) in cleaned;
      var i :| 0 <= i < |cleaned| && cleaned[i] == Lower(raw);
      assert placed[i] == p;
    }
  }

  lemma OneKind(key: Option<Text>, addresses: seq<Text>, p: Place)
    requires p in Placed(key, addresses)
    ensures match key case None => p.OnArc? case Some(k) => p.OnChain? && p.key == k
  {
  }

  lemma {:induction false} SolanaOfAre(wallets: seq<(Text, Text)>, a: Text)
    ensures a in SolanaOf(wallets) <==> exists b :: StartsWith(b, SOL) && (b, a) in wallets
  {
    if wallets != [] {
      var front := wallets[..|wallets| - 1];
      SolanaOfAre(front, a);
      assert wallets == front + [wallets[|wallets| - 1]];
    }
  }

  lemma {:induction false} SolanaLegacyOfAre(wallets: seq<(Text, seq<Text>)>, a: Text)
    ensures a in SolanaLegacyOf(wallets) <==> exists b, ws :: StartsWith(b, SOL) && (b, ws) in wallets && a in ws
  {
    if wallets != [] {
      var front := wallets[..|wallets| - 1];
      SolanaLegacyOfAre(front, a);
      assert wallets == front + [wallets[|wallets| - 1]];
    }
  }

  lemma SolanaJobsAre(record: Option<Wallets>, p: Place)
    ensures p in SolanaJobs(record) <==> p.OnSolana? && IsSolanaAddress(record, p.address)
    ensures NoRepeats(SolanaJobs(record))
  {
    var addresses := SolanaAddresses(record);
    if p.OnSolana? && record.Some? {
      var r := record.value;
      SolanaOfAre(r.bridgeWallets, p.address);
      SolanaLegacyOfAre(r.legacyBridgeWallets, p.address);
      assert p.address in addresses
        <==> p.address in Elements(SolanaOf(r.bridgeWallets) + SolanaLegacyOf(r.legacyBridgeWallets));
      if p.address in addresses {
        var i :| 0 <= i < |addresses| && addresses[i] == p.address;
        assert SolanaJobs(record)[i] == p;
      }
    }
  }

  lemma ArcAddressesAre(identity: Text, record: Option<Wallets>, raw: Text)
    ensures raw in ArcAddresses(identity, record) <==> IsArcAddress(identity, record, raw)
  {
  }

  lemma ChainAddressesAre(identity: Text, record: Option<Wallets>, blockchain: Text, raw: Text)
    ensures raw in ChainAddresses(identity, record, blockchain) <==> IsChainAddress(identity, record, blockchain, raw)
  {
    if record.Some? {
      var r := record.value;
      GetFinds(r.bridgeWallets, blockchain, raw);
      GetFinds(r.buyerBridgeWallets, blockchain, raw);
      GetFinds(r.sellerBridgeWallets, blockchain, raw);
      forall ws: seq<Text> ensures Get(r.legacyBridgeWallets, blockchain) == Some(ws)
        <==> (blockchain, ws) in r.legacyBridgeWallets {
        GetFinds(r.legacyBridgeWallets, blockchain, ws);
      }
    }
  }

  lemma ArcPlaces(identity: Text, record: Option<Wallets>, p: Place)
    ensures p in Placed(None, ArcAddresses(identity, record)) <==> IsOnArc(identity, record, p)
  {
    hide Placed, ArcAddresses, IsArcAddress, OnAccount;
    PlacedAre(None, ArcAddresses(identity, record), p);
    forall raw ensures raw in ArcAddresses(identity, record) <==> IsArcAddress(identity, record, raw) {
      ArcAddressesAre(identity, record, raw);
    }
  }

  lemma ChainPlaces(identity: Text, record: Option<Wallets>, c: Chain, p: Place)
    ensures p in ChainPlaced(identity, record, c) <==> IsOnChain(identity, record, c, p)
  {
    hide Placed, ChainAddresses, IsChainAddress, OnAccount;
    PlacedAre(Some(c.key), ChainAddresses(identity, record, c.circleBlockchain), p);
    forall raw ensures raw in ChainAddresses(identity, record, c.circleBlockchain)
      <==> IsChainAddress(identity, record, c.circleBlockchain, raw) {
      ChainAddressesAre(identity, record, c.circleBlockchain, raw);
    }
  }

  lemma {:induction false} ChainJobsAre(identity: Text, record: Option<Wallets>, chains: seq<Chain>, p: Place)
    ensures p in ChainJobs(identity, record, chains) <==> exists c :: c in chains && IsOnChain(identity, record, c, p)
  {
    hide ChainPlaced, IsOnChain;
    if chains != [] {
      var front, c := chains[..|chains| - 1], chains[|chains| - 1];
      ChainJobsAre(identity, record, front, p);
      ChainPlaces(identity, record, c, p);
      assert chains == front + [c];
    }
  }

  /** The jobs are exactly the places described above. */
  lemma JobsAreThePlaces(identity: Text, record: Option<Wallets>, chains: seq<Chain>, p: Place)
    ensures p in Jobs(identity, record, chains) <==> IsPlace(identity, record, chains, p)
  {
    hide Placed, ChainJobs, SolanaJobs, IsArcAddress, IsSolanaAddress, IsChainAddress;
    ArcPlaces(identity, record, p);
    ChainJobsAre(identity, record, chains, p);
    SolanaJobsAre(record, p);
  }

  // ---- Each place once ----

  ghost predicate DistinctKeys(chains: seq<Chain>) {
    forall i, j | 0 <= i < j < |chains| :: chains[i].key != chains[j].key
  }

  lemma Apart<T>(a: seq<T>, b: seq<T>)
    requires NoRepeats(a) && NoRepeats(b) && forall i, j | 0 <= i < |a| && 0 <= j < |b| :: a[i] != b[j]
    ensures NoRepeats(a + b)
  {
    forall i, j | 0 <= i < j < |a + b| ensures (a + b)[i] != (a + b)[j] {
      if i < |a| <= j { assert (a + b)[i] == a[i] && (a + b)[j] == b[j - |a|]; }
    }
  }

  lemma {:induction false} ChainJobsOnce(identity: Text, record: Option<Wallets>, chains: seq<Chain>)
    requires DistinctKeys(chains)
    ensures NoRepeats(ChainJobs(identity, record, chains))
  {
    hide Placed, ChainAddresses, IsChainAddress;
    if chains != [] {
      var front, c := chains[..|chains| - 1], chains[|chains| - 1];
      var a, b := ChainJobs(identity, record, front), ChainPlaced(identity, record, c);
      ChainJobsOnce(identity, record, front);
      forall i, j | 0 <= i < |a| && 0 <= j < |b| ensures a[i] != b[j] {
        ChainJobsAre(identity, record, front, a[i]);
        OneKind(Some(c.key), ChainAddresses(identity, record, c.circleBlockchain), b[j]);
      }
      ChainPlacedOnce(identity, record, c);
      Apart(a, b);
    }
  }

  lemma ChainPlacedOnce(identity: Text, record: Option<Wallets>, c: Chain)
    ensures NoRepeats(ChainPlaced(identity, record, c))
  {
    PlacedAre(Some(c.key), ChainAddresses(identity, record, c.circleBlockchain), Stake([]));
  }

  /** No place is read twice, as long as no two chains share a key. */
  lemma EachPlaceOnce(identity: Text, record: Option<Wallets>, chains: seq<Chain>)
    requires DistinctKeys(chains)
    ensures NoRepeats(Jobs(identity, record, chains))
  {
    hide Placed, ChainJobs, SolanaJobs, ArcAddresses, IsChainAddress, IsSolanaAddress;
    var arc, onChains, solana := Placed(None, ArcAddresses(identity, record)), ChainJobs(identity, record, chains),
      SolanaJobs(record);
    ChainJobsOnce(identity, record, chains);
    PlacedAre(None, ArcAddresses(identity, record), Stake([]));
    SolanaJobsAre(record, Stake([]));
    forall i | 0 <= i < |arc| ensures arc[i].OnArc? { OneKind(None, ArcAddresses(identity, record), arc[i]); }
    forall i | 0 <= i < |onChains| ensures onChains[i].OnChain? { ChainJobsAre(identity, record, chains, onChains[i]); }
    forall i | 0 <= i < |solana| ensures solana[i].OnSolana? { SolanaJobsAre(record, solana[i]); }
    Apart(arc, onChains);
    Apart(arc + onChains, solana);
    Apart(arc + onChains + solana, OtherJobs(identity, record));
  }

  /** Two chains under one key are read twice at the identity. */
  lemma SharedKeyIsReadTwice(identity: Text, record: Option<Wallets>, chains: seq<Chain>)
    requires identity != [] && !DistinctKeys(chains)
    ensures !NoRepeats(Jobs(identity, record, chains))
  {
    hide ChainJobs, SolanaJobs, Placed, ArcAddresses;
    var i, j :| 0 <= i < j < |chains| && chains[i].key == chains[j].key;
    var p := OnChain(chains[i].key, Lower(identity));
    var first, later := ChainJobs(identity, record, chains[..j]), ChainPlaced(identity, record, chains[j]);
    IdentityIsRead(identity, record, chains[..j], i);
    IdentityIsPlaced(identity, record, chains[j]);
    var m :| 0 <= m < |first| && first[m] == p;
    var n :| 0 <= n < |later| && later[n] == p;
    ChainJobsReach(identity, record, chains, j);
    var arc, jobs := Placed(None, ArcAddresses(identity, record)), Jobs(identity, record, chains);
    assert ChainJobs(identity, record, chains)[m] == p && ChainJobs(identity, record, chains)[|first| + n] == p;
    assert jobs[|arc| + m] == p && jobs[|arc| + (|first| + n)] == p;
  }

  /** Each place is read exactly once precisely when no two chains share a key. */
  lemma EachPlaceOnceIff(identity: Text, record: Option<Wallets>, chains: seq<Chain>)
    requires identity != []
    ensures NoRepeats(Jobs(identity, record, chains)) <==> DistinctKeys(chains)
  {
    if DistinctKeys(chains) {
      EachPlaceOnce(identity, record, chains);
    } else {
      SharedKeyIsReadTwice(identity, record, chains);
    }
  }

  lemma IdentityIsPlaced(identity: Text, record: Option<Wallets>, c: Chain)
    requires identity != []
    ensures IsOnChain(identity, record, c, OnChain(c.key, Lower(identity)))
    ensures OnChain(c.key, Lower(identity)) in ChainPlaced(identity, record, c)
  {
    ChainPlaces(identity, record, c, OnChain(c.key, Lower(identity)));
    assert IsChainAddress(identity, record, c.circleBlockchain, identity);
  }

  lemma IdentityIsRead(identity: Text, record: Option<Wallets>, chains: seq<Chain>, i: nat)
    requires identity != [] && i < |chains|
    ensures OnChain(chains[i].key, Lower(identity)) in ChainJobs(identity, record, chains)
  {
    IdentityIsPlaced(identity, record, chains[i]);
    ChainJobsAre(identity, record, chains, OnChain(chains[i].key, Lower(identity)));
  }

  lemma {:induction false} ChainJobsReach(identity: Text, record: Option<Wallets>, chains: seq<Chain>, k: nat)
    requires k < |chains|
    ensures ChainJobs(identity, record, chains[..k])
      + ChainPlaced(identity, record, chains[k]) <= ChainJobs(identity, record, chains)
  {
    hide ChainPlaced;
    var front := chains[..|chains| - 1];
    if k < |front| {
      ChainJobsReach(identity, record, front, k);
      assert front[..k] == chains[..k];
    }
  }

  /** Every place is answered with what was read there, and nothing else is. */
  lemma EachPlaceIsAnswered(identity: Text, record: Option<Wallets>, chains: seq<Chain>, answer: Place -> Option<int>,
      h: Holding)
    ensures h in ReadAll(Jobs(identity, record, chains), answer)
      <==> IsPlace(identity, record, chains, h.place) && h.micros == answer(h.place)
  {
    hide Jobs, IsPlace;
    var jobs := Jobs(identity, record, chains);
    JobsAreThePlaces(identity, record, chains, h.place);
    if h.place in jobs && h.micros == answer(h.place) {
      var i :| 0 <= i < |jobs| && jobs[i] == h.place;
      assert ReadAll(jobs, answer)[i] == h;
    }
  }

  // ---- The decision ----

  const DUST_MICROS := 10_000

  datatype Standing = Standing(openDeals: int, liveOffers: int, openRequests: int, activeBids: int,
    holdings: seq<Holding>)

  datatype RefusalCode = OpenDeal | LiveMarket | AgentBidding | Balance | Unreadable

  /** The fold over the holdings. */
  function Held(holdings: seq<Holding>): (sum: int)
    ensures sum >= 0
  {
    if holdings == [] then 0
    else
      var h := holdings[|holdings| - 1];
      Held(holdings[..|holdings| - 1]) + if h.micros.Some? && h.micros.value >= DUST_MICROS then h.micros.value else 0
  }

  function RefusalFor(s: Standing): Option<RefusalCode> {
    if s.openDeals > 0 then Some(OpenDeal)
    else if s.liveOffers > 0 || s.openRequests > 0 then Some(LiveMarket)
    else if s.activeBids > 0 then Some(AgentBidding)
    else if Held(s.holdings) > 0 then Some(Balance)
    else if exists i :: 0 <= i < |s.holdings| && s.holdings[i].micros.None? then Some(Unreadable)
    else None
  }

  predicate Quiet(s: Standing) { s.openDeals <= 0 && s.liveOffers <= 0 && s.openRequests <= 0 && s.activeBids <= 0 }

  predicate IsDust(micros: Option<int>) { micros.Some? && micros.value < DUST_MICROS }

  lemma {:induction false} HeldIsNothing(holdings: seq<Holding>)
    ensures Held(holdings) == 0
      <==> forall i | 0 <= i < |holdings| :: holdings[i].micros.None? || holdings[i].micros.value < DUST_MICROS
  {
    if holdings != [] {
      var front := holdings[..|holdings| - 1];
      HeldIsNothing(front);
      assert forall i | 0 <= i < |front| :: holdings[i] == front[i];
    }
  }

  lemma HeldOne(h: Holding)
    ensures Held([h]) == match h.micros case None => 0 case Some(m) => if m >= 10_000 then m else 0
  {
    assert [h][..0] == [];
  }

  /** What is held is the sum over the holdings, of each what was read there and is not dust. */
  lemma {:induction false} HeldAdds(a: seq<Holding>, b: seq<Holding>)
    ensures Held(a + b) == Held(a) + Held(b)
    ensures |b| == 1 ==>
      Held(b) == match b[0].micros case None => 0 case Some(m) => if m >= 10_000 then m else 0
  {
    if b == [] {
      assert a + b == a;
    } else {
      assert (a + b)[..|a + b| - 1] == a + b[..|b| - 1];
      HeldAdds(a, b[..|b| - 1]);
      if |b| == 1 { HeldOne(b[0]); assert b == [b[0]]; }
    }
  }

  /** An account is cleared only when nothing is going on and every place was read and holds dust. */
  lemma ClearedIff(s: Standing)
    ensures RefusalFor(s) == None
      <==> Quiet(s) && forall i | 0 <= i < |s.holdings| :: IsDust(s.holdings[i].micros)
  {
    HeldIsNothing(s.holdings);
  }

  /**
   Which reason is named: deals, then the market, then bids, then a balance even beside failed reads, then a
   failed read.
   */
  lemma RefusalNamesTheFirst(s: Standing)
    ensures var code := RefusalFor(s);
      var trading := s.liveOffers > 0 || s.openRequests > 0;
      var money := exists h :: h in s.holdings && h.micros.Some? && h.micros.value >= DUST_MICROS;
      var unread := exists h :: h in s.holdings && h.micros.None?;
      && (code == Some(OpenDeal) <==> s.openDeals > 0)
      && (code == Some(LiveMarket) <==> s.openDeals <= 0 && trading)
      && (code == Some(AgentBidding) <==> s.openDeals <= 0 && !trading && s.activeBids > 0)
      && (code == Some(Balance) <==> Quiet(s) && money)
      && (code == Some(Unreadable) <==> Quiet(s) && !money && unread)
  {
    HeldIsNothing(s.holdings);
  }

  /**
   The gate as a whole: with the holdings the account was read to have, it is cleared exactly when
   nothing is going on and every place the gathering reads was read and holds less than a cent.
   */
  lemma ClearedOnFullKnowledge(s: Standing, identity: Text, record: Option<Wallets>, chains: seq<Chain>,
      answer: Place -> Option<int>)
    requires s.holdings == ReadAll(Jobs(identity, record, chains), answer)
    ensures RefusalFor(s) == None
      <==> Quiet(s) && forall p :: IsPlace(identity, record, chains, p) ==> IsDust(answer(p))
  {
    hide Jobs, IsPlace;
    ClearedIff(s);
    var jobs := Jobs(identity, record, chains);
    if forall p :: IsPlace(identity, record, chains, p) ==> IsDust(answer(p)) {
      forall i | 0 <= i < |s.holdings| ensures IsDust(s.holdings[i].micros) {
        JobsAreThePlaces(identity, record, chains, jobs[i]);
      }
    }
    if forall i | 0 <= i < |s.holdings| :: IsDust(s.holdings[i].micros) {
      forall p | IsPlace(identity, record, chains, p) ensures IsDust(answer(p)) {
        JobsAreThePlaces(identity, record, chains, p);
        var i :| 0 <= i < |jobs| && jobs[i] == p;
        assert s.holdings[i].micros == answer(p);
      }
    }
  }
}
