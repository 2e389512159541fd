/** Client certificate revocation: the lazily built index, the store that is swapped under it, and
    the check made for every client. */
module Revocation {
  import opened Wire
  import opened Pems
  import opened Watch

  // ----- serial numbers as map keys -----

  function Abs(n: int): nat {
    if n < 0 then -n else n
  }

  /** big.Int.Bytes: the absolute value, big-endian, without leading zeros. */
  function Magnitude(n: nat): bytes {
    if n == 0 then [] else Magnitude(n / 256) + [n % 256]
  }

  function FromBytes(b: bytes): nat {
    if b == [] then 0 else FromBytes(b[..|b| - 1]) * 256 + b[|b| - 1]
  }

  lemma {:induction false} MagnitudeRoundTrip(n: nat)
    ensures FromBytes(Magnitude(n)) == n
  {
    if n > 0 {
      MagnitudeRoundTrip(n / 256);
      assert (Magnitude(n / 256) + [n % 256])[..|Magnitude(n / 256)|] == Magnitude(n / 256);
    }
  }

  lemma KeysAreInjective(m: int, n: int)
    ensures Magnitude(Abs(m)) == Magnitude(Abs(n)) <==> Abs(m) == Abs(n)
  {
    MagnitudeRoundTrip(Abs(m));
    MagnitudeRoundTrip(Abs(n));
  }

  // ----- the index -----

  predicate Lists(serials: seq<int>, serial: int) {
    exists s <- serials :: Abs(s) == Abs(serial)
  }

  /** The definition: some list names a serial number of that magnitude. */
  predicate Listed(crls: seq<RevocationList>, serial: int) {
    exists l <- crls :: Lists(l.serials, serial)
  }

  /** The keys of the index. */
  ghost predicate IsIndex(index: set<bytes>, crls: seq<RevocationList>) {
    forall serial :: Magnitude(Abs(serial)) in index <==> Listed(crls, serial)
  }

  ghost predicate IsListIndex(index: set<bytes>, before: set<bytes>, serials: seq<int>) {
    forall serial ::
      Magnitude(Abs(serial)) in index
      <==> Magnitude(Abs(serial)) in before || Lists(serials, serial)
  }

  /** What the store holds; the index of a value is built by the first question asked of it. */
  class CertStore {
    const certificates: seq<bytes>
    const clientCAs: Option<seq<bytes>>
    const clientCRLs: seq<RevocationList>
    var built: bool
    var lazyRevokedSerialNumbers: set<bytes>

    ghost predicate Valid()
      reads this
    {
      built ==> IsIndex(lazyRevokedSerialNumbers, clientCRLs)
    }

    constructor (certificates: seq<bytes>, clientCAs: Option<seq<bytes>>, clientCRLs: seq<RevocationList>)
      ensures Valid() && !built
      ensures this.certificates == certificates && this.clientCAs == clientCAs && this.clientCRLs == clientCRLs
    {
      this.certificates, this.clientCAs, this.clientCRLs := certificates, clientCAs, clientCRLs;
      built, lazyRevokedSerialNumbers := false, {};
    }

    /** A copy by value: the once flag and the map go with it. */
    constructor Copy(from: CertStore)
      requires from.Valid()
      ensures Valid() && built == from.built
      ensures certificates == from.certificates && clientCAs == from.clientCAs && clientCRLs == from.clientCRLs
    {
      certificates, clientCAs, clientCRLs := from.certificates, from.clientCAs, from.clientCRLs;
      built, lazyRevokedSerialNumbers := from.built, from.lazyRevokedSerialNumbers;
    }

    method Build()
      modifies this
      ensures built && IsIndex(lazyRevokedSerialNumbers, clientCRLs)
    {
      lazyRevokedSerialNumbers := {};
      for i := 0 to |clientCRLs|
        invariant IsIndex(lazyRevokedSerialNumbers, clientCRLs[..i])
      {
        var serials := clientCRLs[i].serials;
        ghost var before := lazyRevokedSerialNumbers;
        for j := 0 to |serials|
          invariant IsListIndex(lazyRevokedSerialNumbers, before, serials[..j])
        {
          OneMore(lazyRevokedSerialNumbers, before, serials, j);
          lazyRevokedSerialNumbers := lazyRevokedSerialNumbers + {Magnitude(Abs(serials[j]))};
        }
        assert serials[..|serials|] == serials;
        OneMoreList(lazyRevokedSerialNumbers, before, clientCRLs, i);
      }
      assert clientCRLs[..|clientCRLs|] == clientCRLs;
      built := true;
    }

    /** The index answers as a scan of the lists would. */
    method IsClientCertRevoked(serial: int) returns (revoked: bool)
      requires Valid()
      modifies this
      ensures Valid() && built
      ensures revoked <==> Listed(clientCRLs, serial)
    {
      if !built {
        Build();
      }
      revoked := Magnitude(Abs(serial)) in lazyRevokedSerialNumbers;
    }
  }

  lemma OneMore(index: set<bytes>, before: set<bytes>, serials: seq<int>, j: nat)
    requires j < |serials| && IsListIndex(index, before, serials[..j])
    ensures IsListIndex(index + {Magnitude(Abs(serials[j]))}, before, serials[..j + 1])
  {
    assert serials[..j + 1] == serials[..j] + [serials[j]];
    forall serial: int {
      KeysAreInjective(serials[j], serial);
    }
  }

  lemma OneMoreList(index: set<bytes>, before: set<bytes>, crls: seq<RevocationList>, i: nat)
    requires i < |crls| && IsIndex(before, crls[..i]) && IsListIndex(index, before, crls[i].serials)
    ensures IsIndex(index, crls[..i + 1])
  {
    assert crls[..i + 1] == crls[..i] + [crls[i]];
    hide Lists;
    forall serial: int
      ensures Listed(crls[..i + 1], serial) <==> Listed(crls[..i], serial) || Lists(crls[i].serials, serial)
    {
      ListedSnoc(crls[..i], crls[i], serial);
    }
  }

  lemma ListedSnoc(crls: seq<RevocationList>, l: RevocationList, serial: int)
    ensures Listed(crls + [l], serial) <==> Listed(crls, serial) || Lists(l.serials, serial)
  {
    hide Lists;
    assert l == (crls + [l])[|crls|];
    assert forall k <- crls :: k in crls + [l];
  }

  // ----- the store -----

  class Store {
    var cs: CertStore

    ghost predicate Valid()
      reads this, cs
    {
      cs.Valid()
    }

    constructor ()
      ensures Valid() && fresh(cs) && cs.clientCRLs == []
    {
      cs := new CertStore([], None, []);
    }

    method SetServerCerts(certs: ServerCerts)
      modifies this
      ensures Valid() && fresh(cs)
      ensures cs.certificates == certs.certificates && cs.clientCAs == certs.clientCAs
      ensures cs.clientCRLs == certs.clientCRLs
    {
      cs := new CertStore(certs.certificates, certs.clientCAs, certs.clientCRLs);
    }
  }

  datatype Certificate = Certificate(isCA: bool, serial: int)

  predicate ChainRevoked(crls: seq<RevocationList>, chain: seq<Certificate>) {
    exists c <- chain :: !c.isCA && Listed(crls, c.serial)
  }

  /** Some certificate that is not a CA's is listed. */
  predicate Revoked(crls: seq<RevocationList>, chains: seq<seq<Certificate>>) {
    exists chain <- chains :: ChainRevoked(crls, chain)
  }

  lemma ListedMeans(crls: seq<RevocationList>, serial: int)
    ensures Listed(crls, serial) <==> exists k, m ::
      0 <= k < |crls| && 0 <= m < |crls[k].serials| && (crls[k].serials[m] == serial || crls[k].serials[m] == -serial)
  {
    if Listed(crls, serial) {
      var l :| l in crls && Lists(l.serials, serial);
      var k :| 0 <= k < |crls| && crls[k] == l;
      var n :| n in l.serials && Abs(n) == Abs(serial);
      var m :| 0 <= m < |l.serials| && l.serials[m] == n;
    }
    forall k, m | 0 <= k < |crls| && 0 <= m < |crls[k].serials|
                  && (crls[k].serials[m] == serial || crls[k].serials[m] == -serial)
      ensures Listed(crls, serial)
    {
      assert crls[k] in crls && crls[k].serials[m] in crls[k].serials;
    }
  }

  /** A certificate at position `j` of chain `i` refuses the client: it is not a CA's, and some list has its
      serial number, up to the sign. */
  predicate Refuses(crls: seq<RevocationList>, chains: seq<seq<Certificate>>, i: nat, j: nat) {
    && i < |chains| && j < |chains[i]| && !chains[i][j].isCA
    && exists k, m ::
      && 0 <= k < |crls| && 0 <= m < |crls[k].serials|
      && (crls[k].serials[m] == chains[i][j].serial || crls[k].serials[m] == -chains[i][j].serial)
  }

  /** Which clients are refused, by positions in the chains and in the lists. */
  lemma RevokedExactly(crls: seq<RevocationList>, chains: seq<seq<Certificate>>)
    ensures Revoked(crls, chains) <==> exists i: nat, j: nat :: Refuses(crls, chains, i, j)
  {
    hide Listed;
    if Revoked(crls, chains) {
      var chain :| chain in chains && ChainRevoked(crls, chain);
      var i :| 0 <= i < |chains| && chains[i] == chain;
      var c :| c in chain && !c.isCA && Listed(crls, c.serial);
      var j :| 0 <= j < |chain| && chain[j] == c;
      ListedMeans(crls, c.serial);
      assert Refuses(crls, chains, i, j);
    }
    forall i: nat, j: nat | Refuses(crls, chains, i, j)
      ensures Revoked(crls, chains)
    {
      ListedMeans(crls, chains[i][j].serial);
      assert chains[i] in chains && chains[i][j] in chains[i];
    }
  }

  /** Refuses the client exactly when some certificate in a verified chain is revoked, by the lists
      in the store at that moment. Neither the early exit nor the index changes the answer, and the
      store is not touched: the index is built in a copy. */
  method VerifyClientCertificate(store: Store, chains: seq<seq<Certificate>>) returns (refused: bool)
    requires store.Valid()
    ensures refused <==> Revoked(store.cs.clientCRLs, chains)
  {
    var cs := new CertStore.Copy(store.cs);
    if |cs.clientCRLs| == 0 {
      return false;
    }
    for i := 0 to |chains|
      invariant fresh(cs) && cs.Valid()
      invariant forall k :: 0 <= k < i ==> !ChainRevoked(cs.clientCRLs, chains[k])
    {
      var chain := chains[i];
      for j := 0 to |chain|
        invariant fresh(cs) && cs.Valid()
        invariant forall k :: 0 <= k < j ==> chain[k].isCA || !Listed(cs.clientCRLs, chain[k].serial)
      {
        if !chain[j].isCA {
          var revoked := cs.IsClientCertRevoked(chain[j].serial);
          if revoked {
            assert chain in chains && chain[j] in chain;
            return true;
          }
        }
      }
    }
    return false;
  }

  // ----- from the files to the check -----

  function LoadAll(x: Crypto, files: seq<Option<ServerPEMs>>): (loads: seq<Load>)
    ensures |loads| == |files| && forall k :: 0 <= k < |files| ==> loads[k] == Loaded(x, files[k])
  {
    if files == [] then [] else LoadAll(x, files[..|files| - 1]) + [Loaded(x, files[|files| - 1])]
  }

  /** The PEM blocks of the last load that succeeded. */
  function LastGood(x: Crypto, start: ServerPEMs, files: seq<Option<ServerPEMs>>): ServerPEMs {
    if files == [] then start
    else
      var n := |files| - 1;
      if Loaded(x, files[n]).Some? then files[n].value else LastGood(x, start, files[..n])
  }

  /** The PEM blocks behind the certificates sent last. */
  function LastNoticed(x: Crypto, start: ServerPEMs, files: seq<Option<ServerPEMs>>): ServerPEMs {
    if files == [] then start
    else
      var n := |files| - 1;
      var before := LastNoticed(x, start, files[..n]);
      if Loaded(x, files[n]).Some? && Checksum(x, files[n].value) != Checksum(x, before) then files[n].value
      else before
  }

  lemma {:induction false} LastGoodIsLoaded(x: Crypto, start: ServerPEMs, files: seq<Option<ServerPEMs>>)
    requires Loaded(x, Some(start)).Some?
    ensures LastSuccess(Loaded(x, Some(start)), LoadAll(x, files)) == Loaded(x, Some(LastGood(x, start, files)))
    ensures Loaded(x, Some(LastGood(x, start, files))).Some?
  {
    hide Loaded;
    if files != [] {
      var n := |files| - 1;
      assert LoadAll(x, files)[..n] == LoadAll(x, files[..n]);
      LastGoodIsLoaded(x, start, files[..n]);
      LoadedFrom(x, files[n]);
    }
  }

  lemma LoadedFrom(x: Crypto, read: Option<ServerPEMs>)
    ensures Loaded(x, read).Some? ==> read.Some? && Loaded(x, read).value.checksum == Checksum(x, read.value)
  {
  }

  lemma {:induction false} LastNoticedIsSent(x: Crypto, start: ServerPEMs, files: seq<Option<ServerPEMs>>)
    requires Loaded(x, Some(start)).Some?
    ensures LastSent(Loaded(x, Some(start)), Filter(Loaded(x, Some(start)), LoadAll(x, files)))
      == Loaded(x, Some(LastNoticed(x, start, files)))
    ensures Loaded(x, Some(LastNoticed(x, start, files))).Some?
  {
    hide Loaded, Checksum;
    if files != [] {
      var n := |files| - 1;
      LastNoticedIsSent(x, start, files[..n]);
      FilterNext(Loaded(x, Some(start)), LoadAll(x, files[..n]), Loaded(x, files[n]));
      LoadedFrom(x, files[n]);
      LoadedFrom(x, Some(LastNoticed(x, start, files[..n])));
    }
  }

  /** Whatever was sent last holds the revocation lists of the last successful load, also when a
      change of certificate or key went unnoticed. */
  lemma StoredListsAreCurrent(x: Crypto, start: ServerPEMs, files: seq<Option<ServerPEMs>>)
    requires Loaded(x, Some(start)).Some? && Digests(x)
    ensures
      var init, loads := Loaded(x, Some(start)), LoadAll(x, files);
      && LastSuccess(init, loads).Some? && LastSent(init, Filter(init, loads)).Some?
      && LastSent(init, Filter(init, loads)).value.clientCRLs == LastSuccess(init, loads).value.clientCRLs
  {
    SentIsCurrent(Loaded(x, Some(start)), LoadAll(x, files));
    LastGoodIsLoaded(x, start, files);
    LastNoticedIsSent(x, start, files);
    ChecksumFixesCRLs(x, Some(LastGood(x, start, files)), Some(LastNoticed(x, start, files)));
  }

  /** The three blocks that are hashed together. */
  function Hashed(p: ServerPEMs): bytes {
    p.cert + p.key + p.clientAuth
  }

  predicate NoCollision(x: Crypto, p: ServerPEMs, q: ServerPEMs) {
    x.digest(Hashed(p)) == x.digest(Hashed(q)) ==> Hashed(p) == Hashed(q)
  }

  /** If the digest tells the two reads apart, the next load sends nothing exactly if it fails or reads
      the same revocation lists and the same bytes in the other blocks taken together. */
  lemma UnnoticedExactly(x: Crypto, start: ServerPEMs, files: seq<Option<ServerPEMs>>, next: Option<ServerPEMs>)
    requires Loaded(x, Some(start)).Some? && Digests(x)
    requires next.Some? ==> NoCollision(x, next.value, LastNoticed(x, start, files))
    ensures
      var init, last := Loaded(x, Some(start)), LastNoticed(x, start, files);
      Filter(init, LoadAll(x, files) + [Loaded(x, next)]) == Filter(init, LoadAll(x, files))
      <==> Loaded(x, next).None? || (next.value.crl == last.crl && Hashed(next.value) == Hashed(last))
  {
    hide Loaded, Checksum;
    LastNoticedIsSent(x, start, files);
    FilterNext(Loaded(x, Some(start)), LoadAll(x, files), Loaded(x, next));
    LoadedFrom(x, next);
    LoadedFrom(x, Some(LastNoticed(x, start, files)));
    if Loaded(x, next).Some? {
      SameChecksum(x, next.value, LastNoticed(x, start, files));
    }
  }

  lemma SameChecksum(x: Crypto, p: ServerPEMs, q: ServerPEMs)
    requires Digests(x) && NoCollision(x, p, q)
    ensures Checksum(x, p) == Checksum(x, q) <==> p.crl == q.crl && Hashed(p) == Hashed(q)
  {
    ChecksumSeparates(x, p, q);
  }

  /** If the digest tells the two reads apart, what was sent last comes from the very blocks of the last
      successful load exactly if the certificates and the keys have the same lengths in both; it is
      then current in every part. */
  lemma StoredIsCurrent(x: Crypto, start: ServerPEMs, files: seq<Option<ServerPEMs>>)
    requires Loaded(x, Some(start)).Some? && Digests(x)
    requires NoCollision(x, LastNoticed(x, start, files), LastGood(x, start, files))
    ensures
      var init, sent, good := Loaded(x, Some(start)), LastNoticed(x, start, files), LastGood(x, start, files);
      && (sent == good <==> |sent.cert| == |good.cert| && |sent.key| == |good.key|)
      && (sent == good ==>
            LastSent(init, Filter(init, LoadAll(x, files))) == LastSuccess(init, LoadAll(x, files)))
  {
    hide Loaded;
    SentIsCurrent(Loaded(x, Some(start)), LoadAll(x, files));
    LastGoodIsLoaded(x, start, files);
    LastNoticedIsSent(x, start, files);
    var sent, good := LastNoticed(x, start, files), LastGood(x, start, files);
    LoadedFrom(x, Some(sent));
    LoadedFrom(x, Some(good));
    SameChecksum(x, sent, good);
    SameBlocks(sent, good);
  }

  lemma SameBlocks(p: ServerPEMs, q: ServerPEMs)
    requires p.crl == q.crl && Hashed(p) == Hashed(q)
    ensures p == q <==> |p.cert| == |q.cert| && |p.key| == |q.key|
  {
    if |p.cert| == |q.cert| && |p.key| == |q.key| {
      var n, m := |p.cert|, |p.cert| + |p.key|;
      assert p.cert == Hashed(p)[..n] == q.cert;
      assert p.key == Hashed(p)[n..m] == q.key;
      assert p.clientAuth == Hashed(p)[m..] == q.clientAuth;
    }
  }

  /** What the server does with the channel: the certificates loaded at start, then whatever the
      watcher sends, of which it has taken `taken` by the time it is looked at. `files` is what the
      source reads, time after time. The store holds the certificates taken last; once all are taken
      its lists are those of the last successful load. */
  method ServeFromSource(x: Crypto, refresh: int, start: ServerPEMs, files: seq<Option<ServerPEMs>>, taken: nat)
    returns (store: Store)
    requires refresh > 0 && Loaded(x, Some(start)).Some? && Digests(x)
    ensures fresh(store) && fresh(store.cs) && store.Valid()
    ensures
      var init, sent := Loaded(x, Some(start)), Filter(Loaded(x, Some(start)), LoadAll(x, files));
      var last := LastSent(init, sent[..if taken <= |sent| then taken else |sent|]).value;
      && store.cs.certificates == last.certificates && store.cs.clientCAs == last.clientCAs
      && store.cs.clientCRLs == last.clientCRLs
      && (taken >= |sent| ==> store.cs.clientCRLs == LastSuccess(init, LoadAll(x, files)).value.clientCRLs)
  {
    var init := Loaded(x, Some(start));
    store := new Store();
    store.SetServerCerts(init.value);
    var sent, used, returned := Watch.Run(refresh, init, LoadAll(x, files));
    var n := if taken <= |sent| then taken else |sent|;
    for i := 0 to n
      invariant fresh(store) && fresh(store.cs) && store.Valid()
      invariant store.cs.certificates == LastSent(init, sent[..i]).value.certificates
      invariant store.cs.clientCAs == LastSent(init, sent[..i]).value.clientCAs
      invariant store.cs.clientCRLs == LastSent(init, sent[..i]).value.clientCRLs
    {
      store.SetServerCerts(sent[i]);
    }
    assert sent[..|sent|] == sent;
    StoredListsAreCurrent(x, start, files);
  }
}
