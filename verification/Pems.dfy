/** The PEM blocks a certificate source loads, the checksum that tells one load from the next, and
    the check that every revocation list is signed by a client CA. */
module Pems {
  import opened Wire

  datatype ServerPEMs = ServerPEMs(cert: bytes, key: bytes, clientAuth: bytes, crl: bytes)

  /** A revocation list: the serial numbers it lists, and something to check a signature on. */
  datatype RevocationList = RevocationList(serials: seq<int>, signature: bytes)

  datatype ServerCerts = ServerCerts(
    certificates: seq<bytes>,
    clientCAs: Option<seq<bytes>>,
    clientCRLs: seq<RevocationList>,
    checksum: bytes)

  /** What the standard library decides: the 32-byte hash, the PEM and X.509 parsers (None for an
      error; `pool` skips certificates that `parseCerts` refuses) and whether a certificate signed a revocation list. */
  datatype Crypto = Crypto(
    digest: bytes -> bytes,
    keyPair: (bytes, bytes) -> Option<bytes>,
    pool: bytes -> Option<seq<bytes>>,
    parseCerts: bytes -> Option<seq<bytes>>,
    parseCRLs: bytes -> Option<seq<RevocationList>>,
    signed: (RevocationList, bytes) -> bool)

  ghost predicate Digests(x: Crypto) {
    forall data :: |x.digest(data)| == 32
  }

  // ----- the checksum -----

  /** A running hash: only what was written matters, not in which pieces. */
  class RunningHash {
    var written: bytes

    constructor ()
      ensures written == []
    {
      written := [];
    }

    method Write(data: bytes)
      modifies this
      ensures written == old(written) + data
    {
      written := written + data;
    }

    /** Appends the digest to `prefix`. */
    method Sum(x: Crypto, prefix: bytes) returns (sum: bytes)
      ensures sum == prefix + x.digest(written)
    {
      sum := prefix + x.digest(written);
    }
  }

  function Checksum(x: Crypto, p: ServerPEMs): bytes {
    p.crl + x.digest(p.cert + p.key + p.clientAuth)
  }

  method ComputeChecksum(x: Crypto, p: ServerPEMs) returns (checksum: bytes)
    ensures checksum == Checksum(x, p)
  {
    var hash := new RunningHash();
    hash.Write(p.cert);
    hash.Write(p.key);
    hash.Write(p.clientAuth);
    assert hash.written == p.cert + p.key + p.clientAuth;
    checksum := hash.Sum(x, p.crl);
  }

  /** A checksum splits in one way only into revocation lists and digest: it changes exactly when
      one of the two does. */
  lemma ChecksumSeparates(x: Crypto, p: ServerPEMs, q: ServerPEMs)
    requires Digests(x)
    ensures Checksum(x, p) == Checksum(x, q)
      <==> p.crl == q.crl && x.digest(p.cert + p.key + p.clientAuth) == x.digest(q.cert + q.key + q.clientAuth)
  {
    if Checksum(x, p) == Checksum(x, q) {
      var n := |Checksum(x, p)| - 32;
      assert |p.crl| == |q.crl| == n;
      assert p.crl == Checksum(x, p)[..n] == q.crl;
      assert x.digest(p.cert + p.key + p.clientAuth) == Checksum(x, p)[n..];
      assert x.digest(q.cert + q.key + q.clientAuth) == Checksum(x, q)[n..];
    }
  }

  /** Bytes that move from the end of the certificate block to the start of the key block leave the
      checksum alone, whatever the hash. */
  lemma BoundariesAreNotHashed(x: Crypto, p: ServerPEMs, moved: bytes)
    ensures Checksum(x, p.(cert := p.cert + moved)) == Checksum(x, p.(key := moved + p.key))
  {
    assert p.cert + moved + p.key == p.cert + (moved + p.key);
  }

  // ----- loading -----

  predicate AllSigned(x: Crypto, crls: seq<RevocationList>, certs: seq<bytes>) {
    forall l <- crls :: exists c <- certs :: x.signed(l, c)
  }

  /** Whether the revocation lists pass: without client CAs or without lists there is nothing to
      check, otherwise both blocks have to parse and every list has to be signed by some CA. */
  predicate CRLsValid(x: Crypto, p: ServerPEMs) {
    || p.clientAuth == []
    || ClientCRLs(x, p) == Some([])
    || (ClientCRLs(x, p).Some? && x.parseCerts(p.clientAuth).Some?
        && AllSigned(x, ClientCRLs(x, p).value, x.parseCerts(p.clientAuth).value))
  }

  function ClientCRLs(x: Crypto, p: ServerPEMs): Option<seq<RevocationList>> {
    if p.crl == [] then Some([]) else x.parseCRLs(p.crl)
  }

  method ValidateCRLs(x: Crypto, p: ServerPEMs) returns (valid: bool)
    ensures valid <==> CRLsValid(x, p)
  {
    if p.clientAuth == [] {
      return true;
    }
    var crls := ClientCRLs(x, p);
    if crls.None? {
      return false;
    }
    if crls.value == [] {
      return true;
    }
    var certs := x.parseCerts(p.clientAuth);
    if certs.None? {
      return false;
    }
    for i := 0 to |crls.value|
      invariant forall l <- crls.value[..i] :: exists c <- certs.value :: x.signed(l, c)
    {
      var ok := false;
      for j := 0 to |certs.value|
        invariant ok <==> exists c <- certs.value[..j] :: x.signed(crls.value[i], c)
      {
        assert certs.value[..j + 1] == certs.value[..j] + [certs.value[j]];
        if x.signed(crls.value[i], certs.value[j]) {
          ok := true;
        }
      }
      assert certs.value[..|certs.value|] == certs.value;
      if !ok {
        assert crls.value[i] in crls.value;
        return false;
      }
      assert crls.value[..i + 1] == crls.value[..i] + [crls.value[i]];
    }
    assert crls.value[..|crls.value|] == crls.value;
    return true;
  }

  /** What a load yields; None when reading the files failed (`read` is None) or any part of them
      is refused. */
  function Loaded(x: Crypto, read: Option<ServerPEMs>): Option<ServerCerts> {
    if read.None? then None
    else
      var p := read.value;
      var cas := if p.clientAuth == [] then None else x.pool(p.clientAuth);
      if x.keyPair(p.cert, p.key).None? || (p.clientAuth != [] && cas.None?) || ClientCRLs(x, p).None?
         || !CRLsValid(x, p)
      then None
      else Some(ServerCerts([x.keyPair(p.cert, p.key).value], cas, ClientCRLs(x, p).value, Checksum(x, p)))
  }

  method GetServerCerts(x: Crypto, read: Option<ServerPEMs>) returns (certs: Option<ServerCerts>)
    ensures certs == Loaded(x, read)
  {
    if read.None? {
      return None;
    }
    var p := read.value;
    var certificates := x.keyPair(p.cert, p.key);
    if certificates.None? {
      return None;
    }
    var clientCAs := None;
    if p.clientAuth != [] {
      clientCAs := x.pool(p.clientAuth);
      if clientCAs.None? {
        return None;
      }
    }
    var clientCRLs := ClientCRLs(x, p);
    if clientCRLs.None? {
      return None;
    }
    var valid := ValidateCRLs(x, p);
    if !valid {
      return None;
    }
    var checksum := ComputeChecksum(x, p);
    return Some(ServerCerts([certificates.value], clientCAs, clientCRLs.value, checksum));
  }

  /** What refuses a load: nothing to read, a bad key pair, a client block without a certificate, or
      lists that do not parse. */
  predicate Unreadable(x: Crypto, read: Option<ServerPEMs>) {
    || read.None? || x.keyPair(read.value.cert, read.value.key).None?
    || (read.value.clientAuth != [] && x.pool(read.value.clientAuth).None?)
    || (read.value.crl != [] && x.parseCRLs(read.value.crl).None?)
  }

  /** No certificate signed the list. */
  predicate Unsigned(x: Crypto, l: RevocationList, certs: seq<bytes>) {
    forall c <- certs :: !x.signed(l, c)
  }

  /** A list that comes with a client block in which the certificate that signed it is not found. */
  predicate Untrusted(x: Crypto, p: ServerPEMs) {
    && p.clientAuth != [] && p.crl != [] && x.parseCRLs(p.crl).Some?
    && exists l <- x.parseCRLs(p.crl).value ::
         x.parseCerts(p.clientAuth).None? || Unsigned(x, l, x.parseCerts(p.clientAuth).value)
  }

  /** Which files load, and to what. Clients have to present a certificate exactly if the client block
      is not empty, and then one that chains to the certificates of that block; each list that is
      then loaded is signed by one of them. */
  lemma LoadedExactly(x: Crypto, read: Option<ServerPEMs>)
    ensures Loaded(x, read).Some? <==> !Unreadable(x, read) && !Untrusted(x, read.value)
    ensures Loaded(x, read).Some? ==>
      var p, certs := read.value, Loaded(x, read).value;
      && x.keyPair(p.cert, p.key).Some? && certs.certificates == [x.keyPair(p.cert, p.key).value]
      && (certs.clientCAs.Some? <==> p.clientAuth != [])
      && (certs.clientCAs.Some? ==> certs.clientCAs == x.pool(p.clientAuth))
      && (p.crl == [] ==> certs.clientCRLs == [])
      && (p.crl != [] ==> Some(certs.clientCRLs) == x.parseCRLs(p.crl))
      && (certs.clientCAs.Some? && certs.clientCRLs != [] ==>
            && x.parseCerts(p.clientAuth).Some?
            && forall l <- certs.clientCRLs :: exists c <- x.parseCerts(p.clientAuth).value :: x.signed(l, c))
  {
    if !Unreadable(x, read) {
      UntrustedExactly(x, read.value);
    }
  }

  lemma UntrustedExactly(x: Crypto, p: ServerPEMs)
    requires p.crl != [] ==> x.parseCRLs(p.crl).Some?
    ensures Untrusted(x, p) <==> !CRLsValid(x, p)
  {
    if p.clientAuth != [] && p.crl != [] && x.parseCRLs(p.crl).value != [] {
      assert x.parseCRLs(p.crl).value[0] in x.parseCRLs(p.crl).value;
    }
  }

  /** Equal checksums mean equal revocation lists: no assumption about the hash is needed, since the
      lists' own bytes are in the checksum. */
  lemma ChecksumFixesCRLs(x: Crypto, a: Option<ServerPEMs>, b: Option<ServerPEMs>)
    requires Digests(x) && Loaded(x, a).Some? && Loaded(x, b).Some?
    requires Loaded(x, a).value.checksum == Loaded(x, b).value.checksum
    ensures Loaded(x, a).value.clientCRLs == Loaded(x, b).value.clientCRLs
  {
    ChecksumSeparates(x, a.value, b.value);
  }
}
