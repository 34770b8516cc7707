/** `scripts/ci/check-certificate-inventory.py`: every TLS Secret that is used has one Certificate, with an
    issuer and a lifetime, that covers the hosts it is used for. */
module CertificateInventory {
  import opened Text
  import opened Wrappers
  import opened GoDuration

  // ----- Host names

  function StripDots(s: string): string {
    if s != "" && s[|s| - 1] == '.' then StripDots(s[..|s| - 1]) else s
  }

  /** Lower case, without dots at the end. */
  function Normal(s: string): string { StripDots(Lower(s)) }

  function Dots(s: string): nat {
    if s == "" then 0 else Dots(s[..|s| - 1]) + if s[|s| - 1] == '.' then 1 else 0
  }

  predicate Covers(pattern: string, host: string) {
    var p, h := Normal(pattern), Normal(host);
    p == h || (At(p, 0, "*.") && Dots(h) == Dots(p) && EndsWith(h, p[1..]))
  }

  lemma {:induction false} DotsAdd(a: string, b: string)
    ensures Dots(a + b) == Dots(a) + Dots(b)
  {
    if b == "" {
      assert a + b == a;
    } else {
      DotsAdd(a, b[..|b| - 1]);
      assert (a + b)[..|a + b| - 1] == a + b[..|b| - 1];
    }
  }

  lemma {:induction false} NoDots(s: string)
    ensures Dots(s) == 0 <==> '.' !in s
  {
    if s != "" {
      NoDots(s[..|s| - 1]);
      assert s == s[..|s| - 1] + [s[|s| - 1]];
    }
  }

  lemma {:induction false} OneLabelMore(rest: string, h: string)
    ensures EndsWith(h, rest) && Dots(h) == Dots(rest) <==> exists prefix: string :: '.' !in prefix && h == prefix + rest
  {
    hide Dots;
    if EndsWith(h, rest) && Dots(h) == Dots(rest) {
      var prefix := h[..|h| - |rest|];
      assert h == prefix + rest;
      DotsAdd(prefix, rest);
      NoDots(prefix);
    }
    if prefix: string :| '.' !in prefix && h == prefix + rest {
      DotsAdd(prefix, rest);
      NoDots(prefix);
    }
  }

  /** A pattern that starts with `*.` covers exactly the hosts that put one label, possibly an empty
      one, before the rest of the pattern; any other pattern covers itself. */
  lemma {:induction false} CoversExactly(pattern: string, host: string)
    ensures var p, h := Normal(pattern), Normal(host);
            Covers(pattern, host) <==>
            if At(p, 0, "*.") then exists prefix: string :: '.' !in prefix && h == prefix + p[1..] else h == p
  {
    hide Normal, Dots;
    var p, h := Normal(pattern), Normal(host);
    AtTwo(p, 0, "*.");
    if At(p, 0, "*.") {
      var rest := p[1..];
      assert p == "*" + rest;
      NoDots("*");
      DotsAdd("*", rest);
      OneLabelMore(rest, h);
    }
  }

  /** Normalising takes the dots at the end away, all of them and nothing else, from the small letters. */
  lemma {:induction false} NormalIs(s: string)
    ensures var n := Normal(s);
            && |n| <= |Lower(s)| && Lower(s)[..|n|] == n && (n != "" ==> n[|n| - 1] != '.')
            && forall i | |n| <= i < |Lower(s)| :: Lower(s)[i] == '.'
  {
    StripDotsIs(Lower(s));
  }

  lemma {:induction false} StripDotsIs(s: string)
    ensures var n := StripDots(s);
            && |n| <= |s| && s[..|n|] == n && (n != "" ==> n[|n| - 1] != '.')
            && forall i | |n| <= i < |s| :: s[i] == '.'
  {
    if s != "" && s[|s| - 1] == '.' {
      StripDotsIs(s[..|s| - 1]);
    }
  }

  // ----- Resources

  /** A Secret that a resource may use: `certain` when its field or its name says it is about TLS,
      `credential` when it is one of the listed bootstrap credentials. */
  datatype Ref = Ref(namespace: string, secret: string, hosts: seq<string>, certain: bool, credential: bool)

  /** An entry of `tlsTrustedCertificates`. */
  datatype Trust = Trust(secret: string, caCrt: bool)

  /** A Kafka listener; an endpoint is the host of an HTTPS URL, absent for any other text. */
  datatype Listener = Listener(tls: bool, custom: bool, unverified: bool, trusted: seq<Trust>,
                               endpoints: seq<Option<string>>)

  datatype CertificateSpec = CertificateSpec(secret: string, dnsNames: seq<string>, commonName: Option<string>,
                                             duration: string, renewBefore: string, percentage: bool,
                                             issuerGroup: string, issuerKind: string, issuerName: string)

  datatype Kind =
    | Issuer
    | ClusterIssuer
    | Certificate(spec: CertificateSpec)
    | Secret(tlsType: bool, inlineKeys: bool)
    | Kafka(listeners: seq<Listener>)
    | Other(kind: string)

  /** `malformed` is a field that is missing or of the wrong type. */
  datatype Resource = Resource(group: string, version: string, namespace: string, name: string, kind: Kind,
                               refs: seq<Ref>, malformed: bool)

  type Key = (string, string)

  function KindName(k: Kind): string {
    match k
    case Issuer => "Issuer"
    case ClusterIssuer => "ClusterIssuer"
    case Certificate(_) => "Certificate"
    case Secret(_, _) => "Secret"
    case Kafka(_) => "Kafka"
    case Other(kind) => kind
  }

  function Rid(r: Resource): (string, string, string, string) {
    (r.group, KindName(r.kind), if r.kind.ClusterIssuer? then "" else r.namespace, r.name)
  }

  predicate OfCertManager(r: Resource) { r.group == "cert-manager.io" && r.version == "v1" }

  // ----- The first pass: issuers and secrets

  /** No two of the first `n` resources have the same identity. */
  ghost predicate DistinctTo(rs: seq<Resource>, n: nat)
    requires n <= |rs|
  {
    forall i, j | 0 <= i < j < n :: Rid(rs[i]) != Rid(rs[j])
  }

  predicate Declarable(r: Resource) {
    && (r.kind.Certificate? || r.kind.Issuer? || r.kind.ClusterIssuer? ==> OfCertManager(r))
    && (r.kind.Secret? ==> !r.kind.inlineKeys)
  }

  function IssuerId(r: Resource): (string, string, string) {
    (KindName(r.kind), if r.kind.Issuer? then r.namespace else "", r.name)
  }

  predicate IsIssuer(r: Resource) { r.kind.Issuer? || r.kind.ClusterIssuer? }

  ghost predicate AreIssuers(rs: seq<Resource>, n: nat, issuers: set<(string, string, string)>)
    requires n <= |rs|
  {
    forall x :: x in issuers <==> exists i | 0 <= i < n :: IsIssuer(rs[i]) && IssuerId(rs[i]) == x
  }

  /** The Secrets of the first `n` resources, a later one in place of an earlier one of the same name. */
  function Secrets(rs: seq<Resource>, n: nat): map<Key, bool>
    requires n <= |rs|
  {
    if n == 0 then map[]
    else if rs[n - 1].kind.Secret? then
      Secrets(rs, n - 1)[(rs[n - 1].namespace, rs[n - 1].name) := rs[n - 1].kind.tlsType]
    else Secrets(rs, n - 1)
  }

  // ----- The second pass: certificates

  function ManagedKey(r: Resource): Key
    requires r.kind.Certificate?
  {
    (r.namespace, r.kind.spec.secret)
  }

  function IssuerRef(r: Resource): (string, string, string)
    requires r.kind.Certificate?
  {
    var s := r.kind.spec;
    (s.issuerKind, if s.issuerKind == "Issuer" then r.namespace else "", s.issuerName)
  }

  /** A lifetime of an hour or more, renewed five minutes or more before its end. */
  ghost predicate LifetimeOk(duration: string, renewBefore: string) {
    exists x, y :: Means(duration, x) && Means(renewBefore, y) && x >= 3600.0 && y >= 300.0 && y < x
  }

  ghost predicate CertificateOk(issuers: set<(string, string, string)>, r: Resource)
    requires r.kind.Certificate?
  {
    var s := r.kind.spec;
    && !r.malformed && (s.dnsNames != [] || s.commonName.Some?)
    && LifetimeOk(s.duration, s.renewBefore) && !s.percentage
    && s.issuerGroup == "cert-manager.io" && IssuerRef(r) in issuers
  }

  /** The map holds the Certificates among the first `n` resources under the Secrets they manage. */
  ghost predicate AreCertificates(rs: seq<Resource>, n: nat, certificates: map<Key, Resource>)
    requires n <= |rs|
  {
    && (forall k | k in certificates :: exists i | 0 <= i < n ::
          rs[i] == certificates[k] && rs[i].kind.Certificate? && ManagedKey(rs[i]) == k)
    && (forall i | 0 <= i < n && rs[i].kind.Certificate? ::
          ManagedKey(rs[i]) in certificates && certificates[ManagedKey(rs[i])] == rs[i])
  }

  // ----- The third pass: consumers

  function Identities(r: Resource): seq<string>
    requires r.kind.Certificate?
  {
    var s := r.kind.spec;
    if s.dnsNames != [] then s.dnsNames else match s.commonName case None => [] case Some(n) => [n]
  }

  predicate CoversHost(r: Resource, host: string)
    requires r.kind.Certificate?
  {
    exists i | 0 <= i < |Identities(r)| :: Covers(Identities(r)[i], host)
  }

  /** The Secret must be one with a Certificate. */
  predicate Required(certificates: map<Key, Resource>, secrets: map<Key, bool>, ref: Ref) {
    var key := (ref.namespace, ref.secret);
    ref.certain || key in certificates || (if key in secrets then secrets[key] else !ref.credential)
  }

  predicate RefOk(certificates: map<Key, Resource>, secrets: map<Key, bool>, ref: Ref) {
    Required(certificates, secrets, ref) ==>
      var key := (ref.namespace, ref.secret);
      && key in certificates && certificates[key].kind.Certificate?
      && forall i | 0 <= i < |ref.hosts| :: CoversHost(certificates[key], ref.hosts[i])
  }

  /** The issuers of the certificates that the listener trusts. */
  ghost predicate Trusts(certificates: map<Key, Resource>, namespace: string, l: Listener,
                         issuer: (string, string, string))
  {
    exists i | 0 <= i < |l.trusted| ::
      var key := (namespace, l.trusted[i].secret);
      key in certificates && certificates[key].kind.Certificate? && IssuerRef(certificates[key]) == issuer
  }

  ghost predicate EndpointOk(certificates: map<Key, Resource>, namespace: string, l: Listener, host: Option<string>) {
    && host.Some?
    && exists k :: k in certificates && certificates[k].kind.Certificate? &&
                   Trusts(certificates, namespace, l, IssuerRef(certificates[k])) && CoversHost(certificates[k], host.value)
  }

  ghost predicate ListenerOk(certificates: map<Key, Resource>, namespace: string, l: Listener) {
    && (l.custom ==> l.tls) && !l.unverified && (l.endpoints != [] ==> l.tls && l.trusted != [])
    && (forall i | 0 <= i < |l.trusted| :: l.trusted[i].caCrt && (namespace, l.trusted[i].secret) in certificates)
    && (forall i | 0 <= i < |l.endpoints| :: EndpointOk(certificates, namespace, l, l.endpoints[i]))
  }

  ghost predicate ConsumerOk(certificates: map<Key, Resource>, secrets: map<Key, bool>, r: Resource) {
    && !r.malformed
    && (r.kind.Kafka? ==> forall i | 0 <= i < |r.kind.listeners| ::
                            ListenerOk(certificates, r.namespace, r.kind.listeners[i]))
    && (forall i | 0 <= i < |r.refs| :: RefOk(certificates, secrets, r.refs[i]))
  }

  /** The resource uses some certificate. */
  ghost predicate Consumes(certificates: map<Key, Resource>, secrets: map<Key, bool>, r: Resource) {
    || (r.kind.Kafka? && exists i | 0 <= i < |r.kind.listeners| :: r.kind.listeners[i].trusted != [])
    || (exists i | 0 <= i < |r.refs| :: Required(certificates, secrets, r.refs[i]))
  }

  // ----- Acceptance

  /** The list of resources is accepted; `issuers` and `certificates` are those in it. */
  ghost predicate Accepted(rs: seq<Resource>, issuers: set<(string, string, string)>, certificates: map<Key, Resource>) {
    var n, secrets := |rs|, Secrets(rs, |rs|);
    && DistinctTo(rs, n) && (forall i | 0 <= i < n :: Declarable(rs[i])) && AreIssuers(rs, n, issuers)
    && (forall i | 0 <= i < n && rs[i].kind.Certificate? :: CertificateOk(issuers, rs[i]))
    && AreCertificates(rs, n, certificates) && certificates != map[]
    && (forall i | 0 <= i < n :: ConsumerOk(certificates, secrets, rs[i]))
    && (exists i | 0 <= i < n :: Consumes(certificates, secrets, rs[i]))
  }

  // ----- The gate

  method FirstPass(rs: seq<Resource>)
    returns (ok: bool, issuers: set<(string, string, string)>, secrets: map<Key, bool>)
    ensures ok <==> DistinctTo(rs, |rs|) && forall i | 0 <= i < |rs| :: Declarable(rs[i])
    ensures ok ==> AreIssuers(rs, |rs|, issuers)
    ensures secrets == Secrets(rs, |rs|)
  {
    hide Rid, IssuerId;
    ok, issuers, secrets := true, {}, map[];
    var seen := {};
    for n := 0 to |rs|
      invariant ok <==> DistinctTo(rs, n) && forall i | 0 <= i < n :: Declarable(rs[i])
      invariant forall x :: x in seen <==> exists i | 0 <= i < n :: Rid(rs[i]) == x
      invariant ok ==> AreIssuers(rs, n, issuers)
      invariant secrets == Secrets(rs, n)
    {
      var r := rs[n];
      if Rid(r) in seen {
        ok := false;
      }
      seen := seen + {Rid(r)};
      if r.kind.Secret? {
        secrets := secrets[(r.namespace, r.name) := r.kind.tlsType];
        if r.kind.inlineKeys {
          ok := false;
        }
      }
      if (r.kind.Certificate? || IsIssuer(r)) && !OfCertManager(r) {
        ok := false;
        continue;
      }
      if IsIssuer(r) {
        issuers := issuers + {IssuerId(r)};
      }
    }
  }

  method CheckCertificate(issuers: set<(string, string, string)>, r: Resource) returns (ok: bool)
    requires r.kind.Certificate?
    ensures ok <==> CertificateOk(issuers, r)
  {
    hide Means;
    var s := r.kind.spec;
    if r.malformed || (s.dnsNames == [] && s.commonName.None?) {
      return false;
    }
    var lifetime := Duration(s.duration);
    var renewal := Duration(s.renewBefore);
    if lifetime.None? || renewal.None? {
      return false;
    }
    assert Means(s.duration, lifetime.value) && Means(s.renewBefore, renewal.value);
    if lifetime.value < 3600.0 || renewal.value < 300.0 || renewal.value >= lifetime.value || s.percentage {
      return false;
    }
    ok := s.issuerGroup == "cert-manager.io" && IssuerRef(r) in issuers;
  }

  /** No two of the first `n` resources are Certificates for the same Secret. */
  ghost predicate KeysDistinctTo(rs: seq<Resource>, n: nat)
    requires n <= |rs|
  {
    forall i, j | 0 <= i < j < n && rs[i].kind.Certificate? && rs[j].kind.Certificate? ::
      ManagedKey(rs[i]) != ManagedKey(rs[j])
  }

  lemma {:induction false} OneCertificateEach(rs: seq<Resource>, certificates: map<Key, Resource>)
    requires DistinctTo(rs, |rs|) && AreCertificates(rs, |rs|, certificates)
    ensures KeysDistinctTo(rs, |rs|)
  {
    hide Rid, ManagedKey;
  }

  method SecondPass(rs: seq<Resource>, issuers: set<(string, string, string)>)
    returns (ok: bool, certificates: map<Key, Resource>)
    ensures forall k | k in certificates :: certificates[k].kind.Certificate?
    ensures ok <==> (forall i | 0 <= i < |rs| && rs[i].kind.Certificate? :: CertificateOk(issuers, rs[i])) &&
                    KeysDistinctTo(rs, |rs|)
    ensures ok ==> AreCertificates(rs, |rs|, certificates)
  {
    hide ManagedKey, CertificateOk;
    ok, certificates := true, map[];
    for n := 0 to |rs|
      invariant forall k | k in certificates :: certificates[k].kind.Certificate?
      invariant ok <==> (forall i | 0 <= i < n && rs[i].kind.Certificate? :: CertificateOk(issuers, rs[i])) &&
                        KeysDistinctTo(rs, n)
      invariant ok ==> AreCertificates(rs, n, certificates)
    {
      if !rs[n].kind.Certificate? {
        continue;
      }
      var fine := CheckCertificate(issuers, rs[n]);
      if !fine || ManagedKey(rs[n]) in certificates {
        ok := false;
      } else {
        certificates := certificates[ManagedKey(rs[n]) := rs[n]];
      }
    }
  }

  method CheckListener(certificates: map<Key, Resource>, namespace: string, l: Listener) returns (ok: bool)
    requires forall k | k in certificates :: certificates[k].kind.Certificate?
    ensures ok <==> ListenerOk(certificates, namespace, l)
  {
    hide CoversHost;
    if l.custom && !l.tls {
      return false;
    }
    if l.unverified || (l.endpoints != [] && !l.tls) || (l.endpoints != [] && l.trusted == []) {
      return false;
    }
    ok := true;
    var trustedIssuers := {};
    for n := 0 to |l.trusted|
      invariant ok <==> forall i | 0 <= i < n :: l.trusted[i].caCrt && (namespace, l.trusted[i].secret) in certificates
      invariant forall x :: x in trustedIssuers <==> exists i | 0 <= i < n ::
                  (namespace, l.trusted[i].secret) in certificates &&
                  IssuerRef(certificates[(namespace, l.trusted[i].secret)]) == x
    {
      var trust := l.trusted[n];
      var key := (namespace, trust.secret);
      if !trust.caCrt || key !in certificates {
        ok := false;
      }
      if key in certificates {
        trustedIssuers := trustedIssuers + {IssuerRef(certificates[key])};
      }
    }
    assert forall x :: x in trustedIssuers <==> Trusts(certificates, namespace, l, x);
    hide Trusts, IssuerRef;
    for n := 0 to |l.endpoints|
      invariant ok <==>
        && (forall i | 0 <= i < |l.trusted| :: l.trusted[i].caCrt && (namespace, l.trusted[i].secret) in certificates)
        && (forall i | 0 <= i < n :: EndpointOk(certificates, namespace, l, l.endpoints[i]))
    {
      var host := l.endpoints[n];
      if host.None? || !exists k | k in certificates ::
           IssuerRef(certificates[k]) in trustedIssuers && CoversHost(certificates[k], host.value) {
        ok := false;
      }
    }
  }

  method CheckConsumer(certificates: map<Key, Resource>, secrets: map<Key, bool>, r: Resource)
    returns (ok: bool, consumes: bool)
    requires forall k | k in certificates :: certificates[k].kind.Certificate?
    ensures ok <==> ConsumerOk(certificates, secrets, r)
    ensures consumes <==> Consumes(certificates, secrets, r)
  {
    hide ListenerOk, RefOk, Required;
    ok, consumes := !r.malformed, false;
    if r.kind.Kafka? {
      var ls := r.kind.listeners;
      for n := 0 to |ls|
        invariant ok <==> !r.malformed && forall i | 0 <= i < n :: ListenerOk(certificates, r.namespace, ls[i])
        invariant consumes <==> exists i | 0 <= i < n :: ls[i].trusted != []
      {
        var fine := CheckListener(certificates, r.namespace, ls[n]);
        ok, consumes := ok && fine, consumes || ls[n].trusted != [];
      }
    }
    ghost var kafka := ok;
    ghost var before := consumes;
    for n := 0 to |r.refs|
      invariant ok <==> kafka && forall i | 0 <= i < n :: RefOk(certificates, secrets, r.refs[i])
      invariant consumes <==> before || exists i | 0 <= i < n :: Required(certificates, secrets, r.refs[i])
    {
      if !RefOk(certificates, secrets, r.refs[n]) {
        ok := false;
      }
      if Required(certificates, secrets, r.refs[n]) {
        consumes := true;
      }
    }
  }

  method ThirdPass(rs: seq<Resource>, certificates: map<Key, Resource>, secrets: map<Key, bool>)
    returns (ok: bool, consumed: bool)
    requires forall k | k in certificates :: certificates[k].kind.Certificate?
    ensures ok <==> forall i | 0 <= i < |rs| :: ConsumerOk(certificates, secrets, rs[i])
    ensures consumed <==> exists i | 0 <= i < |rs| :: Consumes(certificates, secrets, rs[i])
  {
    hide ConsumerOk, Consumes;
    ok, consumed := true, false;
    for n := 0 to |rs|
      invariant ok <==> forall i | 0 <= i < n :: ConsumerOk(certificates, secrets, rs[i])
      invariant consumed <==> exists i | 0 <= i < n :: Consumes(certificates, secrets, rs[i])
    {
      var fine, consumes := CheckConsumer(certificates, secrets, rs[n]);
      ok, consumed := ok && fine, consumed || consumes;
    }
  }

  method Inventory(rs: seq<Resource>) returns (inventory: Option<map<Key, Resource>>)
    ensures forall m :: inventory == Some(m) <==> exists issuers :: Accepted(rs, issuers, m)
  {
    hide DistinctTo, Declarable, AreIssuers, CertificateOk, AreCertificates, ConsumerOk, Consumes, Secrets, KeysDistinctTo;
    var first, issuers, secrets := FirstPass(rs);
    var second, certificates := SecondPass(rs, issuers);
    var third, consumed := ThirdPass(rs, certificates, secrets);
    NoOther(rs, issuers, certificates, first, second);
    if first && second && third && certificates != map[] && consumed {
      assert Accepted(rs, issuers, certificates);
      inventory := Some(certificates);
    } else {
      inventory := None;
    }
  }

  /** The passes leave the only sets that can be accepted. */
  lemma {:induction false} NoOther(rs: seq<Resource>, issuers: set<(string, string, string)>,
                                   certificates: map<Key, Resource>, first: bool, second: bool)
    requires first <==> DistinctTo(rs, |rs|) && forall i | 0 <= i < |rs| :: Declarable(rs[i])
    requires first ==> AreIssuers(rs, |rs|, issuers)
    requires second <==> (forall i | 0 <= i < |rs| && rs[i].kind.Certificate? :: CertificateOk(issuers, rs[i])) &&
                         KeysDistinctTo(rs, |rs|)
    requires second ==> AreCertificates(rs, |rs|, certificates)
    ensures forall issuers', m :: Accepted(rs, issuers', m) ==> first && second && issuers' == issuers && m == certificates
  {
    hide DistinctTo, Declarable, CertificateOk, ConsumerOk, Consumes, Secrets, KeysDistinctTo, AreCertificates, AreIssuers;
    forall issuers', m | Accepted(rs, issuers', m)
      ensures first && second && issuers' == issuers && m == certificates
    {
      SameIssuers(rs, issuers', issuers);
      OneCertificateEach(rs, m);
      SameCertificates(rs, m, certificates);
    }
  }

  lemma {:induction false} SameIssuers(rs: seq<Resource>, xs: set<(string, string, string)>,
                                       ys: set<(string, string, string)>)
    requires AreIssuers(rs, |rs|, xs) && AreIssuers(rs, |rs|, ys)
    ensures xs == ys
  {
    hide IssuerId, IsIssuer;
  }

  lemma {:induction false} SameCertificates(rs: seq<Resource>, m: map<Key, Resource>, m': map<Key, Resource>)
    requires AreCertificates(rs, |rs|, m) && AreCertificates(rs, |rs|, m')
    ensures m == m'
  {
    hide ManagedKey;
  }

  // ----- What acceptance means

  /** What the rest of the gate asks of each resource, and of some resource. */
  ghost predicate EachOk(rs: seq<Resource>, issuers: set<(string, string, string)>, certificates: map<Key, Resource>,
                         secrets: map<Key, bool>)
  {
    && (forall i | 0 <= i < |rs| :: Declarable(rs[i]))
    && (forall i | 0 <= i < |rs| && rs[i].kind.Certificate? :: CertificateOk(issuers, rs[i]))
    && (forall i | 0 <= i < |rs| :: ConsumerOk(certificates, secrets, rs[i]))
    && (exists i | 0 <= i < |rs| :: Consumes(certificates, secrets, rs[i]))
  }

  lemma {:induction false} AcceptedParts(rs: seq<Resource>, issuers: set<(string, string, string)>,
                                         certificates: map<Key, Resource>)
    ensures Accepted(rs, issuers, certificates) <==>
            && DistinctTo(rs, |rs|) && AreIssuers(rs, |rs|, issuers) && AreCertificates(rs, |rs|, certificates)
            && certificates != map[] && EachOk(rs, issuers, certificates, Secrets(rs, |rs|))
  {
    hide Secrets, Declarable, CertificateOk, ConsumerOk, Consumes, DistinctTo, AreIssuers, AreCertificates;
  }

  /** A Secret that some resource uses for TLS is managed by one Certificate, which comes from an issuer
      that is there, lives longer than it takes to renew, and covers the hosts it is used for. */
  lemma {:induction false} AcceptedMeans(rs: seq<Resource>, issuers: set<(string, string, string)>,
                                         certificates: map<Key, Resource>, r: nat, k: nat)
    requires r < |rs| && k < |rs[r].refs|
    ensures var ref := rs[r].refs[k];
            Accepted(rs, issuers, certificates) && Required(certificates, Secrets(rs, |rs|), ref) ==>
            exists c: nat | c < |rs| && rs[c].kind.Certificate? ::
              && (forall i | 0 <= i < |rs| && rs[i].kind.Certificate? ::
                    ManagedKey(rs[i]) == (ref.namespace, ref.secret) <==> i == c)
              && (exists i | 0 <= i < |rs| :: IsIssuer(rs[i]) && IssuerId(rs[i]) == IssuerRef(rs[c]))
              && LifetimeOk(rs[c].kind.spec.duration, rs[c].kind.spec.renewBefore)
              && forall h | 0 <= h < |ref.hosts| :: CoversHost(rs[c], ref.hosts[h])
  {
    hide DistinctTo, CoversHost, Secrets, LifetimeOk, IssuerId, IssuerRef, IsIssuer, ManagedKey, Required, Accepted,
      Declarable, ConsumerOk, Consumes, CertificateOk, KeysDistinctTo;
    var ref := rs[r].refs[k];
    var key := (ref.namespace, ref.secret);
    AcceptedParts(rs, issuers, certificates);
    if Accepted(rs, issuers, certificates) && Required(certificates, Secrets(rs, |rs|), ref) {
      RequiredResolves(certificates, Secrets(rs, |rs|), rs[r], k);
      var c :| 0 <= c < |rs| && rs[c] == certificates[key] && rs[c].kind.Certificate? && ManagedKey(rs[c]) == key;
      OneCertificateEach(rs, certificates);
      KeysDiffer(rs, c);
      CertificateHolds(issuers, rs[c]);
    }
  }

  lemma {:induction false} RequiredResolves(certificates: map<Key, Resource>, secrets: map<Key, bool>, r: Resource, k: nat)
    requires ConsumerOk(certificates, secrets, r) && k < |r.refs| && Required(certificates, secrets, r.refs[k])
    ensures var key := (r.refs[k].namespace, r.refs[k].secret);
            && key in certificates && certificates[key].kind.Certificate?
            && forall h | 0 <= h < |r.refs[k].hosts| :: CoversHost(certificates[key], r.refs[k].hosts[h])
  {
    hide CoversHost, ListenerOk, Required;
    assert RefOk(certificates, secrets, r.refs[k]);
  }

  lemma {:induction false} KeysDiffer(rs: seq<Resource>, c: nat)
    requires KeysDistinctTo(rs, |rs|) && c < |rs| && rs[c].kind.Certificate?
    ensures forall i | 0 <= i < |rs| && rs[i].kind.Certificate? :: ManagedKey(rs[i]) == ManagedKey(rs[c]) <==> i == c
  {
    hide ManagedKey;
  }

  lemma {:induction false} CertificateHolds(issuers: set<(string, string, string)>, r: Resource)
    requires r.kind.Certificate? && CertificateOk(issuers, r)
    ensures IssuerRef(r) in issuers && LifetimeOk(r.kind.spec.duration, r.kind.spec.renewBefore)
  {
    hide IssuerRef, LifetimeOk;
  }

  /** An OAuth endpoint of a Kafka listener is a host covered by a Certificate whose issuer also issued
      a certificate that the listener trusts. */
  lemma {:induction false} EndpointsTrusted(rs: seq<Resource>, issuers: set<(string, string, string)>,
                                            certificates: map<Key, Resource>, r: nat, l: nat, e: nat)
    requires r < |rs| && rs[r].kind.Kafka? && l < |rs[r].kind.listeners|
    requires e < |rs[r].kind.listeners[l].endpoints|
    ensures var listener := rs[r].kind.listeners[l];
            Accepted(rs, issuers, certificates) ==>
            && listener.tls && listener.endpoints[e].Some?
            && exists c, t, n | 0 <= c < |rs| && 0 <= t < |rs| && 0 <= n < |listener.trusted| ::
                 && rs[c].kind.Certificate? && CoversHost(rs[c], listener.endpoints[e].value)
                 && rs[t].kind.Certificate? && ManagedKey(rs[t]) == (rs[r].namespace, listener.trusted[n].secret)
                 && IssuerRef(rs[t]) == IssuerRef(rs[c])
  {
    hide *;
    AcceptedParts(rs, issuers, certificates);
    if Accepted(rs, issuers, certificates) {
      ListenersOk(rs, issuers, certificates, r, l);
      EndpointTrusted(rs, certificates, rs[r].namespace, rs[r].kind.listeners[l], e);
    }
  }

  lemma {:induction false} ListenersOk(rs: seq<Resource>, issuers: set<(string, string, string)>,
                                       certificates: map<Key, Resource>, r: nat, l: nat)
    requires r < |rs| && rs[r].kind.Kafka? && l < |rs[r].kind.listeners|
    requires EachOk(rs, issuers, certificates, Secrets(rs, |rs|))
    ensures ListenerOk(certificates, rs[r].namespace, rs[r].kind.listeners[l])
  {
    hide CertificateOk, Consumes, Declarable, ListenerOk, RefOk, Secrets;
    assert ConsumerOk(certificates, Secrets(rs, |rs|), rs[r]);
  }

  lemma {:induction false} EndpointTrusted(rs: seq<Resource>, certificates: map<Key, Resource>, namespace: string,
                                           listener: Listener, e: nat)
    requires AreCertificates(rs, |rs|, certificates) && ListenerOk(certificates, namespace, listener)
    requires e < |listener.endpoints|
    ensures listener.tls && listener.endpoints[e].Some?
    ensures exists c, t, n | 0 <= c < |rs| && 0 <= t < |rs| && 0 <= n < |listener.trusted| ::
              && rs[c].kind.Certificate? && CoversHost(rs[c], listener.endpoints[e].value)
              && rs[t].kind.Certificate? && ManagedKey(rs[t]) == (namespace, listener.trusted[n].secret)
              && IssuerRef(rs[t]) == IssuerRef(rs[c])
  {
    hide CoversHost, IssuerRef, ManagedKey;
    var host := listener.endpoints[e];
    assert EndpointOk(certificates, namespace, listener, host);
    var k :| k in certificates && certificates[k].kind.Certificate? && CoversHost(certificates[k], host.value) &&
             Trusts(certificates, namespace, listener, IssuerRef(certificates[k]));
    var n :| 0 <= n < |listener.trusted| && (namespace, listener.trusted[n].secret) in certificates &&
             IssuerRef(certificates[(namespace, listener.trusted[n].secret)]) == IssuerRef(certificates[k]);
    var c :| 0 <= c < |rs| && rs[c] == certificates[k];
    var t :| 0 <= t < |rs| && rs[t] == certificates[(namespace, listener.trusted[n].secret)] &&
             rs[t].kind.Certificate? && ManagedKey(rs[t]) == (namespace, listener.trusted[n].secret);
    hide AreCertificates, EndpointOk, Trusts, ListenerOk;
    assert rs[c].kind.Certificate? && CoversHost(rs[c], host.value) && IssuerRef(rs[t]) == IssuerRef(rs[c]);
  }

  // ----- The order of the resources

  /** The resource is a definition of the Secret. */
  predicate Defines(r: Resource, k: Key) { r.kind.Secret? && (r.namespace, r.name) == k }

  /** No two different Secrets of one name in one namespace. */
  ghost predicate SecretsDiffer(rs: seq<Resource>) {
    forall i, j | 0 <= i < |rs| && 0 <= j < |rs| && rs[i].kind.Secret? && rs[j].kind.Secret? &&
                  (rs[i].namespace, rs[i].name) == (rs[j].namespace, rs[j].name) :: rs[i] == rs[j]
  }

  /** The reference names a Secret that no Certificate manages and that has a definition of the TLS type. */
  ghost predicate Undecided(rs: seq<Resource>, certificates: map<Key, Resource>, ref: Ref) {
    var key := (ref.namespace, ref.secret);
    key !in certificates && exists i | 0 <= i < |rs| :: Defines(rs[i], key) && rs[i].kind.tlsType
  }

  ghost predicate NoneUndecided(rs: seq<Resource>, certificates: map<Key, Resource>) {
    forall r, k | 0 <= r < |rs| && 0 <= k < |rs[r].refs| :: !Undecided(rs, certificates, rs[r].refs[k])
  }

  /** The two lists hold the same resources. */
  ghost predicate SameMembers(rs: seq<Resource>, rs': seq<Resource>) {
    && (forall i | 0 <= i < |rs| :: exists j | 0 <= j < |rs'| :: rs'[j] == rs[i])
    && (forall j | 0 <= j < |rs'| :: exists i | 0 <= i < |rs| :: rs[i] == rs'[j])
  }

  lemma {:induction false} Members(rs: seq<Resource>, rs': seq<Resource>)
    requires multiset(rs) == multiset(rs')
    ensures SameMembers(rs, rs')
  {
    forall i | 0 <= i < |rs| ensures exists j | 0 <= j < |rs'| :: rs'[j] == rs[i] {
      assert rs[i] in multiset(rs');
    }
    forall j | 0 <= j < |rs'| ensures exists i | 0 <= i < |rs| :: rs[i] == rs'[j] {
      assert rs'[j] in multiset(rs);
    }
  }

  /** The first `n` resources define the Secret, and the last of these definitions is of that type. */
  ghost predicate LastDefinition(rs: seq<Resource>, n: nat, k: Key, tlsType: bool)
    requires n <= |rs|
  {
    exists i | 0 <= i < n ::
      Defines(rs[i], k) && rs[i].kind.tlsType == tlsType && forall j | i < j < n :: !Defines(rs[j], k)
  }

  /** What `Secrets` holds: of every Secret that is defined, the type in its last definition. */
  lemma {:induction false} SecretsAre(rs: seq<Resource>, n: nat, k: Key)
    requires n <= |rs|
    ensures k in Secrets(rs, n) <==> exists i | 0 <= i < n :: Defines(rs[i], k)
    ensures k in Secrets(rs, n) ==> LastDefinition(rs, n, k, Secrets(rs, n)[k])
  {
    if n > 0 {
      SecretsAre(rs, n - 1, k);
      if !Defines(rs[n - 1], k) && k in Secrets(rs, n - 1) {
        var i :| 0 <= i < n - 1 && Defines(rs[i], k) && rs[i].kind.tlsType == Secrets(rs, n - 1)[k] &&
          forall j | i < j < n - 1 :: !Defines(rs[j], k);
      }
    }
  }

  lemma {:induction false} CountedTwice<T>(s: seq<T>, i: nat, j: nat)
    requires i < j < |s| && s[i] == s[j]
    ensures multiset(s)[s[i]] >= 2
  {
    assert s == s[..j] + s[j..];
    assert s[..j][i] == s[i] && s[j..][0] == s[j];
    assert s[i] in multiset(s[..j]) && s[i] in multiset(s[j..]);
  }

  lemma {:induction false} FoundTwice<T>(s: seq<T>, x: T) returns (i: nat, j: nat)
    requires multiset(s)[x] >= 2
    ensures i < j < |s| && s[i] == x && s[j] == x
  {
    var n := |s| - 1;
    assert s == s[..n] + [s[n]];
    if s[n] == x {
      j := n;
      assert x in multiset(s[..n]);
      i :| 0 <= i < n && s[..n][i] == x;
    } else {
      i, j := FoundTwice(s[..n], x);
    }
  }

  lemma {:induction false} FoundOnce<T>(s: seq<T>, x: T) returns (i: nat)
    requires x in multiset(s)
    ensures i < |s| && s[i] == x
  {
    i :| 0 <= i < |s| && s[i] == x;
  }

  lemma {:induction false} SharedIdentity(rs: seq<Resource>, rs': seq<Resource>, i: nat, j: nat)
    requires multiset(rs) == multiset(rs') && i < j < |rs'| && Rid(rs'[i]) == Rid(rs'[j])
    ensures !DistinctTo(rs, |rs|)
  {
    hide Rid;
    if rs'[i] == rs'[j] {
      CountedTwice(rs', i, j);
      var a, b := FoundTwice(rs, rs'[i]);
    } else {
      assert rs'[i] in multiset(rs') && rs'[j] in multiset(rs');
      var a := FoundOnce(rs, rs'[i]);
      var b := FoundOnce(rs, rs'[j]);
      assert Rid(rs[a]) == Rid(rs[b]) && (a < b || b < a);
    }
  }

  lemma {:induction false} StillDistinct(rs: seq<Resource>, rs': seq<Resource>)
    requires multiset(rs) == multiset(rs') && DistinctTo(rs, |rs|)
    ensures DistinctTo(rs', |rs'|)
  {
    hide Rid;
    if i, j :| 0 <= i < j < |rs'| && Rid(rs'[i]) == Rid(rs'[j]) {
      SharedIdentity(rs, rs', i, j);
    }
  }

  lemma {:induction false} StillThere(rs: seq<Resource>, rs': seq<Resource>, issuers: set<(string, string, string)>,
                                      certificates: map<Key, Resource>)
    requires SameMembers(rs, rs')
    ensures AreIssuers(rs, |rs|, issuers) ==> AreIssuers(rs', |rs'|, issuers)
    ensures AreCertificates(rs, |rs|, certificates) ==> AreCertificates(rs', |rs'|, certificates)
    ensures SecretsDiffer(rs) ==> SecretsDiffer(rs')
    ensures NoneUndecided(rs, certificates) ==> NoneUndecided(rs', certificates)
  {
    hide IssuerId, IsIssuer, ManagedKey;
  }

  lemma {:induction false} StillOk(rs: seq<Resource>, rs': seq<Resource>, issuers: set<(string, string, string)>,
                                   certificates: map<Key, Resource>, secrets: map<Key, bool>)
    requires SameMembers(rs, rs')
    ensures EachOk(rs, issuers, certificates, secrets) ==> EachOk(rs', issuers, certificates, secrets)
  {
    hide Declarable, CertificateOk, ConsumerOk, Consumes;
  }

  // The only thing that depends on the order is which definition of a Secret comes last.

  lemma {:induction false} StillRequired(rs: seq<Resource>, rs': seq<Resource>, certificates: map<Key, Resource>, ref: Ref)
    requires SameMembers(rs, rs') && !Undecided(rs, certificates, ref) && !Undecided(rs', certificates, ref)
    ensures Required(certificates, Secrets(rs, |rs|), ref) <==> Required(certificates, Secrets(rs', |rs'|), ref)
    ensures RefOk(certificates, Secrets(rs, |rs|), ref) <==> RefOk(certificates, Secrets(rs', |rs'|), ref)
  {
    hide Secrets, CoversHost, Defines;
    var k := (ref.namespace, ref.secret);
    assert k in Secrets(rs, |rs|) <==> k in Secrets(rs', |rs'|) by {
      SecretsAre(rs, |rs|, k);
      SecretsAre(rs', |rs'|, k);
    }
    assert k !in certificates && k in Secrets(rs, |rs|) ==> !Secrets(rs, |rs|)[k] by {
      SecretsAre(rs, |rs|, k);
    }
    assert k !in certificates && k in Secrets(rs', |rs'|) ==> !Secrets(rs', |rs'|)[k] by {
      SecretsAre(rs', |rs'|, k);
    }
    hide SameMembers, Undecided;
  }

  lemma {:induction false} SameConsumers(rs: seq<Resource>, rs': seq<Resource>, certificates: map<Key, Resource>, r: nat)
    requires SameMembers(rs, rs') && NoneUndecided(rs, certificates) && NoneUndecided(rs', certificates) && r < |rs'|
    ensures ConsumerOk(certificates, Secrets(rs, |rs|), rs'[r]) <==> ConsumerOk(certificates, Secrets(rs', |rs'|), rs'[r])
    ensures Consumes(certificates, Secrets(rs, |rs|), rs'[r]) <==> Consumes(certificates, Secrets(rs', |rs'|), rs'[r])
  {
    hide SameMembers, Undecided, Required, RefOk, Secrets, ListenerOk;
    var refs := rs'[r].refs;
    forall k | 0 <= k < |refs|
      ensures Required(certificates, Secrets(rs, |rs|), refs[k]) <==> Required(certificates, Secrets(rs', |rs'|), refs[k])
      ensures RefOk(certificates, Secrets(rs, |rs|), refs[k]) <==> RefOk(certificates, Secrets(rs', |rs'|), refs[k])
    {
      UndecidedBack(rs, rs', certificates, refs[k]);
      StillRequired(rs, rs', certificates, refs[k]);
    }
  }

  lemma {:induction false} UndecidedBack(rs: seq<Resource>, rs': seq<Resource>, certificates: map<Key, Resource>, ref: Ref)
    requires SameMembers(rs, rs')
    ensures Undecided(rs, certificates, ref) <==> Undecided(rs', certificates, ref)
  {
    hide Defines;
  }

  /** When every reference is decided, any order of the resources is accepted, with the same result. */
  lemma {:induction false} AcceptedInAnyOrder(rs: seq<Resource>, rs': seq<Resource>,
                                              issuers: set<(string, string, string)>, certificates: map<Key, Resource>)
    requires multiset(rs) == multiset(rs') && NoneUndecided(rs, certificates)
    ensures Accepted(rs, issuers, certificates) ==> Accepted(rs', issuers, certificates)
  {
    hide *;
    AcceptedParts(rs, issuers, certificates);
    Members(rs, rs');
    StillThere(rs, rs', issuers, certificates);
    if Accepted(rs, issuers, certificates) {
      StillDistinct(rs, rs');
      var secrets, secrets' := Secrets(rs, |rs|), Secrets(rs', |rs'|);
      StillOk(rs, rs', issuers, certificates, secrets);
      forall r | 0 <= r < |rs'|
        ensures ConsumerOk(certificates, secrets, rs'[r]) <==> ConsumerOk(certificates, secrets', rs'[r])
        ensures Consumes(certificates, secrets, rs'[r]) <==> Consumes(certificates, secrets', rs'[r])
      {
        SameConsumers(rs, rs', certificates, r);
      }
      OtherSecrets(rs', issuers, certificates, secrets, secrets');
      AcceptedParts(rs', issuers, certificates);
    }
  }

  lemma {:induction false} OtherSecrets(rs: seq<Resource>, issuers: set<(string, string, string)>,
                                        certificates: map<Key, Resource>, secrets: map<Key, bool>, secrets': map<Key, bool>)
    requires EachOk(rs, issuers, certificates, secrets)
    requires forall r | 0 <= r < |rs| ::
      (ConsumerOk(certificates, secrets, rs[r]) <==> ConsumerOk(certificates, secrets', rs[r])) &&
      (Consumes(certificates, secrets, rs[r]) <==> Consumes(certificates, secrets', rs[r]))
    ensures EachOk(rs, issuers, certificates, secrets')
  {
    hide Declarable, CertificateOk, ConsumerOk, Consumes;
  }

  /** The resources with one of them moved to the end. */
  function MovedLast(rs: seq<Resource>, i: nat): seq<Resource>
    requires i < |rs|
  {
    rs[..i] + rs[i + 1..] + [rs[i]]
  }

  lemma {:induction false} MovedMembers(rs: seq<Resource>, i: nat)
    requires i < |rs|
    ensures multiset(MovedLast(rs, i)) == multiset(rs)
  {
    assert rs == rs[..i] + [rs[i]] + rs[i + 1..];
  }

  /** With the TLS definition moved to the end, an undecided reference is rejected. */
  lemma {:induction false} MovedIsRejected(rs: seq<Resource>, certificates: map<Key, Resource>, r: nat, k: nat, i: nat)
    requires i < |rs| && r < |rs| && k < |rs[r].refs|
    requires var key := (rs[r].refs[k].namespace, rs[r].refs[k].secret);
             key !in certificates && Defines(rs[i], key) && rs[i].kind.tlsType
    ensures forall issuers :: !Accepted(MovedLast(rs, i), issuers, certificates)
  {
    hide Accepted, EachOk, DistinctTo, AreIssuers, AreCertificates, ListenerOk, CoversHost, Consumes, Declarable, CertificateOk;
    var rs' := MovedLast(rs, i);
    var n, ref := |rs'|, rs[r].refs[k];
    assert rs'[n - 1] == rs[i];
    assert Secrets(rs', n)[(ref.namespace, ref.secret)];
    assert !RefOk(certificates, Secrets(rs', n), ref);
    var r' := if r < i then r else if r == i then n - 1 else r - 1;
    assert rs'[r'] == rs[r];
    assert !ConsumerOk(certificates, Secrets(rs', n), rs'[r']);
    forall issuers: set<(string, string, string)> ensures !Accepted(rs', issuers, certificates) {
      NotAccepted(rs', issuers, certificates, r');
    }
  }

  lemma {:induction false} NotAccepted(rs: seq<Resource>, issuers: set<(string, string, string)>,
                                       certificates: map<Key, Resource>, r: nat)
    requires r < |rs| && !ConsumerOk(certificates, Secrets(rs, |rs|), rs[r])
    ensures !Accepted(rs, issuers, certificates)
  {
    hide ConsumerOk, Secrets, DistinctTo, AreIssuers, AreCertificates, Declarable, CertificateOk, Consumes;
  }

  ghost predicate Passes(rs: seq<Resource>) {
    exists issuers, certificates :: Accepted(rs, issuers, certificates)
  }

  lemma {:induction false} OnlyThose(rs: seq<Resource>, certificates: map<Key, Resource>)
    requires AreCertificates(rs, |rs|, certificates) && forall issuers :: !Accepted(rs, issuers, certificates)
    ensures !Passes(rs)
  {
    hide Accepted, AreCertificates;
    if issuers, m :| Accepted(rs, issuers, m) {
      AcceptedParts(rs, issuers, m);
      SameCertificates(rs, m, certificates);
      assert false;
    }
  }

  lemma {:induction false} EveryOrder(rs: seq<Resource>, issuers: set<(string, string, string)>,
                                      certificates: map<Key, Resource>)
    requires NoneUndecided(rs, certificates)
    ensures Accepted(rs, issuers, certificates) ==>
            forall rs' | multiset(rs') == multiset(rs) :: Accepted(rs', issuers, certificates) && Passes(rs')
  {
    hide Accepted, NoneUndecided;
    forall rs' | multiset(rs') == multiset(rs)
      ensures Accepted(rs, issuers, certificates) ==> Accepted(rs', issuers, certificates) && Passes(rs')
    {
      AcceptedInAnyOrder(rs, rs', issuers, certificates);
    }
  }

  lemma {:induction false} SomeUndecided(rs: seq<Resource>, certificates: map<Key, Resource>)
    returns (r: nat, k: nat, i: nat)
    requires !NoneUndecided(rs, certificates)
    ensures i < |rs| && r < |rs| && k < |rs[r].refs|
    ensures var key := (rs[r].refs[k].namespace, rs[r].refs[k].secret);
            key !in certificates && Defines(rs[i], key) && rs[i].kind.tlsType
  {
    r, k :| 0 <= r < |rs| && 0 <= k < |rs[r].refs| && Undecided(rs, certificates, rs[r].refs[k]);
    i :| 0 <= i < |rs| && Defines(rs[i], (rs[r].refs[k].namespace, rs[r].refs[k].secret)) && rs[i].kind.tlsType;
  }

  lemma {:induction false} SomeOrder(rs: seq<Resource>, certificates: map<Key, Resource>) returns (rs': seq<Resource>)
    requires !NoneUndecided(rs, certificates) && AreCertificates(rs, |rs|, certificates)
    ensures multiset(rs') == multiset(rs) && !Passes(rs')
  {
    hide *;
    var r, k, i := SomeUndecided(rs, certificates);
    MovedIsRejected(rs, certificates, r, k, i);
    MovedMembers(rs, i);
    rs' := MovedLast(rs, i);
    Members(rs, rs');
    StillThere(rs, rs', {}, certificates);
    OnlyThose(rs', certificates);
  }

  /** When acceptance depends on the order of the resources. Of an accepted list every order is accepted
      exactly when no reference names a Secret that no Certificate manages and that has a definition of
      the TLS type; and then the issuers and the certificates are the same in every order. */
  lemma {:induction false} OrderIff(rs: seq<Resource>, issuers: set<(string, string, string)>,
                                    certificates: map<Key, Resource>)
    ensures Accepted(rs, issuers, certificates) ==>
            ((forall rs' | multiset(rs') == multiset(rs) :: Passes(rs')) <==> NoneUndecided(rs, certificates))
    ensures Accepted(rs, issuers, certificates) && NoneUndecided(rs, certificates) ==>
            forall rs' | multiset(rs') == multiset(rs) :: Accepted(rs', issuers, certificates)
  {
    hide *;
    if Accepted(rs, issuers, certificates) {
      if NoneUndecided(rs, certificates) {
        EveryOrder(rs, issuers, certificates);
      } else {
        AcceptedParts(rs, issuers, certificates);
        var rs' := SomeOrder(rs, certificates);
      }
    }
  }

  /** With one definition for every Secret an undecided reference is rejected in any order. */
  lemma {:induction false} UndecidedFails(rs: seq<Resource>, certificates: map<Key, Resource>, ref: Ref)
    requires SecretsDiffer(rs) && Undecided(rs, certificates, ref)
    ensures !RefOk(certificates, Secrets(rs, |rs|), ref)
  {
    hide Secrets, CoversHost;
    var k := (ref.namespace, ref.secret);
    SecretsAre(rs, |rs|, k);
    var i :| 0 <= i < |rs| && Defines(rs[i], k) && rs[i].kind.tlsType;
    var j :| 0 <= j < |rs| && Defines(rs[j], k) && rs[j].kind.tlsType == Secrets(rs, |rs|)[k];
    assert rs[i] == rs[j];
  }

  lemma {:induction false} DifferentIsDecided(rs: seq<Resource>, issuers: set<(string, string, string)>,
                                              certificates: map<Key, Resource>)
    requires SecretsDiffer(rs)
    ensures Accepted(rs, issuers, certificates) ==> NoneUndecided(rs, certificates)
  {
    hide Accepted, Undecided, Secrets, RefOk, SecretsDiffer, ListenerOk;
    if !NoneUndecided(rs, certificates) {
      var r, k :| 0 <= r < |rs| && 0 <= k < |rs[r].refs| && Undecided(rs, certificates, rs[r].refs[k]);
      UndecidedFails(rs, certificates, rs[r].refs[k]);
      assert !ConsumerOk(certificates, Secrets(rs, |rs|), rs[r]);
      NotAccepted(rs, issuers, certificates, r);
    }
  }

  /** So the order never matters when every Secret has one definition. */
  lemma {:induction false} OrderDoesNotMatter(rs: seq<Resource>, rs': seq<Resource>,
                                              issuers: set<(string, string, string)>, certificates: map<Key, Resource>)
    requires multiset(rs) == multiset(rs') && SecretsDiffer(rs)
    ensures Accepted(rs, issuers, certificates) <==> Accepted(rs', issuers, certificates)
  {
    hide *;
    Members(rs, rs');
    StillThere(rs, rs', issuers, certificates);
    DifferentIsDecided(rs, issuers, certificates);
    DifferentIsDecided(rs', issuers, certificates);
    if Accepted(rs, issuers, certificates) {
      AcceptedInAnyOrder(rs, rs', issuers, certificates);
    }
    if Accepted(rs', issuers, certificates) {
      AcceptedInAnyOrder(rs', rs, issuers, certificates);
    }
  }

  // ----- Two definitions of one Secret

  /** An issuer, a Certificate, a consumer of both Secrets, and two definitions of the Secret `s`: the
      core one and one of another API group, which is of the TLS type. */
  const ISSUER := Resource("cert-manager.io", "v1", "n", "i", Issuer, [], false)
  const CERTIFICATE := Resource("cert-manager.io", "v1", "n", "c",
    Certificate(CertificateSpec("t", ["h"], None, "2h", "1h", false, "cert-manager.io", "Issuer", "i")), [], false)
  const CONSUMER := Resource("", "v1", "n", "w", Other("Pod"),
    [Ref("n", "t", ["h"], true, false), Ref("n", "s", [], false, false)], false)
  const PLAIN := Resource("", "v1", "n", "s", Secret(false, false), [], false)
  const TYPED := Resource("x", "v1", "n", "s", Secret(true, false), [], false)

  lemma {:induction false} HourMeans(c: char, w: string)
    requires IsDigit(c) && c != '0' && w == [c, 'h']
    ensures Means(w, 3600.0 * (c as int - '0' as int) as real)
  {
    var number := w[..1];
    assert number == [c] && IsDigit(number[0]);
    assert IsToken(w);
    assert DigitsEnd(number, 0) == 1 by {
      DigitsEndAt(number, 0, 1);
    }
    assert number[..1] + "" == number && number[..0] == "";
    assert Natural(number) == c as int - '0' as int;
    assert Decimal(number) == (c as int - '0' as int) as real;
    var ws := [w];
    assert ws[1..] == [] && Total(ws[1..]) == 0.0 && Concat(ws[1..]) == "";
    assert Concat(ws) == w && Total(ws) == TokenValue(w);
  }

  lemma {:induction false} ExampleCertificate()
    ensures CertificateOk({("Issuer", "n", "i")}, CERTIFICATE)
  {
    assert LifetimeOk("2h", "1h") by {
      HourMeans('2', "2h");
      HourMeans('1', "1h");
      hide Means;
    }
    hide LifetimeOk;
  }

  lemma {:induction false} ExampleConsumer(certificates: map<Key, Resource>, secrets: map<Key, bool>)
    requires certificates == map[("n", "t") := CERTIFICATE] && ("n", "s") in secrets
    ensures ConsumerOk(certificates, secrets, CONSUMER) <==> !secrets[("n", "s")]
    ensures Consumes(certificates, secrets, CONSUMER)
  {
    assert CoversHost(CERTIFICATE, "h") by {
      assert Covers("h", "h");
      assert Identities(CERTIFICATE)[0] == "h";
    }
    hide CoversHost;
    assert "t"[0] != "s"[0];
    assert Required(certificates, secrets, CONSUMER.refs[0]);
    assert RefOk(certificates, secrets, CONSUMER.refs[0]);
    assert Required(certificates, secrets, CONSUMER.refs[1]) <==> secrets[("n", "s")];
    assert RefOk(certificates, secrets, CONSUMER.refs[1]) <==> !secrets[("n", "s")];
  }

  /** The two orders of one list: it is accepted with the plain definition last and rejected with the
      typed one last, since only the last definition of a Secret is looked at. */
  lemma {:induction false} OrderMayMatter(rs: seq<Resource>, rs': seq<Resource>)
    requires rs == [ISSUER, CERTIFICATE, CONSUMER, TYPED, PLAIN] && rs' == [ISSUER, CERTIFICATE, CONSUMER, PLAIN, TYPED]
    ensures exists issuers, certificates :: Accepted(rs, issuers, certificates)
    ensures forall issuers, certificates :: !Accepted(rs', issuers, certificates)
    ensures multiset(rs) == multiset(rs')
  {
    hide Accepted;
    PlainLast(rs);
    TypedLast(rs');
  }

  lemma {:induction false} ExampleSecrets(rs: seq<Resource>, last: Resource)
    requires |rs| == 5 && rs[0] == ISSUER && rs[1] == CERTIFICATE && rs[2] == CONSUMER && rs[4] == last
    requires last == PLAIN || last == TYPED
    ensures ("n", "s") in Secrets(rs, 5) && Secrets(rs, 5)[("n", "s")] == last.kind.tlsType
  {
  }

  lemma {:induction false} OnlyCertificate(rs: seq<Resource>, certificates: map<Key, Resource>)
    requires |rs| == 5 && rs[1] == CERTIFICATE && forall i | 0 <= i < 5 && i != 1 :: !rs[i].kind.Certificate?
    ensures AreCertificates(rs, 5, certificates) <==> certificates == map[("n", "t") := CERTIFICATE]
  {
    assert ManagedKey(CERTIFICATE) == ("n", "t");
    hide ManagedKey;
    if AreCertificates(rs, 5, certificates) {
      assert certificates[("n", "t")] == CERTIFICATE;
      assert forall k | k in certificates :: k == ("n", "t");
    }
  }

  lemma {:induction false} TypedLast(rs: seq<Resource>)
    requires rs == [ISSUER, CERTIFICATE, CONSUMER, PLAIN, TYPED]
    ensures forall issuers, certificates :: !Accepted(rs, issuers, certificates)
  {
    hide ConsumerOk, Secrets, DistinctTo, CertificateOk, Consumes, AreIssuers, AreCertificates, Declarable;
    var secrets := Secrets(rs, 5);
    ExampleSecrets(rs, TYPED);
    forall issuers, certificates ensures !Accepted(rs, issuers, certificates) {
      OnlyCertificate(rs, certificates);
      if certificates == map[("n", "t") := CERTIFICATE] {
        ExampleConsumer(certificates, secrets);
        assert !ConsumerOk(certificates, secrets, rs[2]);
      }
    }
  }

  lemma {:induction false} ExampleIssuers(rs: seq<Resource>)
    requires rs == [ISSUER, CERTIFICATE, CONSUMER, TYPED, PLAIN]
    ensures AreIssuers(rs, 5, {("Issuer", "n", "i")})
  {
    assert IssuerId(rs[0]) == ("Issuer", "n", "i");
    assert forall i | 1 <= i < 5 :: !IsIssuer(rs[i]);
  }

  lemma {:induction false} ExampleOthers(certificates: map<Key, Resource>, secrets: map<Key, bool>, r: Resource)
    requires r == ISSUER || r == CERTIFICATE || r == TYPED || r == PLAIN
    ensures ConsumerOk(certificates, secrets, r) && Declarable(r)
  {
  }

  lemma {:induction false} FiveOk(rs: seq<Resource>, issuers: set<(string, string, string)>,
                                  certificates: map<Key, Resource>, secrets: map<Key, bool>)
    requires |rs| == 5
    requires Declarable(rs[0]) && Declarable(rs[1]) && Declarable(rs[2]) && Declarable(rs[3]) && Declarable(rs[4])
    requires ConsumerOk(certificates, secrets, rs[0]) && ConsumerOk(certificates, secrets, rs[1])
    requires ConsumerOk(certificates, secrets, rs[2]) && Consumes(certificates, secrets, rs[2])
    requires ConsumerOk(certificates, secrets, rs[3]) && ConsumerOk(certificates, secrets, rs[4])
    requires rs[1].kind.Certificate? && CertificateOk(issuers, rs[1])
    requires forall i | 0 <= i < 5 && i != 1 :: !rs[i].kind.Certificate?
    ensures EachOk(rs, issuers, certificates, secrets)
  {
    hide ConsumerOk, CertificateOk, Consumes, Declarable;
    forall i | 0 <= i < 5 ensures Declarable(rs[i]) && ConsumerOk(certificates, secrets, rs[i]) {
      assert i == 0 || i == 1 || i == 2 || i == 3 || i == 4;
    }
  }

  lemma {:induction false} ExampleEach(rs: seq<Resource>, certificates: map<Key, Resource>, secrets: map<Key, bool>)
    requires rs == [ISSUER, CERTIFICATE, CONSUMER, TYPED, PLAIN]
    requires certificates == map[("n", "t") := CERTIFICATE] && ("n", "s") in secrets && !secrets[("n", "s")]
    ensures EachOk(rs, {("Issuer", "n", "i")}, certificates, secrets)
  {
    hide ConsumerOk, CertificateOk, Consumes, EachOk;
    ExampleOthers(certificates, secrets, rs[0]);
    ExampleOthers(certificates, secrets, rs[1]);
    ExampleOthers(certificates, secrets, rs[3]);
    ExampleOthers(certificates, secrets, rs[4]);
    ExampleConsumer(certificates, secrets);
    ExampleCertificate();
    FiveOk(rs, {("Issuer", "n", "i")}, certificates, secrets);
  }

  lemma {:induction false} PlainLast(rs: seq<Resource>)
    requires rs == [ISSUER, CERTIFICATE, CONSUMER, TYPED, PLAIN]
    ensures exists issuers, certificates :: Accepted(rs, issuers, certificates)
  {
    hide Secrets, AreIssuers, AreCertificates, EachOk, DistinctTo, Accepted, Rid;
    var secrets, issuers := Secrets(rs, 5), {("Issuer", "n", "i")};
    var certificates := map[("n", "t") := CERTIFICATE];
    ExampleIssuers(rs);
    ExampleSecrets(rs, PLAIN);
    OnlyCertificate(rs, certificates);
    ExampleEach(rs, certificates, secrets);
    DistinctExample(rs);
    assert |rs| == 5 && ("n", "t") in certificates;
    AcceptedParts(rs, issuers, certificates);
    assert Accepted(rs, issuers, certificates);
  }

  lemma {:induction false} DistinctExample(rs: seq<Resource>)
    requires rs == [ISSUER, CERTIFICATE, CONSUMER, TYPED, PLAIN]
    ensures DistinctTo(rs, 5)
  {
    assert TYPED.group != PLAIN.group;
    hide Rid;
    var all := {ISSUER, CERTIFICATE, CONSUMER, PLAIN, TYPED};
    assert forall i | 0 <= i < 5 :: rs[i] in all;
    assert forall i, j | 0 <= i < j < 5 :: rs[i] != rs[j];
  }
}
