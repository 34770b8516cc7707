/** The certificate inventory without its sets and maps: acceptance in terms of the fields of the resources
    in the list and of their positions. */
module CertificateFields {
  import opened Text
  import opened Wrappers
  import opened GoDuration
  import opened CertificateInventory

  // ----- Identities and declarations

  predicate IsNamed(k: Kind, name: string) {
    || (k.Issuer? && name == "Issuer") || (k.ClusterIssuer? && name == "ClusterIssuer")
    || (k.Certificate? && name == "Certificate") || (k.Secret? && name == "Secret")
    || (k.Kafka? && name == "Kafka") || (k.Other? && name == k.kind)
  }

  /** The same group, kind and name, in the same namespace unless the kind has none. */
  ghost predicate SameResource(a: Resource, b: Resource) {
    && a.group == b.group && a.name == b.name && (exists kind :: IsNamed(a.kind, kind) && IsNamed(b.kind, kind))
    && (if a.kind.ClusterIssuer? then "" else a.namespace) == (if b.kind.ClusterIssuer? then "" else b.namespace)
  }

  /** What the first loop asks of a resource alone. */
  predicate FineAlone(r: Resource) {
    && (r.kind.Certificate? || r.kind.Issuer? || r.kind.ClusterIssuer? ==>
          r.group == "cert-manager.io" && r.version == "v1")
    && (r.kind.Secret? ==> !r.kind.inlineKeys)
  }

  // ----- Certificates

  /** The resource at `i` is the issuer that the Certificate at `c` asks for. */
  predicate Issues(rs: seq<Resource>, i: nat, c: nat) {
    && i < |rs| && c < |rs| && rs[c].kind.Certificate? && rs[i].name == rs[c].kind.spec.issuerName
    && match rs[i].kind
       case Issuer => rs[c].kind.spec.issuerKind == "Issuer" && rs[i].namespace == rs[c].namespace
       case ClusterIssuer => rs[c].kind.spec.issuerKind == "ClusterIssuer"
       case _ => false
  }

  /** A lifetime of an hour or more, which ends more than five minutes after renewal begins. */
  ghost predicate Lives(duration: string, renewBefore: string) {
    exists x, y :: Means(duration, x) && Means(renewBefore, y) && 3600.0 <= x && 300.0 <= y < x
  }

  ghost predicate CertificateFine(rs: seq<Resource>, c: nat)
    requires c < |rs| && rs[c].kind.Certificate?
  {
    var s := rs[c].kind.spec;
    && !rs[c].malformed && (s.dnsNames == [] ==> s.commonName.Some?)
    && Lives(s.duration, s.renewBefore) && !s.percentage
    && s.issuerGroup == "cert-manager.io" && exists i: nat :: Issues(rs, i, c)
  }

  /** The resource at `c` is a Certificate for that Secret. */
  predicate Manages(rs: seq<Resource>, c: nat, namespace: string, secret: string) {
    c < |rs| && rs[c].kind.Certificate? && rs[c].namespace == namespace && rs[c].kind.spec.secret == secret
  }

  /** The Certificate at `c` is for the host: by one of its DNS names, or by its common name if it has none. */
  predicate IsFor(rs: seq<Resource>, c: nat, host: string) {
    && c < |rs| && rs[c].kind.Certificate?
    && var s := rs[c].kind.spec;
       if s.dnsNames != [] then exists i | 0 <= i < |s.dnsNames| :: Covers(s.dnsNames[i], host)
       else s.commonName.Some? && Covers(s.commonName.value, host)
  }

  // ----- References

  predicate IsSecret(r: Resource, namespace: string, name: string) {
    r.kind.Secret? && r.namespace == namespace && r.name == name
  }

  /** The last definition of the Secret is of the TLS type. */
  ghost predicate LastIsTls(rs: seq<Resource>, namespace: string, name: string) {
    exists i | 0 <= i < |rs| :: IsSecret(rs[i], namespace, name) && rs[i].kind.tlsType &&
                                forall j | i < j < |rs| :: !IsSecret(rs[j], namespace, name)
  }

  /** The reference is about TLS: by its field or name, by a Certificate, by the Secret that is there, or,
      where none is, because it is no known credential. */
  ghost predicate AboutTls(rs: seq<Resource>, ref: Ref) {
    || ref.certain || (exists c: nat :: Manages(rs, c, ref.namespace, ref.secret))
    || LastIsTls(rs, ref.namespace, ref.secret)
    || (!ref.credential && forall i | 0 <= i < |rs| :: !IsSecret(rs[i], ref.namespace, ref.secret))
  }

  ghost predicate RefFine(rs: seq<Resource>, ref: Ref) {
    AboutTls(rs, ref) ==>
      exists c: nat :: Manages(rs, c, ref.namespace, ref.secret) && forall h | h in ref.hosts :: IsFor(rs, c, h)
  }

  // ----- Listeners

  predicate SameIssuer(rs: seq<Resource>, c: nat, d: nat) {
    && c < |rs| && d < |rs| && rs[c].kind.Certificate? && rs[d].kind.Certificate?
    && rs[c].kind.spec.issuerKind == rs[d].kind.spec.issuerKind
    && rs[c].kind.spec.issuerName == rs[d].kind.spec.issuerName
    && (rs[c].kind.spec.issuerKind == "Issuer" ==> rs[c].namespace == rs[d].namespace)
  }

  /** A Certificate for the host has the issuer of one that the listener trusts. */
  ghost predicate HostTrusted(rs: seq<Resource>, namespace: string, l: Listener, host: string) {
    exists c: nat, d: nat, t :: t in l.trusted && Manages(rs, d, namespace, t.secret) && IsFor(rs, c, host) && SameIssuer(rs, c, d)
  }

  ghost predicate ListenerFine(rs: seq<Resource>, namespace: string, l: Listener) {
    && !l.unverified && (!l.tls ==> !l.custom && l.endpoints == []) && (l.trusted == [] ==> l.endpoints == [])
    && (forall t | t in l.trusted :: t.caCrt && exists c: nat :: Manages(rs, c, namespace, t.secret))
    && (forall e | e in l.endpoints :: e.Some? && HostTrusted(rs, namespace, l, e.value))
  }

  // ----- Acceptance

  ghost predicate ResourceFine(rs: seq<Resource>, r: Resource) {
    && FineAlone(r) && !r.malformed && (forall ref | ref in r.refs :: RefFine(rs, ref))
    && (r.kind.Kafka? ==> forall l | l in r.kind.listeners :: ListenerFine(rs, r.namespace, l))
  }

  ghost predicate Uses(rs: seq<Resource>, r: Resource) {
    || (exists ref :: ref in r.refs && AboutTls(rs, ref))
    || (r.kind.Kafka? && exists l :: l in r.kind.listeners && l.trusted != [])
  }

  /** No two Certificates are for one Secret. */
  ghost predicate OneForEach(rs: seq<Resource>) {
    forall c: nat, d: nat, namespace, secret | Manages(rs, c, namespace, secret) && Manages(rs, d, namespace, secret) :: c == d
  }

  ghost predicate Acceptable(rs: seq<Resource>) {
    && (forall i, j | 0 <= i < j < |rs| :: !SameResource(rs[i], rs[j]))
    && (forall i | 0 <= i < |rs| :: ResourceFine(rs, rs[i]))
    && (forall c | 0 <= c < |rs| && rs[c].kind.Certificate? :: CertificateFine(rs, c))
    && OneForEach(rs)
    && (exists c | 0 <= c < |rs| :: rs[c].kind.Certificate?)
    && (exists i | 0 <= i < |rs| :: Uses(rs, rs[i]))
  }

  // ----- The sets and maps of the gate

  lemma {:induction false} SameIff(a: Resource, b: Resource)
    ensures SameResource(a, b) <==> Rid(a) == Rid(b)
  {
    assert IsNamed(a.kind, KindName(a.kind)) && IsNamed(b.kind, KindName(b.kind));
    assert forall name :: (IsNamed(a.kind, name) <==> name == KindName(a.kind)) && (IsNamed(b.kind, name) <==> name == KindName(b.kind));
  }

  lemma {:induction false} DistinctIff(rs: seq<Resource>)
    ensures DistinctTo(rs, |rs|) <==> forall i, j | 0 <= i < j < |rs| :: !SameResource(rs[i], rs[j])
  {
    hide SameResource, Rid;
    forall i, j | 0 <= i < j < |rs| ensures SameResource(rs[i], rs[j]) <==> Rid(rs[i]) == Rid(rs[j]) {
      SameIff(rs[i], rs[j]);
    }
  }

  lemma {:induction false} IssuerIff(rs: seq<Resource>, issuers: set<(string, string, string)>, c: nat)
    requires AreIssuers(rs, |rs|, issuers) && c < |rs| && rs[c].kind.Certificate?
    ensures IssuerRef(rs[c]) in issuers <==> exists i: nat :: Issues(rs, i, c)
  {
    forall i | 0 <= i < |rs| ensures IsIssuer(rs[i]) && IssuerId(rs[i]) == IssuerRef(rs[c]) <==> Issues(rs, i, c) {
    }
  }

  lemma {:induction false} CertificateIff(rs: seq<Resource>, issuers: set<(string, string, string)>, c: nat)
    requires AreIssuers(rs, |rs|, issuers) && c < |rs| && rs[c].kind.Certificate?
    ensures CertificateOk(issuers, rs[c]) <==> CertificateFine(rs, c)
  {
    hide AreIssuers, Means, Issues;
    IssuerIff(rs, issuers, c);
  }

  /** A key of the map is a Secret that a Certificate manages, and its entry is that Certificate. */
  lemma {:induction false} KeyIff(rs: seq<Resource>, certificates: map<Key, Resource>, namespace: string, secret: string)
    requires AreCertificates(rs, |rs|, certificates)
    ensures (namespace, secret) in certificates <==> exists c: nat :: Manages(rs, c, namespace, secret)
    ensures forall c: nat | Manages(rs, c, namespace, secret) ::
              (namespace, secret) in certificates && certificates[(namespace, secret)] == rs[c]
  {
    forall c: nat | Manages(rs, c, namespace, secret)
      ensures (namespace, secret) in certificates && certificates[(namespace, secret)] == rs[c]
    {
      assert ManagedKey(rs[c]) == (namespace, secret);
    }
    if (namespace, secret) in certificates {
      var c :| 0 <= c < |rs| && rs[c] == certificates[(namespace, secret)] && rs[c].kind.Certificate? &&
               ManagedKey(rs[c]) == (namespace, secret);
      assert Manages(rs, c, namespace, secret);
    }
  }

  lemma {:induction false} HostIff(rs: seq<Resource>, c: nat, host: string)
    requires c < |rs| && rs[c].kind.Certificate?
    ensures CoversHost(rs[c], host) <==> IsFor(rs, c, host)
  {
    hide Covers;
    var s := rs[c].kind.spec;
    var names := Identities(rs[c]);
    if s.dnsNames != [] {
      assert names == s.dnsNames;
    } else if s.commonName.Some? {
      assert names == [s.commonName.value] && names[0] == s.commonName.value;
    } else {
      assert names == [];
    }
  }

  lemma {:induction false} SecretIff(rs: seq<Resource>, namespace: string, name: string)
    ensures var k := (namespace, name);
            && (k in Secrets(rs, |rs|) && Secrets(rs, |rs|)[k] <==> LastIsTls(rs, namespace, name))
            && (k in Secrets(rs, |rs|) <==> exists i | 0 <= i < |rs| :: IsSecret(rs[i], namespace, name))
  {
    SecretsAre(rs, |rs|, (namespace, name));
    hide Secrets;
    assert forall i | 0 <= i < |rs| :: Defines(rs[i], (namespace, name)) <==> IsSecret(rs[i], namespace, name);
  }

  lemma {:induction false} RefIff(rs: seq<Resource>, certificates: map<Key, Resource>, ref: Ref)
    requires AreCertificates(rs, |rs|, certificates)
    ensures Required(certificates, Secrets(rs, |rs|), ref) <==> AboutTls(rs, ref)
    ensures RefOk(certificates, Secrets(rs, |rs|), ref) <==> RefFine(rs, ref)
  {
    KeyIff(rs, certificates, ref.namespace, ref.secret);
    SecretIff(rs, ref.namespace, ref.secret);
    hide AreCertificates, Secrets, LastIsTls, IsSecret, CoversHost, IsFor;
    var key := (ref.namespace, ref.secret);
    forall c: nat, h | Manages(rs, c, ref.namespace, ref.secret) ensures CoversHost(rs[c], h) <==> IsFor(rs, c, h) {
      HostIff(rs, c, h);
    }
  }

  lemma {:induction false} SameIssuerIff(rs: seq<Resource>, c: nat, d: nat)
    requires c < |rs| && d < |rs| && rs[c].kind.Certificate? && rs[d].kind.Certificate?
    ensures IssuerRef(rs[c]) == IssuerRef(rs[d]) <==> SameIssuer(rs, c, d)
  {
  }

  /** What makes an endpoint pass: two Certificates of one issuer, one for the host and one trusted. */
  lemma {:induction false} EndpointFound(rs: seq<Resource>, certificates: map<Key, Resource>, namespace: string,
                                         l: Listener, host: string)
    requires AreCertificates(rs, |rs|, certificates) && EndpointOk(certificates, namespace, l, Some(host))
    ensures HostTrusted(rs, namespace, l, host)
  {
    hide Covers, CoversHost, IsFor, IssuerRef, SameIssuer;
    var k :| k in certificates && certificates[k].kind.Certificate? &&
             Trusts(certificates, namespace, l, IssuerRef(certificates[k])) && CoversHost(certificates[k], host);
    var n :| 0 <= n < |l.trusted| && (namespace, l.trusted[n].secret) in certificates &&
             IssuerRef(certificates[(namespace, l.trusted[n].secret)]) == IssuerRef(certificates[k]);
    var c :| 0 <= c < |rs| && rs[c] == certificates[k];
    KeyIff(rs, certificates, namespace, l.trusted[n].secret);
    hide AreCertificates, Trusts, EndpointOk;
    var d: nat :| Manages(rs, d, namespace, l.trusted[n].secret);
    HostIff(rs, c, host);
    SameIssuerIff(rs, c, d);
    assert l.trusted[n] in l.trusted;
  }

  lemma {:induction false} EndpointMade(rs: seq<Resource>, certificates: map<Key, Resource>, namespace: string,
                                        l: Listener, host: string, c: nat, d: nat, t: Trust)
    requires AreCertificates(rs, |rs|, certificates) && t in l.trusted && Manages(rs, d, namespace, t.secret)
    requires IsFor(rs, c, host) && SameIssuer(rs, c, d)
    ensures EndpointOk(certificates, namespace, l, Some(host))
  {
    hide Covers, CoversHost, IssuerRef, SameIssuer;
    KeyIff(rs, certificates, namespace, t.secret);
    var k := ManagedKey(rs[c]);
    assert k in certificates && certificates[k] == rs[c];
    HostIff(rs, c, host);
    hide IsFor;
    SameIssuerIff(rs, c, d);
    var n :| 0 <= n < |l.trusted| && l.trusted[n] == t;
    assert Trusts(certificates, namespace, l, IssuerRef(rs[c]));
  }

  lemma {:induction false} EndpointIff(rs: seq<Resource>, certificates: map<Key, Resource>, namespace: string, l: Listener,
                                       host: string)
    requires AreCertificates(rs, |rs|, certificates)
    ensures EndpointOk(certificates, namespace, l, Some(host)) <==> HostTrusted(rs, namespace, l, host)
  {
    hide AreCertificates, EndpointOk, IsFor, SameIssuer, Manages;
    if EndpointOk(certificates, namespace, l, Some(host)) {
      EndpointFound(rs, certificates, namespace, l, host);
    }
    if HostTrusted(rs, namespace, l, host) {
      var c: nat, d: nat, t :| t in l.trusted && Manages(rs, d, namespace, t.secret) && IsFor(rs, c, host) && SameIssuer(rs, c, d);
      EndpointMade(rs, certificates, namespace, l, host, c, d, t);
    }
  }

  lemma {:induction false} ListenerIff(rs: seq<Resource>, certificates: map<Key, Resource>, namespace: string, l: Listener)
    requires AreCertificates(rs, |rs|, certificates)
    ensures ListenerOk(certificates, namespace, l) <==> ListenerFine(rs, namespace, l)
  {
    hide AreCertificates, EndpointOk, HostTrusted, Manages;
    forall t ensures (namespace, t) in certificates <==> exists c: nat :: Manages(rs, c, namespace, t) {
      KeyIff(rs, certificates, namespace, t);
    }
    forall e ensures EndpointOk(certificates, namespace, l, e) <==> e.Some? && HostTrusted(rs, namespace, l, e.value) {
      if e.Some? {
        EndpointIff(rs, certificates, namespace, l, e.value);
      } else {
        NoHost(certificates, namespace, l);
      }
    }
    assert (forall i | 0 <= i < |l.endpoints| :: EndpointOk(certificates, namespace, l, l.endpoints[i])) <==>
           (forall e | e in l.endpoints :: EndpointOk(certificates, namespace, l, e));
    assert (forall i | 0 <= i < |l.trusted| :: l.trusted[i].caCrt && (namespace, l.trusted[i].secret) in certificates) <==>
           (forall t | t in l.trusted :: t.caCrt && (namespace, t.secret) in certificates);
  }

  lemma {:induction false} NoHost(certificates: map<Key, Resource>, namespace: string, l: Listener)
    ensures !EndpointOk(certificates, namespace, l, None)
  {
  }

  lemma {:induction false} ConsumerIff(rs: seq<Resource>, certificates: map<Key, Resource>, r: Resource)
    requires AreCertificates(rs, |rs|, certificates)
    ensures Declarable(r) && ConsumerOk(certificates, Secrets(rs, |rs|), r) <==> ResourceFine(rs, r)
    ensures Consumes(certificates, Secrets(rs, |rs|), r) <==> Uses(rs, r)
  {
    hide AreCertificates, Secrets, ListenerOk, ListenerFine, RefOk, RefFine, Required, AboutTls;
    forall ref
      ensures Required(certificates, Secrets(rs, |rs|), ref) <==> AboutTls(rs, ref)
      ensures RefOk(certificates, Secrets(rs, |rs|), ref) <==> RefFine(rs, ref)
    {
      RefIff(rs, certificates, ref);
    }
    forall l ensures ListenerOk(certificates, r.namespace, l) <==> ListenerFine(rs, r.namespace, l) {
      ListenerIff(rs, certificates, r.namespace, l);
    }
  }

  lemma {:induction false} AcceptedWhen(rs: seq<Resource>, issuers: set<(string, string, string)>,
                                        certificates: map<Key, Resource>)
    requires AreIssuers(rs, |rs|, issuers) && AreCertificates(rs, |rs|, certificates)
    ensures Accepted(rs, issuers, certificates) <==> Acceptable(rs)
  {
    hide AreIssuers, DistinctTo, SameResource, Declarable, ConsumerOk, Consumes, CertificateOk, CertificateFine,
      ResourceFine, Uses, Secrets, AreCertificates, Manages, Accepted;
    AcceptedParts(rs, issuers, certificates);
    DistinctIff(rs);
    forall c | 0 <= c < |rs| && rs[c].kind.Certificate?
      ensures CertificateOk(issuers, rs[c]) <==> CertificateFine(rs, c)
    {
      CertificateIff(rs, issuers, c);
    }
    forall i | 0 <= i < |rs|
      ensures Declarable(rs[i]) && ConsumerOk(certificates, Secrets(rs, |rs|), rs[i]) <==> ResourceFine(rs, rs[i])
      ensures Consumes(certificates, Secrets(rs, |rs|), rs[i]) <==> Uses(rs, rs[i])
    {
      ConsumerIff(rs, certificates, rs[i]);
    }
    SomeCertificate(rs, certificates);
    if DistinctTo(rs, |rs|) {
      OneEach(rs, certificates);
    }
  }

  lemma {:induction false} SomeCertificate(rs: seq<Resource>, certificates: map<Key, Resource>)
    requires AreCertificates(rs, |rs|, certificates)
    ensures certificates != map[] <==> exists c | 0 <= c < |rs| :: rs[c].kind.Certificate?
  {
    hide ManagedKey;
    if certificates != map[] {
      var k :| k in certificates;
    }
  }

  lemma {:induction false} OneEach(rs: seq<Resource>, certificates: map<Key, Resource>)
    requires DistinctTo(rs, |rs|) && AreCertificates(rs, |rs|, certificates)
    ensures OneForEach(rs)
  {
    OneCertificateEach(rs, certificates);
    forall c: nat, d: nat, namespace, secret | Manages(rs, c, namespace, secret) && Manages(rs, d, namespace, secret)
      ensures c == d
    {
      assert ManagedKey(rs[c]) == ManagedKey(rs[d]);
    }
  }

  lemma {:induction false} Collected(rs: seq<Resource>, n: nat) returns (certificates: map<Key, Resource>)
    requires n <= |rs| && OneForEach(rs)
    ensures AreCertificates(rs, n, certificates)
  {
    if n == 0 {
      certificates := map[];
    } else {
      certificates := Collected(rs, n - 1);
      var r := rs[n - 1];
      if r.kind.Certificate? {
        var k := ManagedKey(r);
        assert Manages(rs, n - 1, k.0, k.1);
        forall i | 0 <= i < n - 1 && rs[i].kind.Certificate? ensures ManagedKey(rs[i]) != k {
          assert !Manages(rs, i, k.0, k.1);
        }
        hide ManagedKey, Manages, OneForEach;
        certificates := certificates[k := r];
      }
    }
  }

  /** The gate accepts exactly the lists whose resources, by their own fields and by those of the others in
      the list, are as described here. */
  lemma {:induction false} AcceptedIff(rs: seq<Resource>)
    ensures (exists issuers, certificates :: Accepted(rs, issuers, certificates)) <==> Acceptable(rs)
  {
    hide Acceptable, Accepted, AreIssuers, AreCertificates, OneForEach, EachOk, DistinctTo;
    if issuers, certificates :| Accepted(rs, issuers, certificates) {
      AcceptedParts(rs, issuers, certificates);
      AcceptedWhen(rs, issuers, certificates);
    }
    if Acceptable(rs) {
      OneEachAcceptable(rs);
      var issuers := AllIssuers(rs);
      var certificates := Collected(rs, |rs|);
      AcceptedWhen(rs, issuers, certificates);
    }
  }

  lemma {:induction false} AllIssuers(rs: seq<Resource>) returns (issuers: set<(string, string, string)>)
    ensures AreIssuers(rs, |rs|, issuers)
  {
    issuers := set i | 0 <= i < |rs| && IsIssuer(rs[i]) :: IssuerId(rs[i]);
  }

  lemma {:induction false} OneEachAcceptable(rs: seq<Resource>)
    ensures Acceptable(rs) ==> OneForEach(rs)
  {
  }

  /** A resource that the gate forbids whatever else is in the list: a Secret with inline keys, a resource
      of cert-manager in another API version, a Certificate with a renewal percentage, another issuer group
      or no name at all, and a listener that does not verify hosts, brings its own certificate without TLS,
      asks endpoints without TLS or without trust, or trusts a certificate that is no CA. */
  predicate Forbidden(r: Resource) {
    || r.malformed
    || (r.kind.Secret? && r.kind.inlineKeys)
    || ((r.kind.Certificate? || r.kind.Issuer? || r.kind.ClusterIssuer?) &&
        (r.group != "cert-manager.io" || r.version != "v1"))
    || (r.kind.Certificate? &&
        (r.kind.spec.percentage || r.kind.spec.issuerGroup != "cert-manager.io" ||
         (r.kind.spec.dnsNames == [] && r.kind.spec.commonName == None)))
    || (r.kind.Kafka? && exists l | l in r.kind.listeners :: ForbiddenListener(l))
  }

  predicate ForbiddenListener(l: Listener) {
    || l.unverified || (l.custom && !l.tls) || (l.endpoints != [] && (!l.tls || l.trusted == []))
    || None in l.endpoints || exists t | t in l.trusted :: !t.caCrt
  }

  lemma {:induction false} NoneForbidden(rs: seq<Resource>, i: nat)
    requires i < |rs|
    ensures Acceptable(rs) ==> !Forbidden(rs[i])
  {
    hide AboutTls, RefFine, HostTrusted, Manages, Uses, SameResource, Lives;
    assert Acceptable(rs) ==> ResourceFine(rs, rs[i]) && (rs[i].kind.Certificate? ==> CertificateFine(rs, i));
  }

  /** No list with such a resource is accepted; in particular none that was accepted before it was added. */
  lemma {:induction false} ForbiddenIsRejected(rs: seq<Resource>, r: Resource)
    requires r in rs && Forbidden(r)
    ensures forall issuers, certificates :: !Accepted(rs, issuers, certificates)
  {
    hide Accepted, Acceptable, Forbidden;
    AcceptedIff(rs);
    var i :| 0 <= i < |rs| && rs[i] == r;
    NoneForbidden(rs, i);
  }
}
