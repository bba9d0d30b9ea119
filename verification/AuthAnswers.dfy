/**
 What verification accepts and how it refuses, and what preparing a delivery yields, told from the parts of
 the request, the resolver's documents and the library's answers alone.
 */
module AuthAnswers {
  import opened Wrappers
  import opened Text
  import opened Vocab
  import opened SignatureHeader
  import opened Cavage
  import opened Http
  import opened RequestAuth

  /******* The conditions *******/

  // The first Signature header is readable, well formed, of a known algorithm and covers the request target first.
  predicate SignedAs(request: Request, signature: ParsedSignature) {
    var values := GetAll(request.headers, "signature");
    && values != [] && AllVisible(values[0]) && Parsed(values[0]) == Some(signature)
    && signature.algorithm in {None, Some("rsa-sha256"), Some("hs2019")}
    && signature.signedHeaders != [] && signature.signedHeaders[0] == "(request-target)"
  }

  predicate IsOneReadable(values: seq<string>) {
    exists value | value in values :: values == [value] && AllVisible(value)
  }

  // Every further name is an ordinary header that occurs once and is readable; no name repeats; three must be there.
  predicate CoversEachOnce(headers: Headers, names: seq<string>) {
    && (forall i | 0 <= i < |names| ::
          && !("(" <= names[i])
          && IsOneReadable(GetAll(headers, names[i])))
    && (forall i, j | 0 <= i < |names| && 0 <= j < |names| && names[i] == names[j] :: i == j)
    && {"date", "digest", "host"} <= set name | name in names
  }

  // The authority's port: the default when nothing follows the host, and otherwise what follows the colon.
  predicate HasPort(a: Authority, default: Option<nat>, port: Option<nat>) {
    && |a.host| <= |a.text|
    && var rest := a.text[|a.host|..];
       if rest == "" then port == default else rest[0] == ':' && a.port.Some? && port == a.port
  }

  predicate IsDefault(scheme: Option<string>, port: Option<nat>) {
    if scheme.Some? && Lower(scheme.value) == "http" then port == Some(80)
    else if scheme.Some? && Lower(scheme.value) == "https" then port == Some(443)
    else port == None
  }

  // The first Host header names this authority, without user information.
  predicate NamesHost(p: Platform, headers: Headers, a: Authority) {
    var values := GetAll(headers, "host");
    values != [] && AllVisible(values[0]) && p.authority(values[0]) == Some(a) && '@' !in a.text
  }

  predicate IsServedAt(p: Platform, inbox: Iri, scheme: Option<string>, a: Authority) {
    p.uri(inbox) == Some(Uri(scheme, Some(a))) && '@' !in a.text
  }

  // The request names the inbox's host, in any letter case, and its port.
  ghost predicate SameHost(p: Platform, headers: Headers, inbox: Iri) {
    exists a, b, scheme, default, port ::
      && NamesHost(p, headers, a) && IsServedAt(p, inbox, scheme, b) && IsDefault(scheme, default)
      && HasPort(a, default, port) && HasPort(b, default, port) && Lower(a.host) == Lower(b.host)
  }

  // The request names some host, but the inbox itself has no usable authority.
  ghost predicate InboxUnusable(p: Platform, headers: Headers, inbox: Iri) {
    exists a ::
      && NamesHost(p, headers, a)
      && ((forall scheme, b :: !IsServedAt(p, inbox, scheme, b))
          || exists scheme, b, default, port ::
               && IsServedAt(p, inbox, scheme, b) && IsDefault(scheme, default)
               && HasPort(a, default, port) && forall other :: !HasPort(b, default, other))
  }

  // At most sixty-five minutes old and at most one hour ahead, in nanoseconds.
  predicate IsTimely(p: Platform, headers: Headers, now: int) {
    var values := GetAll(headers, "date");
    && values != [] && AllVisible(values[0])
    && match p.parseDate(values[0])
       case None => false
       case Some(date) => date - 3_600_000_000_000 <= now <= date + 3_900_000_000_000
  }

  // Some entry of the first Digest header is the SHA-256 of the body.
  ghost predicate CarriesDigest(p: Platform, headers: Headers, body: Bytes) {
    var values := GetAll(headers, "digest");
    && values != [] && AllVisible(values[0])
    && exists entry | entry in SplitOn(',', values[0]) :: IsDigestOf(p.crypto, Trim(entry), body)
  }

  ghost predicate IsDigestOf(crypto: Crypto, entry: string, body: Bytes) {
    exists algorithm :: IsAlgorithmOf(crypto, entry, body, algorithm)
  }

  ghost predicate PassesChecks(p: Platform, now: int, request: Request, inbox: Iri, signature: ParsedSignature)
    requires signature.signedHeaders != []
  {
    && CoversEachOnce(request.headers, signature.signedHeaders[1..]) && SameHost(p, request.headers, inbox)
    && IsTimely(p, request.headers, now) && CarriesDigest(p, request.headers, request.body)
    && p.isIri(signature.keyId)
  }

  // The fetched key is the one asked for, belongs to the actor and made the signature.
  predicate SignedWith(
    p: Platform, request: Request, signature: ParsedSignature, key: CryptographicKey, actorId: Iri)
    requires signature.signedHeaders != [] && CoversEachOnce(request.headers, signature.signedHeaders[1..])
  {
    var names := signature.signedHeaders[1..];
    var fields := seq(|names|, i requires 0 <= i < |names| => (names[i], GetAll(request.headers, names[i])[0]));
    && key.id == signature.keyId && key.owner == actorId
    && p.crypto.verify(
         key.publicKeyPem, SignatureBase(request.verb, RequestTarget(request), fields), signature.signature)
  }

  // The actor points to this key, or embeds it with the same owner and the same public key.
  predicate Advertises(actor: Actor, key: CryptographicKey) {
    match actor.publicKey
    case None => false
    case Some(Id(id)) => id == key.id
    case Some(Object(embedded)) =>
      embedded.id == key.id && embedded.owner == actor.id && embedded.publicKeyPem == key.publicKeyPem
  }

  /******* They are what is checked *******/

  lemma SignatureIsRead(request: Request, signature: ParsedSignature)
    ensures SignatureOf(request) == Some(signature) <==> SignedAs(request, signature)
  {
  }

  lemma CoverableMeans(headers: Headers, names: seq<string>)
    ensures CoversEachOnce(headers, names) <==> Coverable(headers, names) && CoversRequired(names)
  {
    forall i | 0 <= i < |names| ensures "(" <= names[i] <==> names[i] != "" && names[i][0] == '(' {
    }
    forall i | 0 <= i < |names|
      ensures IsOneReadable(GetAll(headers, names[i])) <==>
              |GetAll(headers, names[i])| == 1 && AllVisible(GetAll(headers, names[i])[0])
    {
      var values := GetAll(headers, names[i]);
      if |values| == 1 {
        assert values == [values[0]] && values[0] in values;
      }
    }
  }

  lemma EffectivePortMeans(a: Authority, default: Option<nat>)
    ensures forall port :: EffectivePort(a, default) == Some(port) <==> HasPort(a, default, port)
  {
  }

  lemma DefaultPortMeans(scheme: Option<string>)
    ensures forall port :: DefaultPort(scheme) == port <==> IsDefault(scheme, port)
  {
    assert Lower("http") == "http" && Lower("https") == "https";
  }

  /** The host check passes exactly for the inbox's own host and port, and refuses another with 401. */
  lemma HostAnswers(p: Platform, headers: Headers, inbox: Iri)
    ensures HostFailure(p, headers, inbox) == None <==> SameHost(p, headers, inbox)
    ensures HostFailure(p, headers, inbox) == Some(InternalServerError) <==> InboxUnusable(p, headers, inbox)
    ensures HostFailure(p, headers, inbox) in {None, Some(InternalServerError), Some(Unauthorized)}
  {
    var values := GetAll(headers, "host");
    if values != [] && AllVisible(values[0]) && p.authority(values[0]).Some?
       && '@' !in p.authority(values[0]).value.text {
      var a, uri := p.authority(values[0]).value, p.uri(inbox);
      assert NamesHost(p, headers, a);
      if uri.Some? && uri.value.authority.Some? && '@' !in uri.value.authority.value.text {
        HostsAreCompared(p, headers, inbox, a, uri.value.scheme, uri.value.authority.value);
      } else {
        assert forall scheme, b :: !IsServedAt(p, inbox, scheme, b);
      }
    } else {
      assert forall a :: !NamesHost(p, headers, a);
    }
  }

  lemma HostsAreCompared(
    p: Platform, headers: Headers, inbox: Iri, a: Authority, scheme: Option<string>, b: Authority)
    requires NamesHost(p, headers, a) && IsServedAt(p, inbox, scheme, b)
    ensures HostFailure(p, headers, inbox) == None <==> SameHost(p, headers, inbox)
    ensures HostFailure(p, headers, inbox) == Some(InternalServerError) <==> InboxUnusable(p, headers, inbox)
    ensures HostFailure(p, headers, inbox) in {None, Some(InternalServerError), Some(Unauthorized)}
  {
    var default := DefaultPort(scheme);
    DefaultPortMeans(scheme);
    EffectivePortMeans(a, default);
    EffectivePortMeans(b, default);
    OnlyTheseHosts(p, headers, inbox, a, scheme, b);
    var mine, theirs := EffectivePort(a, default), EffectivePort(b, default);
    assert mine.None? ==> forall port :: !HasPort(a, default, port);
    assert theirs.None? ==> forall port :: !HasPort(b, default, port);
    assert mine.Some? ==> HasPort(a, default, mine.value);
    assert theirs.Some? ==> HasPort(b, default, theirs.value);
  }

  // With both authorities known, the two conditions speak of these alone.
  lemma OnlyTheseHosts(
    p: Platform, headers: Headers, inbox: Iri, a: Authority, scheme: Option<string>, b: Authority)
    requires NamesHost(p, headers, a) && IsServedAt(p, inbox, scheme, b)
    ensures var default := DefaultPort(scheme);
            && (SameHost(p, headers, inbox) <==>
                  && Lower(a.host) == Lower(b.host)
                  && exists port :: HasPort(a, default, port) && HasPort(b, default, port))
            && (InboxUnusable(p, headers, inbox) <==>
                  (exists port :: HasPort(a, default, port)) && forall port :: !HasPort(b, default, port))
  {
    DefaultPortMeans(scheme);
    assert IsDefault(scheme, DefaultPort(scheme));
  }

  lemma FreshMeans(p: Platform, headers: Headers, now: int)
    ensures Fresh(p, headers, now) <==> IsTimely(p, headers, now)
  {
  }

  predicate IsAlgorithmOf(crypto: Crypto, entry: string, body: Bytes, algorithm: string) {
    '=' !in algorithm && Lower(algorithm) == Lower("sha-256") && entry == algorithm + ("=" + crypto.sha256(body))
  }

  lemma MatchingEntryIsDigest(crypto: Crypto, entry: string, body: Bytes)
    requires EntryMatches(crypto, entry, body)
    ensures IsDigestOf(crypto, entry, body)
  {
    DigestIsSplit(crypto.sha256(body));
    IndexOfFirst('=', entry);
    var i := IndexOf('=', entry).value;
    assert "=" == ['='];
    assert IsAlgorithmOf(crypto, entry, body, entry[..i]);
  }

  lemma DigestEntryMatches(crypto: Crypto, entry: string, body: Bytes, algorithm: string)
    requires IsAlgorithmOf(crypto, entry, body, algorithm)
    ensures EntryMatches(crypto, entry, body)
  {
    var rest := "=" + crypto.sha256(body);
    DigestIsSplit(crypto.sha256(body));
    assert Free('=', algorithm);
    IndexOfSkips('=', algorithm, rest);
    assert IndexOf('=', rest) == Some(0);
    assert entry[..|algorithm|] == algorithm && entry[|algorithm| + 1..] == crypto.sha256(body);
  }

  lemma EntryMeans(crypto: Crypto, entry: string, body: Bytes)
    ensures EntryMatches(crypto, entry, body) <==> IsDigestOf(crypto, entry, body)
  {
    if EntryMatches(crypto, entry, body) {
      MatchingEntryIsDigest(crypto, entry, body);
    }
    forall algorithm | IsAlgorithmOf(crypto, entry, body, algorithm) ensures EntryMatches(crypto, entry, body) {
      DigestEntryMatches(crypto, entry, body, algorithm);
    }
  }

  lemma DigestMeans(p: Platform, headers: Headers, body: Bytes)
    ensures DigestVerified(p, headers, body) <==> CarriesDigest(p, headers, body)
  {
    var values := GetAll(headers, "digest");
    if values != [] {
      var entries := SplitOn(',', values[0]);
      forall i | 0 <= i < |entries|
        ensures EntryMatches(p.crypto, Trim(entries[i]), body) <==> IsDigestOf(p.crypto, Trim(entries[i]), body)
      {
        EntryMeans(p.crypto, Trim(entries[i]), body);
      }
    }
  }

  lemma ChecksMean(p: Platform, now: int, request: Request, inbox: Iri, signature: ParsedSignature)
    requires signature.signedHeaders != []
    ensures var failure := RequestFailure(p, now, request, inbox, signature);
            && (failure == None <==> PassesChecks(p, now, request, inbox, signature))
            && (failure == Some(InternalServerError) <==>
                  && CoversEachOnce(request.headers, signature.signedHeaders[1..])
                  && InboxUnusable(p, request.headers, inbox))
            && failure in {None, Some(InternalServerError), Some(Unauthorized)}
  {
    CoverableMeans(request.headers, signature.signedHeaders[1..]);
    HostAnswers(p, request.headers, inbox);
    FreshMeans(p, request.headers, now);
    DigestMeans(p, request.headers, request.body);
  }

  lemma SignerMeans(
    p: Platform, resolver: Resolver, request: Request, actorId: Iri, signature: ParsedSignature)
    requires signature.signedHeaders != [] && CoversEachOnce(request.headers, signature.signedHeaders[1..])
    requires Coverable(request.headers, signature.signedHeaders[1..])
    ensures var r := SignerOf(p, resolver, request, actorId, signature);
            var key, found := resolver.key(signature.keyId), resolver.actor(actorId);
            && (r == Err(BadGateway) <==>
                  key.None? || (SignedWith(p, request, signature, key.value, actorId) && found.None?))
            && (forall actor :: r == Ok(actor) <==>
                  && key.Some? && SignedWith(p, request, signature, key.value, actorId)
                  && found == Some(actor) && actor.id == actorId && Advertises(actor, key.value))
            && (r.Ok? || r.error in {BadGateway, Unauthorized})
  {
    var names := signature.signedHeaders[1..];
    var fields := seq(|names|, i requires 0 <= i < |names| => (names[i], GetAll(request.headers, names[i])[0]));
    assert fields == CoveredFields(request.headers, names);
  }

  /**
   The answer of verification, for every request. 500: the covered headers are in order but the inbox has no
   usable authority. 502: all checks pass and the key cannot be fetched, or it signed the request and the
   actor cannot be fetched. Accepted: all checks pass, the key the header names belongs to the actor and
   signed the request, and the actor's own document advertises that very key. Otherwise 401.
   */
  lemma VerificationAnswers(
    p: Platform, resolver: Resolver, now: int, request: Request, actorId: Iri, inbox: Iri, signature: ParsedSignature)
    requires SignedAs(request, signature)
    ensures var r := Verified(p, resolver, now, request, actorId, inbox);
            var passes, key := PassesChecks(p, now, request, inbox, signature), resolver.key(signature.keyId);
            && (r == Err(InternalServerError) <==>
                  && CoversEachOnce(request.headers, signature.signedHeaders[1..])
                  && InboxUnusable(p, request.headers, inbox))
            && (r == Err(BadGateway) <==>
                  passes
                  && (key.None?
                      || (SignedWith(p, request, signature, key.value, actorId) && resolver.actor(actorId).None?)))
            && (forall actor :: r == Ok(actor) <==>
                  && passes && key.Some? && SignedWith(p, request, signature, key.value, actorId)
                  && resolver.actor(actorId) == Some(actor) && actor.id == actorId && Advertises(actor, key.value))
            && (r.Ok? || r.error in {InternalServerError, BadGateway, Unauthorized})
  {
    SignatureIsRead(request, signature);
    ChecksMean(p, now, request, inbox, signature);
    if PassesChecks(p, now, request, inbox, signature) {
      CoverableMeans(request.headers, signature.signedHeaders[1..]);
      SignerMeans(p, resolver, request, actorId, signature);
    }
  }

  /** Without a Signature header that can be read so, the answer is 401. */
  lemma UnsignedIsRefused(p: Platform, resolver: Resolver, now: int, request: Request, actorId: Iri, inbox: Iri)
    requires forall signature :: !SignedAs(request, signature)
    ensures Verified(p, resolver, now, request, actorId, inbox) == Err(Unauthorized)
  {
    if SignatureOf(request).Some? {
      SignatureIsRead(request, SignatureOf(request).value);
    }
  }

  /******* Preparing a delivery *******/

  // The key id a delivery is signed under: an advertised one, or an embedded one of this very pair.
  predicate SignsUnder(actor: Actor, pair: ActorKeyPair, keyId: Iri) {
    match actor.publicKey
    case None => false
    case Some(Id(id)) => id == keyId
    case Some(Object(key)) => key.id == keyId && key.owner == actor.id && key.publicKeyPem == pair.publicKeyPem
  }

  predicate IsWebAddress(url: Option<Url>) {
    && url.Some? && (url.value.scheme == "http" || url.value.scheme == "https")
    && url.value.username == "" && url.value.password == None && url.value.host.Some?
  }

  /** Each reason not to send, in order, and otherwise the request: where it goes, its five headers and its body. */
  lemma PreparationAnswers(
    p: Platform, actor: Actor, pair: ActorKeyPair, body: Bytes, url: Option<Url>, privateHost: bool, now: int)
    ensures var r := Prepared(p, actor, pair, body, url, privateHost, now);
            var usable := exists keyId :: SignsUnder(actor, pair, keyId);
            && (r == Err(MissingActorKey) <==> actor.publicKey == None)
            && (r == Err(ActorKeyMismatch) <==> actor.publicKey.Some? && !usable)
            && (r == Err(InvalidInbox) <==> usable && !IsWebAddress(url))
            && (r == Err(PrivateInboxAddress) <==> usable && IsWebAddress(url) && privateHost)
            && (r.Ok? || r == Err(SigningFailed) ==> usable && IsWebAddress(url) && !privateHost)
            && (r.Ok? ==>
                  exists keyId ::
                    SignsUnder(actor, pair, keyId) && IsSigned(p, pair, body, url.value, now, keyId, r.value))
            && (r == Err(SigningFailed) ==>
                  var base := SignatureBase("POST", Target(url.value), Headings(p, body, url.value, now));
                  p.crypto.sign(pair.privateKeyPem, base) == None)
  {
    var keyId := SigningKeyId(actor, pair);
    if keyId.Ok? {
      assert SignsUnder(actor, pair, keyId.value);
    } else {
      assert forall id :: !SignsUnder(actor, pair, id);
    }
    if IsWebAddress(url) {
      var digest, host := CreateSha256DigestHeader(p.crypto, body), HostText(url.value.host.value, url.value.port);
      var fields := SentFields(p.printDate(now), digest, host);
      assert fields == Headings(p, body, url.value, now);
      assert Names(fields) == ["content-type", "date", "digest", "host"];
    }
  }

  function Target(url: Url): string {
    match url.query
    case None => url.path
    case Some(query) => url.path + ("?" + query)
  }

  // The headers that are covered, in order.
  function Headings(p: Platform, body: Bytes, url: Url, now: int): seq<Field>
    requires url.host.Some?
  {
    [("content-type", "application/activity+json"), ("date", p.printDate(now)),
     ("digest", "SHA-256=" + p.crypto.sha256(body)),
     ("host", match url.port case None => url.host.value case Some(port) => url.host.value + (":" + Decimal(port)))]
  }

  predicate IsSigned(
    p: Platform, pair: ActorKeyPair, body: Bytes, url: Url, now: int, keyId: Iri, sent: Outgoing)
    requires url.host.Some?
  {
    var headings := Headings(p, body, url, now);
    var signature := p.crypto.sign(pair.privateKeyPem, SignatureBase("POST", Target(url), headings));
    && signature.Some? && sent.target == Target(url) && sent.body == body
    && sent.headers
       == headings + [("signature", PrintedHeader(keyId, ["content-type", "date", "digest", "host"], signature.value))]
  }
}
