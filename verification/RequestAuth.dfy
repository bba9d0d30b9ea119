/**
 Preparing a signed delivery and verifying a received one: what a server prepares is accepted,
 and what is accepted was signed.
 */
module RequestAuth {
  import opened Wrappers
  import opened Text
  import opened Vocab
  import opened SignatureHeader
  import opened Cavage
  import opened Http

  const NANOS: int := 1_000_000_000
  const MAX_SIGNATURE_AGE: int := 65 * 60 * NANOS
  const MAX_CLOCK_SKEW: int := 60 * 60 * NANOS

  // What fetching a remote actor or key document yields, if it succeeds.
  datatype Resolver = Resolver(actor: Iri -> Option<Actor>, key: Iri -> Option<CryptographicKey>)

  /******* Verifying *******/

  // The parsed Signature header, if it is present, well formed and signs the request target first.
  function SignatureOf(request: Request): (r: Option<ParsedSignature>)
    ensures r.Some? ==> r.value.signedHeaders != []
  {
    match GetText(request.headers, "signature")
    case None => None
    case Some(header) =>
      match Parsed(header)
      case None => None
      case Some(signature) =>
        if Supported(signature) then Some(signature) else None
  }

  predicate Supported(signature: ParsedSignature) {
    && (signature.algorithm.Some? ==>
          signature.algorithm.value == "rsa-sha256" || signature.algorithm.value == "hs2019")
    && signature.signedHeaders != [] && signature.signedHeaders[0] == "(request-target)"
  }

  // The names may be covered: none is a pseudo-header or repeated, and each has one readable value.
  predicate Coverable(headers: Headers, names: seq<string>) {
    && (forall i | 0 <= i < |names| ::
          && (names[i] == "" || names[i][0] != '(')
          && |GetAll(headers, names[i])| == 1 && AllVisible(GetAll(headers, names[i])[0]))
    && (forall i, j | 0 <= i < j < |names| :: names[i] != names[j])
  }

  function CoveredFields(headers: Headers, names: seq<string>): seq<Field>
    requires Coverable(headers, names)
  {
    seq(|names|, i requires 0 <= i < |names| => (names[i], GetAll(headers, names[i])[0]))
  }

  const REQUIRED: set<string> := {"host", "date", "digest"}

  predicate CoversRequired(names: seq<string>) {
    "host" in names && "date" in names && "digest" in names
  }

  function EffectivePort(authority: Authority, default: Option<nat>): Option<Option<nat>> {
    if |authority.text| < |authority.host| then None
    else
      var suffix := authority.text[|authority.host|..];
      if suffix == "" then Some(default)
      else if suffix[0] == ':' then (if authority.port.Some? then Some(authority.port) else None)
      else None
  }

  function HostFailure(p: Platform, headers: Headers, inbox: Iri): Option<StatusCode> {
    var header := GetText(headers, "host");
    var signed := if header.Some? then p.authority(header.value) else None;
    var uri := p.uri(inbox);
    if signed.None? || !Free('@', signed.value.text) then Some(Unauthorized)
    else if uri.None? || uri.value.authority.None? || !Free('@', uri.value.authority.value.text) then
      Some(InternalServerError)
    else
      var expected := uri.value.authority.value;
      var default := DefaultPort(uri.value.scheme);
      var signedPort, expectedPort := EffectivePort(signed.value, default), EffectivePort(expected, default);
      if signedPort.None? then Some(Unauthorized)
      else if expectedPort.None? then Some(InternalServerError)
      else if EqualIgnoringCase(signed.value.host, expected.host) && signedPort == expectedPort then None
      else Some(Unauthorized)
  }

  predicate Fresh(p: Platform, headers: Headers, now: int) {
    var header := GetText(headers, "date");
    var date := if header.Some? then p.parseDate(header.value) else None;
    date.Some? && now - date.value <= MAX_SIGNATURE_AGE && date.value - now <= MAX_CLOCK_SKEW
  }

  // Some entry of the comma-separated digest list is the SHA-256 of the body.
  predicate DigestMatches(crypto: Crypto, digest: string, body: Bytes) {
    exists i | 0 <= i < |SplitOn(',', digest)| :: EntryMatches(crypto, Trim(SplitOn(',', digest)[i]), body)
  }

  predicate EntryMatches(crypto: Crypto, entry: string, body: Bytes) {
    match IndexOf('=', entry)
    case None => false
    case Some(i) =>
      var expected := CreateSha256DigestHeader(crypto, body);
      var j := IndexOf('=', expected);
      EqualIgnoringCase(entry[..i], "sha-256") && j.Some? && entry[i + 1..] == expected[j.value + 1..]
  }

  predicate DigestVerified(p: Platform, headers: Headers, body: Bytes) {
    var header := GetText(headers, "digest");
    header.Some? && DigestMatches(p.crypto, header.value, body)
  }

  predicate ActorOwnsKey(actor: Actor, key: CryptographicKey) {
    match actor.publicKey
    case Some(Id(advertised)) => advertised == key.id
    case Some(Object(advertised)) =>
      advertised.id == key.id && advertised.owner == actor.id && advertised.publicKeyPem == key.publicKeyPem
    case None => false
  }

  function Verified(p: Platform, resolver: Resolver, now: int, request: Request, actorId: Iri, inbox: Iri)
    : Result<Actor, StatusCode>
  {
    match SignatureOf(request)
    case None => Err(Unauthorized)
    case Some(signature) =>
      match RequestFailure(p, now, request, inbox, signature)
      case Some(status) => Err(status)
      case None => SignerOf(p, resolver, request, actorId, signature)
  }

  // The first failing check before anything is fetched: covered headers, host, date, digest, key id.
  function RequestFailure(p: Platform, now: int, request: Request, inbox: Iri, signature: ParsedSignature)
    : (r: Option<StatusCode>)
    requires signature.signedHeaders != []
    ensures r.None? ==> Coverable(request.headers, signature.signedHeaders[1..])
  {
    var names := signature.signedHeaders[1..];
    if !Coverable(request.headers, names) || !CoversRequired(names) then Some(Unauthorized)
    else if HostFailure(p, request.headers, inbox).Some? then HostFailure(p, request.headers, inbox)
    else if !Fresh(p, request.headers, now) || !DigestVerified(p, request.headers, request.body) then Some(Unauthorized)
    else if !p.isIri(signature.keyId) then Some(Unauthorized)
    else None
  }

  // The last part of verification: the key, the signature and the actor that must advertise the key.
  function SignerOf(p: Platform, resolver: Resolver, request: Request, actorId: Iri, signature: ParsedSignature)
    : Result<Actor, StatusCode>
    requires signature.signedHeaders != [] && Coverable(request.headers, signature.signedHeaders[1..])
  {
    var fields := CoveredFields(request.headers, signature.signedHeaders[1..]);
    match resolver.key(signature.keyId)
    case None => Err(BadGateway)
    case Some(key) =>
      if key.id != signature.keyId || key.owner != actorId then Err(Unauthorized)
      else if !VerifyDraftCavage(
                 p.crypto, key.publicKeyPem, request.verb, RequestTarget(request), fields, signature.signature)
      then Err(Unauthorized)
      else
        match resolver.actor(actorId)
        case None => Err(BadGateway)
        case Some(actor) => if actor.id != actorId || !ActorOwnsKey(actor, key) then Err(Unauthorized) else Ok(actor)
  }

  method CollectSignedHeaders(headers: Headers, names: seq<string>) returns (r: Option<seq<Field>>)
    ensures r.Some? <==> Coverable(headers, names) && CoversRequired(names)
    ensures r.Some? ==> r.value == CoveredFields(headers, names)
  {
    var seenHeaders: set<string> := {};
    var signedHeaders: seq<Field> := [];
    for i := 0 to |names|
      invariant Coverable(headers, names[..i])
      invariant signedHeaders == CoveredFields(headers, names[..i])
      invariant forall name :: name in seenHeaders <==> name in names[..i]
    {
      var name := names[i];
      var values := GetAll(headers, name);
      if name != "" && name[0] == '(' {
        return None;
      }
      if name in seenHeaders {
        ghost var j :| 0 <= j < i && names[j] == name;
        return None;
      }
      if |values| != 1 || !AllVisible(values[0]) {
        return None;
      }
      assert names[..i + 1] == names[..i] + [name];
      assert forall j | 0 <= j < i :: names[..i][j] == names[j];
      seenHeaders := seenHeaders + {name};
      signedHeaders := signedHeaders + [(name, values[0])];
    }
    assert names[..|names|] == names;
    if !("host" in seenHeaders && "date" in seenHeaders && "digest" in seenHeaders) {
      return None;
    }
    return Some(signedHeaders);
  }

  method VerifySignedRequest(p: Platform, resolver: Resolver, now: int, request: Request, actorId: Iri, inbox: Iri)
    returns (r: Result<Actor, StatusCode>)
    ensures r == Verified(p, resolver, now, request, actorId, inbox)
  {
    var header := GetText(request.headers, "signature");
    if header.None? {
      return Err(Unauthorized);
    }
    var parsed := ParseSignatureHeader(header.value);
    if parsed.None? {
      return Err(Unauthorized);
    }
    var signature := parsed.value;
    if !Supported(signature) {
      return Err(Unauthorized);
    }
    var signedHeaders := CollectSignedHeaders(request.headers, signature.signedHeaders[1..]);
    if signedHeaders.None? {
      return Err(Unauthorized);
    }
    var hostFailure := HostFailure(p, request.headers, inbox);
    if hostFailure.Some? {
      return Err(hostFailure.value);
    }
    if !Fresh(p, request.headers, now) || !DigestVerified(p, request.headers, request.body) {
      return Err(Unauthorized);
    }
    if !p.isIri(signature.keyId) {
      return Err(Unauthorized);
    }
    var key := resolver.key(signature.keyId);
    if key.None? {
      return Err(BadGateway);
    }
    if key.value.id != signature.keyId || key.value.owner != actorId {
      return Err(Unauthorized);
    }
    if !VerifyDraftCavage(
         p.crypto, key.value.publicKeyPem, request.verb, RequestTarget(request), signedHeaders.value,
         signature.signature) {
      return Err(Unauthorized);
    }
    var actor := resolver.actor(actorId);
    if actor.None? {
      return Err(BadGateway);
    }
    if actor.value.id != actorId || !ActorOwnsKey(actor.value, key.value) {
      return Err(Unauthorized);
    }
    return Ok(actor.value);
  }

  /******* Preparing *******/

  datatype SendError = ActorKeyMismatch | MissingActorKey | InvalidInbox | PrivateInboxAddress | SigningFailed

  // The parts of the POST request that are handed to the HTTP client.
  datatype Outgoing = Outgoing(target: string, headers: Headers, body: Bytes)

  function SigningKeyId(actor: Actor, pair: ActorKeyPair): Result<Iri, SendError> {
    match actor.publicKey
    case Some(Id(keyId)) => Ok(keyId)
    case Some(Object(key)) =>
      if key.owner != actor.id || key.publicKeyPem != pair.publicKeyPem then Err(ActorKeyMismatch) else Ok(key.id)
    case None => Err(MissingActorKey)
  }

  predicate Deliverable(url: Option<Url>) {
    && url.Some? && url.value.scheme in {"http", "https"} && url.value.username == ""
    && url.value.password.None? && url.value.host.Some?
  }

  function HostText(host: string, port: Option<nat>): string {
    if port.Some? then host + (":" + Decimal(port.value)) else host
  }

  function TargetText(path: string, query: Option<string>): string {
    if query.Some? then path + ("?" + query.value) else path
  }

  function SentFields(date: string, digest: string, host: string): seq<Field> {
    [("content-type", "application/activity+json"), ("date", date), ("digest", digest), ("host", host)]
  }

  // The text a delivery's signature is made over.
  function PreparedBase(p: Platform, body: Bytes, url: Url, now: int): string
    requires url.host.Some?
  {
    SignatureBase("POST", TargetText(url.path, url.query),
                  SentFields(p.printDate(now), CreateSha256DigestHeader(p.crypto, body),
                             HostText(url.host.value, url.port)))
  }

  function Prepared(
    p: Platform, actor: Actor, pair: ActorKeyPair, body: Bytes, url: Option<Url>, privateHost: bool, now: int)
    : Result<Outgoing, SendError>
  {
    match SigningKeyId(actor, pair)
    case Err(e) => Err(e)
    case Ok(keyId) =>
      if !Deliverable(url) then Err(InvalidInbox)
      else if privateHost then Err(PrivateInboxAddress)
      else
        var target := TargetText(url.value.path, url.value.query);
        var fields := SentFields(p.printDate(now), CreateSha256DigestHeader(p.crypto, body),
                                 HostText(url.value.host.value, url.value.port));
        match SignDraftCavage(p.crypto, pair, keyId, "POST", target, fields)
        case None => Err(SigningFailed)
        case Some(signature) => Ok(Outgoing(target, fields + [("signature", signature)], body))
  }

  // `privateHost` says whether the address policy forbids a literal host.
  method PrepareDelivery(
    p: Platform, actor: Actor, pair: ActorKeyPair, body: Bytes, url: Option<Url>, privateHost: bool, now: int)
    returns (r: Result<Outgoing, SendError>)
    ensures r == Prepared(p, actor, pair, body, url, privateHost, now)
  {
    var keyId: Iri;
    match actor.publicKey {
      case None =>
        return Err(MissingActorKey);
      case Some(Id(id)) =>
        keyId := id;
      case Some(Object(key)) =>
        if key.owner != actor.id || key.publicKeyPem != pair.publicKeyPem {
          return Err(ActorKeyMismatch);
        }
        keyId := key.id;
    }
    if url.None? || url.value.scheme !in {"http", "https"} || url.value.username != "" || url.value.password.Some?
       || url.value.host.None? {
      return Err(InvalidInbox);
    }
    if privateHost {
      return Err(PrivateInboxAddress);
    }
    var host := url.value.host.value;
    if url.value.port.Some? {
      host := host + (":" + Decimal(url.value.port.value));
    }
    var date, digest := p.printDate(now), CreateSha256DigestHeader(p.crypto, body);
    var fields := SentFields(date, digest, host);
    var target := url.value.path;
    if url.value.query.Some? {
      target := target + "?";
      target := target + url.value.query.value;
      assert target == TargetText(url.value.path, url.value.query);
    }
    var signature := SignDraftCavage(p.crypto, pair, keyId, "POST", target, fields);
    if signature.None? {
      return Err(SigningFailed);
    }
    return Ok(Outgoing(target, fields + [("signature", signature.value)], body));
  }

  /******* What is prepared is accepted *******/

  // Each sent header arrives exactly once with its value; other headers may have been added.
  ghost predicate Delivered(sent: Outgoing, request: Request) {
    && request.verb == "POST" && RequestTarget(request) == sent.target && request.body == sent.body
    && forall i | 0 <= i < |sent.headers| :: GetAll(request.headers, sent.headers[i].0) == [sent.headers[i].1]
  }

  // The library facts used: base64 text, IRIs and dates need no quoting.
  ghost predicate WellBehaved(p: Platform) {
    && PrintsBase64(p.crypto)
    && (forall s :: p.isIri(s) ==> s != "" && Clean(s))
    && (forall t :: AllVisible(p.printDate(t)))
  }

  ghost predicate ParsesAsHost(p: Platform, host: string, port: Option<nat>) {
    var text := HostText(host, port);
    AllVisible(text) && Free('@', text) && p.authority(text) == Some(Authority(text, host, port))
  }

  function PortOr(port: Option<nat>, default: Option<nat>): Option<nat> {
    if port.Some? then port else default
  }

  // An authority made of a host and perhaps a port, without user information.
  predicate IsHostAndPort(a: Authority) {
    Free('@', a.text) && if a.port.Some? then a.host + ":" <= a.text else a.text == a.host
  }

  // The inbox is served where the URL points, up to letter case and an omitted default port.
  ghost predicate SameEndpoint(p: Platform, url: Url, inbox: Iri) {
    var uri := p.uri(inbox);
    && uri.Some? && uri.value.authority.Some? && IsHostAndPort(uri.value.authority.value)
    && url.host.Some? && EqualIgnoringCase(url.host.value, uri.value.authority.value.host)
    && PortOr(url.port, DefaultPort(uri.value.scheme))
       == PortOr(uri.value.authority.value.port, DefaultPort(uri.value.scheme))
  }

  ghost predicate InClockWindow(p: Platform, sentAt: int, now: int) {
    var date := p.parseDate(p.printDate(sentAt));
    date.Some? && now - date.value <= MAX_SIGNATURE_AGE && date.value - now <= MAX_CLOCK_SKEW
  }

  // Resolving yields the sender's published key document and an actor advertising the same key.
  ghost predicate Publishes(resolver: Resolver, actor: Actor, pair: ActorKeyPair, published: Actor) {
    && SigningKeyId(actor, pair).Ok?
    && resolver.key(SigningKeyId(actor, pair).value)
       == Some(CryptographicKey(SigningKeyId(actor, pair).value, actor.id, pair.publicKeyPem))
    && resolver.actor(actor.id) == Some(published)
    && published.id == actor.id && published.publicKey == actor.publicKey
  }

  lemma SentNames(date: string, digest: string, host: string)
    ensures var names := Names(SentFields(date, digest, host));
            && names == ["content-type", "date", "digest", "host"] && LowerAll(names) == names
            && (forall i | 0 <= i < |names| :: IsLowercase(names[i]) && IsToken(names[i]) && names[i][0] != '(')
            && (forall i, j | 0 <= i < j < |names| :: names[i] != names[j])
  {
    var names := Names(SentFields(date, digest, host));
    assert names[0] == "content-type" && names[1] == "date" && names[2] == "digest" && names[3] == "host";
    assert |names[0]| == 12 && |names[1]| == 4 && |names[2]| == 6 && |names[3]| == 4;
    assert names[1][0] != names[3][0];
    forall i | 0 <= i < |names|
      ensures IsLowercase(names[i]) && IsToken(names[i]) && Lower(names[i]) == names[i] && names[i][0] != '('
    {
      LowercaseIsToken(names[i]);
    }
  }

  predicate IsLowercase(s: string) {
    s != "" && forall i | 0 <= i < |s| :: 'a' <= s[i] <= 'z' || s[i] == '-'
  }

  lemma LowercaseIsToken(s: string)
    requires IsLowercase(s)
    ensures IsToken(s) && Lower(s) == s && s[0] != '(' && Free(':', s) && Free('\n', s)
  {
  }

  lemma Base64IsPlain(s: string)
    requires IsBase64(s)
    ensures Clean(s) && AllVisible(s) && Free(',', s) && !IsWhite(s[|s| - 1])
  {
    assert forall i | 0 <= i < |s| ::
        s[i] != '\"' && s[i] != '\\' && !IsControl(s[i]) && IsVisibleAscii(s[i]) && s[i] != ',' && !IsWhite(s[i]);
  }

  // How a printed digest header is taken apart again.
  lemma DigestParts(crypto: Crypto, body: Bytes)
    requires IsBase64(crypto.sha256(body))
    ensures var digest := CreateSha256DigestHeader(crypto, body);
            && IndexOf('=', digest) == Some(7) && digest[8..] == crypto.sha256(body)
            && EqualIgnoringCase(digest[..7], "sha-256")
            && Trim(digest) == digest && Free(',', digest) && AllVisible(digest)
  {
    DigestIsTight(crypto.sha256(body));
    DigestIsSplit(crypto.sha256(body));
  }

  lemma DigestIsSplit(hash: string)
    ensures var digest := "SHA-256=" + hash;
            IndexOf('=', digest) == Some(7) && digest[8..] == hash && EqualIgnoringCase(digest[..7], "sha-256")
  {
    var digest := "SHA-256=" + hash;
    assert digest == "SHA-256" + (['='] + hash);
    IndexOfSkips('=', "SHA-256", ['='] + hash);
    assert digest[..7] == "SHA-256";
    assert Lower("SHA-256") == Lower("sha-256");
  }

  lemma DigestIsTight(hash: string)
    requires IsBase64(hash)
    ensures var digest := "SHA-256=" + hash; Trim(digest) == digest && Free(',', digest) && AllVisible(digest)
  {
    var digest := "SHA-256=" + hash;
    Base64IsPlain(hash);
    assert digest[0] == 'S' && digest[|digest| - 1] == hash[|hash| - 1];
    TrimOfTight(digest);
  }

  lemma OwnDigestMatches(crypto: Crypto, body: Bytes)
    requires IsBase64(crypto.sha256(body))
    ensures DigestMatches(crypto, CreateSha256DigestHeader(crypto, body), body)
    ensures AllVisible(CreateSha256DigestHeader(crypto, body))
  {
    var digest := CreateSha256DigestHeader(crypto, body);
    DigestParts(crypto, body);
    SplitJoin([digest], ',');
    assert SplitOn(',', digest)[0] == digest;
  }

  lemma HostAndPortIsEffective(a: Authority, default: Option<nat>)
    requires IsHostAndPort(a)
    ensures EffectivePort(a, default) == Some(PortOr(a.port, default))
  {
    if a.port.Some? {
      assert a.text[|a.host|..][0] == a.text[|a.host|] == ':';
    }
  }

  lemma HostTextIsHostAndPort(host: string, port: Option<nat>)
    requires Free('@', HostText(host, port))
    ensures IsHostAndPort(Authority(HostText(host, port), host, port))
  {
    if port.Some? {
      var suffix := ":" + Decimal(port.value);
      assert suffix[..1] == ":";
      assert (host + suffix)[..|host| + 1] == host + ":";
    }
  }

  lemma HostIsAccepted(p: Platform, headers: Headers, url: Url, inbox: Iri)
    requires SameEndpoint(p, url, inbox) && ParsesAsHost(p, url.host.value, url.port)
    requires GetAll(headers, "host") == [HostText(url.host.value, url.port)]
    ensures HostFailure(p, headers, inbox).None?
  {
    var expected := p.uri(inbox).value.authority.value;
    var signed := Authority(HostText(url.host.value, url.port), url.host.value, url.port);
    var default := DefaultPort(p.uri(inbox).value.scheme);
    HostTextIsHostAndPort(url.host.value, url.port);
    HostAndPortIsEffective(signed, default);
    HostAndPortIsEffective(expected, default);
  }

  lemma {:induction false} PrintedParametersAreVisible(ps: seq<Parameter>)
    requires ps != [] && forall i | 0 <= i < |ps| :: AllVisible(ps[i].0)
    ensures AllVisible(PrintedParameters(ps)) <==> forall i | 0 <= i < |ps| :: AllVisible(ps[i].1)
  {
    var after := if |ps| == 1 then "" else "," + PrintedParameters(ps[1..]);
    PrintedParameterIsVisible(ps[0].0, ps[0].1, after);
    if |ps| > 1 {
      PrintedParametersAreVisible(ps[1..]);
      VisibleConcat(",", PrintedParameters(ps[1..]));
      assert forall i | 1 <= i < |ps| :: ps[i] == ps[1..][i - 1];
    }
  }

  lemma VisibleConcat(a: string, b: string)
    ensures AllVisible(a + b) <==> AllVisible(a) && AllVisible(b)
  {
    assert forall i | 0 <= i < |a| :: (a + b)[i] == a[i];
    assert forall i | 0 <= i < |b| :: (a + b)[|a| + i] == b[i];
  }

  lemma PrintedParameterIsVisible(name: string, value: string, after: string)
    requires AllVisible(name)
    ensures AllVisible(PrintedParameter(name, value, after)) <==> AllVisible(value) && AllVisible(after)
  {
    VisibleConcat(name, "=\"" + (value + ("\"" + after)));
    VisibleConcat("=\"", value + ("\"" + after));
    VisibleConcat(value, "\"" + after);
    VisibleConcat("\"", after);
  }

  // The printed header travels as visible ASCII exactly when the key id does.
  lemma PrintedHeaderIsVisible(keyId: string, date: string, digest: string, host: string, signature: string)
    requires AllVisible(signature)
    ensures AllVisible(PrintedHeader(keyId, Names(SentFields(date, digest, host)), signature)) <==> AllVisible(keyId)
  {
    var names := Names(SentFields(date, digest, host));
    SentNames(date, digest, host);
    HeadersTextIsVisible(names);
    PrintedHeaderShowsKeyId(keyId, SignedHeadersText(names), signature);
  }

  lemma HeadersTextIsVisible(names: seq<string>)
    requires LowerAll(names) == names && forall i | 0 <= i < |names| :: IsToken(names[i]) && AllVisible(names[i])
    ensures AllVisible(SignedHeadersText(names))
  {
    JoinIsVisible(names);
    VisibleConcat("(request-target)", " " + Join(names, ' '));
    VisibleConcat(" ", Join(names, ' '));
  }

  lemma PrintedHeaderShowsKeyId(keyId: string, text: string, signature: string)
    requires AllVisible(text) && AllVisible(signature)
    ensures var ps := [("keyId", keyId), ("algorithm", "rsa-sha256"), ("headers", text), ("signature", signature)];
            AllVisible(PrintedParameters(ps)) <==> AllVisible(keyId)
  {
    var ps := [("keyId", keyId), ("algorithm", "rsa-sha256"), ("headers", text), ("signature", signature)];
    PrintedParametersAreVisible(ps);
    assert ps[0].1 == keyId && ps[1].1 == "rsa-sha256" && ps[2].1 == text && ps[3].1 == signature;
  }

  lemma {:induction false} JoinIsVisible(names: seq<string>)
    requires forall i | 0 <= i < |names| :: AllVisible(names[i])
    ensures AllVisible(Join(names, ' '))
  {
    if |names| > 1 {
      JoinIsVisible(names[1..]);
      VisibleConcat([' '], Join(names[1..], ' '));
      VisibleConcat(names[0], [' '] + Join(names[1..], ' '));
    }
  }

  // The headers of a delivered request that its printed signature covers are the ones that were sent.
  lemma SentFieldsAreCovered(sent: Outgoing, request: Request, date: string, digest: string, host: string)
    requires Delivered(sent, request) && SentFields(date, digest, host) <= sent.headers
    requires AllVisible(date) && AllVisible(digest) && AllVisible(host)
    ensures var names := Names(SentFields(date, digest, host));
            && Coverable(request.headers, names) && CoversRequired(names)
            && CoveredFields(request.headers, names) == SentFields(date, digest, host)
  {
    var fields := SentFields(date, digest, host);
    var names := Names(fields);
    SentNames(date, digest, host);
    forall i | 0 <= i < |names|
      ensures GetAll(request.headers, names[i]) == [fields[i].1] && AllVisible(fields[i].1)
    {
      assert sent.headers[i] == fields[i];
    }
    assert names[1] == "date" && names[2] == "digest" && names[3] == "host";
  }

  lemma SentFieldsArrive(sent: Outgoing, request: Request, date: string, digest: string, host: string)
    requires Delivered(sent, request) && SentFields(date, digest, host) <= sent.headers
    ensures GetAll(request.headers, "date") == [date] && GetAll(request.headers, "digest") == [digest]
    ensures GetAll(request.headers, "host") == [host]
  {
    assert sent.headers[1] == ("date", date) && sent.headers[2] == ("digest", digest);
    assert sent.headers[3] == ("host", host);
  }

  lemma PreparedSignatureIsRead(
    p: Platform, actor: Actor, pair: ActorKeyPair, body: Bytes, url: Option<Url>, sentAt: int, request: Request)
    requires WellBehaved(p) && Prepared(p, actor, pair, body, url, false, sentAt).Ok?
    requires Delivered(Prepared(p, actor, pair, body, url, false, sentAt).value, request)
    requires SigningKeyId(actor, pair).Ok? && p.isIri(SigningKeyId(actor, pair).value)
    ensures var fields := SentFields(p.printDate(sentAt), CreateSha256DigestHeader(p.crypto, body),
                                     HostText(url.value.host.value, url.value.port));
            var base := SignatureBase("POST", RequestTarget(request), fields);
            var keyId := SigningKeyId(actor, pair).value;
            SignatureOf(request)
            == if AllVisible(keyId)
               then Some(ParsedSignature(keyId, Some("rsa-sha256"), ["(request-target)"] + Names(fields),
                                         p.crypto.sign(pair.privateKeyPem, base).value))
               else None
  {
    var sent := Prepared(p, actor, pair, body, url, false, sentAt).value;
    var keyId := SigningKeyId(actor, pair).value;
    var date, digest := p.printDate(sentAt), CreateSha256DigestHeader(p.crypto, body);
    var host := HostText(url.value.host.value, url.value.port);
    var fields := SentFields(date, digest, host);
    var signature := p.crypto.sign(pair.privateKeyPem, SignatureBase("POST", sent.target, fields)).value;
    assert sent.headers[4] == ("signature", PrintedHeader(keyId, Names(fields), signature));
    assert GetAll(request.headers, "signature") == [PrintedHeader(keyId, Names(fields), signature)];
    Base64IsPlain(signature);
    SentNames(date, digest, host);
    PrintedHeaderIsVisible(keyId, date, digest, host, signature);
    PrintedHeaderIsParsed(keyId, Names(fields), signature);
  }

  /**
   A prepared delivery that arrives unchanged, in time and at the endpoint it was prepared for is
   accepted as coming from the sender, exactly when the key id is visible ASCII. An IRI may be
   written with other characters; then the Signature header is unreadable and the answer is 401.
   */
  lemma PreparedDeliveryIsAccepted(
    p: Platform, resolver: Resolver, actor: Actor, pair: ActorKeyPair, published: Actor, body: Bytes, url: Url,
    sentAt: int, now: int, request: Request, inbox: Iri)
    requires WellBehaved(p) && Publishes(resolver, actor, pair, published) && p.isIri(SigningKeyId(actor, pair).value)
    requires Prepared(p, actor, pair, body, Some(url), false, sentAt).Ok?
    requires Matching(p.crypto, pair, PreparedBase(p, body, url, sentAt))
    requires Delivered(Prepared(p, actor, pair, body, Some(url), false, sentAt).value, request)
    requires ParsesAsHost(p, url.host.value, url.port) && SameEndpoint(p, url, inbox) && InClockWindow(p, sentAt, now)
    ensures Verified(p, resolver, now, request, actor.id, inbox)
            == if AllVisible(SigningKeyId(actor, pair).value) then Ok(published) else Err(Unauthorized)
  {
    PreparedSignatureIsRead(p, actor, pair, body, Some(url), sentAt, request);
    if AllVisible(SigningKeyId(actor, pair).value) {
      var signature := SignatureOf(request).value;
      var fields := SentFields(
        p.printDate(sentAt), CreateSha256DigestHeader(p.crypto, body), HostText(url.host.value, url.port));
      assert signature.signedHeaders[1..] == Names(fields);
      PreparedRequestPassesChecks(p, actor, pair, body, url, sentAt, now, request, inbox, signature);
      PreparedSignerIsFound(p, resolver, actor, pair, published, request, fields, signature);
    }
  }

  /** One such key id: a delivery prepared under it is refused, although it is signed correctly and arrives in time. */
  lemma AccentedKeyIdIsRefused(
    p: Platform, resolver: Resolver, actor: Actor, pair: ActorKeyPair, published: Actor, body: Bytes, url: Url,
    sentAt: int, now: int, request: Request, inbox: Iri)
    requires WellBehaved(p) && Publishes(resolver, actor, pair, published)
    requires SigningKeyId(actor, pair) == Ok("https://example.com/\U{E9}") && p.isIri("https://example.com/\U{E9}")
    requires Prepared(p, actor, pair, body, Some(url), false, sentAt).Ok?
    requires Matching(p.crypto, pair, PreparedBase(p, body, url, sentAt))
    requires Delivered(Prepared(p, actor, pair, body, Some(url), false, sentAt).value, request)
    requires ParsesAsHost(p, url.host.value, url.port) && SameEndpoint(p, url, inbox) && InClockWindow(p, sentAt, now)
    ensures Verified(p, resolver, now, request, actor.id, inbox) == Err(Unauthorized)
  {
    var keyId := "https://example.com/\U{E9}";
    assert !AllVisible(keyId) by {
      assert |keyId| == 21 && keyId[20] == '\U{E9}' && !IsVisibleAscii(keyId[20]);
    }
    PreparedDeliveryIsAccepted(p, resolver, actor, pair, published, body, url, sentAt, now, request, inbox);
  }

  lemma PreparedRequestPassesChecks(
    p: Platform, actor: Actor, pair: ActorKeyPair, body: Bytes, url: Url,
    sentAt: int, now: int, request: Request, inbox: Iri, signature: ParsedSignature)
    requires WellBehaved(p) && p.isIri(signature.keyId) && signature.signedHeaders != []
    requires Prepared(p, actor, pair, body, Some(url), false, sentAt).Ok?
    requires Delivered(Prepared(p, actor, pair, body, Some(url), false, sentAt).value, request)
    requires ParsesAsHost(p, url.host.value, url.port) && SameEndpoint(p, url, inbox) && InClockWindow(p, sentAt, now)
    requires signature.signedHeaders[1..] == Names(SentFields(
               p.printDate(sentAt), CreateSha256DigestHeader(p.crypto, body), HostText(url.host.value, url.port)))
    ensures RequestFailure(p, now, request, inbox, signature).None?
    ensures CoveredFields(request.headers, signature.signedHeaders[1..]) == SentFields(
              p.printDate(sentAt), CreateSha256DigestHeader(p.crypto, body), HostText(url.host.value, url.port))
  {
    var sent := Prepared(p, actor, pair, body, Some(url), false, sentAt).value;
    var date, digest := p.printDate(sentAt), CreateSha256DigestHeader(p.crypto, body);
    var host := HostText(url.host.value, url.port);
    OwnDigestMatches(p.crypto, body);
    SentFieldsAreCovered(sent, request, date, digest, host);
    SentFieldsArrive(sent, request, date, digest, host);
    HostIsAccepted(p, request.headers, url, inbox);
    ArrivedDateIsFresh(p, request.headers, sentAt, now);
    ArrivedDigestIsVerified(p, request.headers, body, digest);
  }

  lemma ArrivedDateIsFresh(p: Platform, headers: Headers, sentAt: int, now: int)
    requires InClockWindow(p, sentAt, now)
    requires AllVisible(p.printDate(sentAt)) && GetAll(headers, "date") == [p.printDate(sentAt)]
    ensures Fresh(p, headers, now)
  {
  }

  lemma ArrivedDigestIsVerified(p: Platform, headers: Headers, body: Bytes, digest: string)
    requires AllVisible(digest) && GetAll(headers, "digest") == [digest] && DigestMatches(p.crypto, digest, body)
    ensures DigestVerified(p, headers, body)
  {
  }

  lemma PreparedSignerIsFound(
    p: Platform, resolver: Resolver, actor: Actor, pair: ActorKeyPair, published: Actor, request: Request,
    fields: seq<Field>, signature: ParsedSignature)
    requires Matching(p.crypto, pair, SignatureBase("POST", RequestTarget(request), fields))
    requires Publishes(resolver, actor, pair, published)
    requires signature.signedHeaders != [] && Coverable(request.headers, signature.signedHeaders[1..])
    requires CoveredFields(request.headers, signature.signedHeaders[1..]) == fields
    requires request.verb == "POST" && signature.keyId == SigningKeyId(actor, pair).value
    requires signature.signature
             == p.crypto.sign(pair.privateKeyPem, SignatureBase("POST", RequestTarget(request), fields)).value
    ensures SignerOf(p, resolver, request, actor.id, signature) == Ok(published)
  {
  }

  /******* What is accepted was signed *******/

  /** One use of a private key: its public key, the signed request and the body its digest was made from. */
  datatype Signing = Signing(publicKeyPem: string, verb: string, target: string, fields: seq<Field>, body: Bytes)

  ghost predicate Signed(log: set<Signing>, publicKeyPem: string, base: string) {
    exists s :: s in log && s.publicKeyPem == publicKeyPem && SignatureBase(s.verb, s.target, s.fields) == base
  }

  // The signature on this request is no forgery: if it verifies, the log holds the signing it came from.
  ghost predicate Genuine(p: Platform, resolver: Resolver, request: Request, log: set<Signing>) {
    match SignatureOf(request)
    case None => true
    case Some(signature) =>
      var names, key := signature.signedHeaders[1..], resolver.key(signature.keyId);
      key.Some? && Coverable(request.headers, names) ==>
        var base := SignatureBase(request.verb, RequestTarget(request), CoveredFields(request.headers, names));
        p.crypto.verify(key.value.publicKeyPem, base, signature.signature) ==> Signed(log, key.value.publicKeyPem, base)
  }

  ghost predicate OneLineLog(log: set<Signing>) {
    forall s :: s in log ==> OneLine(s.verb, s.target, s.fields)
  }

  // What an HTTP parser guarantees of a request it hands over.
  ghost predicate WellFormedRequest(request: Request) {
    && Free(' ', request.verb) && Free('\n', request.verb) && Free('\n', RequestTarget(request))
    && forall i | 0 <= i < |request.headers| :: Free(':', request.headers[i].0) && Free('\n', request.headers[i].0)
  }

  lemma {:induction false} GetAllFinds(headers: Headers, name: string)
    requires GetAll(headers, name) != []
    ensures exists i :: 0 <= i < |headers| && headers[i].0 == name
  {
    if headers[0].0 != name {
      GetAllFinds(headers[1..], name);
      var i :| 0 <= i < |headers[1..]| && headers[1..][i].0 == name;
      assert headers[i + 1].0 == name;
    }
  }

  lemma CoveredFieldsAreOneLine(request: Request, names: seq<string>)
    requires WellFormedRequest(request) && Coverable(request.headers, names)
    ensures OneLine(request.verb, RequestTarget(request), CoveredFields(request.headers, names))
  {
    forall i | 0 <= i < |names|
      ensures Free(':', names[i]) && Free('\n', names[i]) && Free('\n', GetAll(request.headers, names[i])[0])
    {
      GetAllFinds(request.headers, names[i]);
    }
  }

  // Exactly one covered field has this name, and it carries the request's only value for it.
  ghost predicate CoveredOnce(request: Request, fields: seq<Field>, name: string) {
    exists i :: 0 <= i < |fields| && fields[i].0 == name
             && GetAll(request.headers, name) == [fields[i].1]
             && forall j | 0 <= j < |fields| && fields[j].0 == name :: j == i
  }

  /**
   An accepted request was signed with the key its actor advertises: same method and target, and the
   headers the Signature header lists with the values the request carries. Host, date and digest are each
   covered exactly once, and name this inbox's host, a time in the clock window and the digest of the body.
   */
  lemma AcceptedWasSigned(
    p: Platform, resolver: Resolver, now: int, request: Request, actorId: Iri, inbox: Iri, log: set<Signing>)
    returns (s: Signing, key: CryptographicKey, fields: seq<Field>)
    requires Verified(p, resolver, now, request, actorId, inbox).Ok?
    requires Genuine(p, resolver, request, log) && OneLineLog(log) && WellFormedRequest(request)
    ensures s in log && s.publicKeyPem == key.publicKeyPem
    ensures SignatureOf(request).Some? && Coverable(request.headers, SignatureOf(request).value.signedHeaders[1..])
    ensures fields == CoveredFields(request.headers, SignatureOf(request).value.signedHeaders[1..])
    ensures key.id == SignatureOf(request).value.keyId && key.owner == actorId && resolver.key(key.id) == Some(key)
    ensures var actor := Verified(p, resolver, now, request, actorId, inbox).value;
            && actor.id == actorId
            && match actor.publicKey
               case None => false
               case Some(Id(id)) => id == key.id
               case Some(Object(advertised)) =>
                 advertised.id == key.id && advertised.owner == actorId && advertised.publicKeyPem == key.publicKeyPem
    ensures Lower(s.verb) == Lower(request.verb) && s.target == RequestTarget(request)
    ensures Normalised(s.fields) == Normalised(fields)
    ensures forall name | name in REQUIRED :: CoveredOnce(request, fields, name)
    ensures HostFailure(p, request.headers, inbox).None? && Fresh(p, request.headers, now)
    ensures DigestVerified(p, request.headers, request.body)
  {
    var signature;
    signature, key := VerifiedMeans(p, resolver, now, request, actorId, inbox);
    var names := signature.signedHeaders[1..];
    fields := CoveredFields(request.headers, names);
    s :| s in log && s.publicKeyPem == key.publicKeyPem
         && SignatureBase(s.verb, s.target, s.fields) == SignatureBase(request.verb, RequestTarget(request), fields);
    CoveredFieldsAreOneLine(request, names);
    SignatureBaseInjective(s.verb, s.target, s.fields, request.verb, RequestTarget(request), fields);
    forall name | name in REQUIRED ensures CoveredOnce(request, fields, name) {
      CoverableMeansOnce(request, names, name);
    }
  }

  lemma VerifiedMeans(p: Platform, resolver: Resolver, now: int, request: Request, actorId: Iri, inbox: Iri)
    returns (signature: ParsedSignature, key: CryptographicKey)
    requires Verified(p, resolver, now, request, actorId, inbox).Ok?
    ensures SignatureOf(request) == Some(signature)
    ensures var names := signature.signedHeaders[1..];
            && Coverable(request.headers, names) && CoversRequired(names)
            && VerifyDraftCavage(p.crypto, key.publicKeyPem, request.verb, RequestTarget(request),
                                 CoveredFields(request.headers, names), signature.signature)
    ensures key.owner == actorId && key.id == signature.keyId && resolver.key(key.id) == Some(key)
    ensures var actor := Verified(p, resolver, now, request, actorId, inbox).value;
            actor.id == actorId && ActorOwnsKey(actor, key)
    ensures HostFailure(p, request.headers, inbox).None? && Fresh(p, request.headers, now)
    ensures DigestVerified(p, request.headers, request.body)
  {
    signature := SignatureOf(request).value;
    key := resolver.key(signature.keyId).value;
  }

  lemma CoverableMeansOnce(request: Request, names: seq<string>, name: string)
    requires Coverable(request.headers, names) && name in names
    ensures CoveredOnce(request, CoveredFields(request.headers, names), name)
  {
    var i :| 0 <= i < |names| && names[i] == name;
    assert CoveredFields(request.headers, names)[i].0 == name;
  }

  // A server that signs only through `PrepareDelivery` digests the body it sends.
  ghost predicate SignedByPreparing(crypto: Crypto, s: Signing) {
    exists date, host :: s.fields == SentFields(date, CreateSha256DigestHeader(crypto, s.body), host)
  }

  // The received body has the digest of no other body that was signed.
  ghost predicate CollisionFree(crypto: Crypto, log: set<Signing>, received: Bytes) {
    forall s :: s in log && crypto.sha256(s.body) == crypto.sha256(received) ==> s.body == received
  }

  /** If the signer prepares its deliveries with this code, the accepted body is a body it sent. */
  lemma AcceptedBodyWasSent(
    p: Platform, resolver: Resolver, now: int, request: Request, actorId: Iri, inbox: Iri, log: set<Signing>)
    returns (s: Signing)
    requires Verified(p, resolver, now, request, actorId, inbox).Ok?
    requires Genuine(p, resolver, request, log) && OneLineLog(log) && WellFormedRequest(request)
    requires PrintsBase64(p.crypto) && CollisionFree(p.crypto, log, request.body)
    requires forall s :: s in log && (exists id :: resolver.key(id).Some? && resolver.key(id).value.owner == actorId
                                             && resolver.key(id).value.publicKeyPem == s.publicKeyPem)
               ==> SignedByPreparing(p.crypto, s)
    ensures s in log && s.body == request.body && Lower(s.verb) == Lower(request.verb)
            && s.target == RequestTarget(request)
  {
    var key, fields;
    s, key, fields := AcceptedWasSigned(p, resolver, now, request, actorId, inbox, log);
    var date, host :| s.fields == SentFields(date, CreateSha256DigestHeader(p.crypto, s.body), host);
    assert CoveredOnce(request, fields, "digest");
    var i :| 0 <= i < |fields| && fields[i].0 == "digest" && GetAll(request.headers, "digest") == [fields[i].1];
    DigestIsThirdField(date, CreateSha256DigestHeader(p.crypto, s.body), host, fields, i);
    OneDigestMeansOneHash(p.crypto, fields[i].1, s.body, request.body);
  }

  lemma DigestIsThirdField(date: string, digest: string, host: string, fields: seq<Field>, i: nat)
    requires Normalised(SentFields(date, digest, host)) == Normalised(fields)
    requires i < |fields| && fields[i].0 == "digest"
    ensures Trim(fields[i].1) == Trim(digest)
  {
    var sent := SentFields(date, digest, host);
    SentNames(date, digest, host);
    assert |sent| == |Normalised(sent)| == |Normalised(fields)| == |fields|;
    assert Normalised(sent)[i] == Normalised(fields)[i];
    var names := Names(sent);
    assert LowerAll(names)[i] == Lower(names[i]) == Lower(sent[i].0) == Lower("digest");
    assert LowerAll(names)[2] == Lower(names[2]) == Lower("digest");
    assert i == 2;
  }

  // A value that trims to the digest of one body has that digest as its only entry.
  lemma OneDigestMeansOneHash(crypto: Crypto, value: string, sent: Bytes, received: Bytes)
    requires IsBase64(crypto.sha256(sent)) && IsBase64(crypto.sha256(received))
    requires Trim(value) == Trim(CreateSha256DigestHeader(crypto, sent)) && DigestMatches(crypto, value, received)
    ensures crypto.sha256(sent) == crypto.sha256(received)
  {
    var digest := CreateSha256DigestHeader(crypto, sent);
    DigestParts(crypto, sent);
    DigestParts(crypto, received);
    var lead := TrimStartCuts(value);
    var trail := TrimEndCuts(TrimStart(value));
    assert Free(',', lead) && Free(',', trail);
    assert value == lead + (digest + trail);
    assert Free(',', value);
    SplitJoin([value], ',');
    assert SplitOn(',', value) == [value];
    assert EntryMatches(crypto, digest, received);
  }

  /**
   A delivery that the accepting half applies to meets the assumption of the authenticity half, as soon as
   the signing it was prepared with is on record.
   */
  lemma PreparedDeliveryIsGenuine(
    p: Platform, resolver: Resolver, actor: Actor, pair: ActorKeyPair, published: Actor, body: Bytes, url: Url,
    sentAt: int, request: Request, log: set<Signing>)
    requires WellBehaved(p) && Publishes(resolver, actor, pair, published)
    requires p.isIri(SigningKeyId(actor, pair).value)
    requires Prepared(p, actor, pair, body, Some(url), false, sentAt).Ok?
    requires Delivered(Prepared(p, actor, pair, body, Some(url), false, sentAt).value, request)
    requires AllVisible(HostText(url.host.value, url.port))
    requires Signing(pair.publicKeyPem, "POST", TargetText(url.path, url.query),
                     SentFields(p.printDate(sentAt), CreateSha256DigestHeader(p.crypto, body),
                                HostText(url.host.value, url.port)), body) in log
    ensures Genuine(p, resolver, request, log)
  {
    PreparedSignatureIsRead(p, actor, pair, body, Some(url), sentAt, request);
    if AllVisible(SigningKeyId(actor, pair).value) {
      var sent := Prepared(p, actor, pair, body, Some(url), false, sentAt).value;
      var date, digest := p.printDate(sentAt), CreateSha256DigestHeader(p.crypto, body);
      var host := HostText(url.host.value, url.port);
      OwnDigestMatches(p.crypto, body);
      SentFieldsAreCovered(sent, request, date, digest, host);
      var signature := SignatureOf(request).value;
      assert signature.signedHeaders[1..] == Names(SentFields(date, digest, host));
      RecordedIsGenuine(
        p, resolver, request, log, signature,
        Signing(pair.publicKeyPem, "POST", sent.target, SentFields(date, digest, host), body));
    }
  }

  lemma RecordedIsGenuine(
    p: Platform, resolver: Resolver, request: Request, log: set<Signing>, signature: ParsedSignature, s: Signing)
    requires SignatureOf(request) == Some(signature) && resolver.key(signature.keyId).Some? && s in log
    requires resolver.key(signature.keyId).value.publicKeyPem == s.publicKeyPem
    requires Coverable(request.headers, signature.signedHeaders[1..])
    requires CoveredFields(request.headers, signature.signedHeaders[1..]) == s.fields
    requires request.verb == s.verb && RequestTarget(request) == s.target
    ensures Genuine(p, resolver, request, log)
  {
    assert Signed(log, s.publicKeyPem, SignatureBase(s.verb, s.target, s.fields));
  }
}
