/** Printing and signing with draft-cavage-http-signatures-12, and why the signed text is unambiguous. */
module Cavage {
  import opened Wrappers
  import opened Text
  import opened SignatureHeader

  type Bytes = seq<bv8>

  // A header name and its value.
  type Field = (string, string)

  datatype ActorKeyPair = ActorKeyPair(privateKeyPem: string, publicKeyPem: string)

  /**
   RSA, SHA-256 and base64 as unknown functions: signing yields the base64 text of a signature, or
   nothing when the private key does not parse, and verifying decodes it again.
   */
  datatype Crypto = Crypto(
    sign: (string, string) -> Option<string>,
    verify: (string, string, string) -> bool,
    sha256: Bytes -> string)

  predicate IsBase64(s: string) {
    s != "" && forall i | 0 <= i < |s| :: IsAlphanumeric(s[i]) || s[i] == '+' || s[i] == '/' || s[i] == '='
  }

  ghost predicate PrintsBase64(crypto: Crypto) {
    && (forall key, base :: crypto.sign(key, base).Some? ==> IsBase64(crypto.sign(key, base).value))
    && (forall body :: IsBase64(crypto.sha256(body)))
  }

  // The pair works on this text: the public key accepts what the private key signs.
  predicate Matching(crypto: Crypto, pair: ActorKeyPair, base: string) {
    && crypto.sign(pair.privateKeyPem, base).Some?
    && crypto.verify(pair.publicKeyPem, base, crypto.sign(pair.privateKeyPem, base).value)
  }

  function CreateSha256DigestHeader(crypto: Crypto, body: Bytes): string {
    "SHA-256=" + crypto.sha256(body)
  }

  /******* The signature base *******/

  function RequestTargetLine(verb: string, target: string): string {
    "(request-target): " + (Lower(verb) + (" " + target))
  }

  function FieldLine(field: Field): string {
    Lower(field.0) + (": " + Trim(field.1))
  }

  function BaseLines(verb: string, target: string, fields: seq<Field>): seq<string> {
    [RequestTargetLine(verb, target)] + seq(|fields|, i requires 0 <= i < |fields| => FieldLine(fields[i]))
  }

  function SignatureBase(verb: string, target: string, fields: seq<Field>): string {
    Join(BaseLines(verb, target, fields), '\n')
  }

  method DraftCavageSignatureBase(verb: string, target: string, fields: seq<Field>) returns (base: string)
    ensures base == SignatureBase(verb, target, fields)
  {
    var lines := [RequestTargetLine(verb, target)];
    for i := 0 to |fields|
      invariant lines == BaseLines(verb, target, fields)[..i + 1]
    {
      lines := lines + [FieldLine(fields[i])];
    }
    assert BaseLines(verb, target, fields)[..|fields| + 1] == BaseLines(verb, target, fields);
    base := Join(lines, '\n');
  }

  // What HTTP grammar guarantees of a request: no spaces in the method, no colons in names, no line breaks.
  predicate OneLine(verb: string, target: string, fields: seq<Field>) {
    && Free(' ', verb) && Free('\n', verb) && Free('\n', target)
    && forall i | 0 <= i < |fields| :: Free(':', fields[i].0) && Free('\n', fields[i].0) && Free('\n', fields[i].1)
  }

  /**
   The lines of the signature base, as section 2.3 of the draft lays them out: the request target with the
   method in lower case, then each header's name in lower case with its trimmed value.
   */
  lemma SignatureBaseLines(verb: string, target: string, fields: seq<Field>)
    requires OneLine(verb, target, fields)
    ensures var lines := SplitOn('\n', SignatureBase(verb, target, fields));
            && |lines| == 1 + |fields| && lines[0] == "(request-target): " + Lower(verb) + " " + target
            && forall i | 0 <= i < |fields| :: lines[1 + i] == Lower(fields[i].0) + ": " + Trim(fields[i].1)
  {
    var lines := BaseLines(verb, target, fields);
    LinesAreFree(verb, target, fields);
    SplitJoin(lines, '\n');
    assert lines[0] == "(request-target): " + Lower(verb) + " " + target by {
      var head := "(request-target): ";
      assert head + (Lower(verb) + (" " + target)) == head + Lower(verb) + " " + target;
    }
    forall i | 0 <= i < |fields| ensures lines[1 + i] == Lower(fields[i].0) + ": " + Trim(fields[i].1) {
      assert lines[1 + i] == FieldLine(fields[i]);
    }
  }

  function Normalised(fields: seq<Field>): seq<Field> {
    seq(|fields|, i requires 0 <= i < |fields| => (Lower(fields[i].0), Trim(fields[i].1)))
  }

  lemma LowerKeepsFree(c: char, s: string)
    requires Free(c, s) && !('a' <= c <= 'z')
    ensures Free(c, Lower(s))
  {
  }

  lemma LinesAreFree(verb: string, target: string, fields: seq<Field>)
    requires OneLine(verb, target, fields)
    ensures forall i | 0 <= i < |BaseLines(verb, target, fields)| :: Free('\n', BaseLines(verb, target, fields)[i])
  {
    LowerKeepsFree('\n', verb);
    forall i | 0 <= i < |fields| ensures Free('\n', FieldLine(fields[i])) {
      LowerKeepsFree('\n', fields[i].0);
      TrimKeepsFree('\n', fields[i].1);
    }
  }

  lemma FieldLineInjective(f: Field, g: Field)
    requires Free(':', f.0) && Free(':', g.0) && FieldLine(f) == FieldLine(g)
    ensures Lower(f.0) == Lower(g.0) && Trim(f.1) == Trim(g.1)
  {
    LowerKeepsFree(':', f.0);
    LowerKeepsFree(':', g.0);
    IndexOfSkips(':', Lower(f.0), ": " + Trim(f.1));
    IndexOfSkips(':', Lower(g.0), ": " + Trim(g.1));
    var n := |f.0|;
    assert FieldLine(f)[..n] == Lower(f.0) && FieldLine(g)[..n] == Lower(g.0);
    assert FieldLine(f)[n + 2..] == Trim(f.1) && FieldLine(g)[n + 2..] == Trim(g.1);
  }

  lemma RequestTargetLineInjective(verb: string, target: string, verb': string, target': string)
    requires Free(' ', verb) && Free(' ', verb')
    requires RequestTargetLine(verb, target) == RequestTargetLine(verb', target')
    ensures Lower(verb) == Lower(verb') && target == target'
  {
    var line, n := RequestTargetLine(verb, target), |"(request-target): "|;
    var rest, rest' := Lower(verb) + (" " + target), Lower(verb') + (" " + target');
    assert line[n..] == rest && RequestTargetLine(verb', target')[n..] == rest';
    LowerKeepsFree(' ', verb);
    LowerKeepsFree(' ', verb');
    IndexOfSkips(' ', Lower(verb), " " + target);
    IndexOfSkips(' ', Lower(verb'), " " + target');
    var k := |verb|;
    assert rest[..k] == Lower(verb) && rest'[..k] == Lower(verb');
    assert rest[k + 1..] == target && rest'[k + 1..] == target';
  }

  /** Two requests with the same signature base agree on everything but letter case and outer blanks. */
  lemma SignatureBaseInjective(
    verb: string, target: string, fields: seq<Field>, verb': string, target': string, fields': seq<Field>)
    requires OneLine(verb, target, fields) && OneLine(verb', target', fields')
    ensures SignatureBase(verb, target, fields) == SignatureBase(verb', target', fields') <==>
            Lower(verb) == Lower(verb') && target == target' && Normalised(fields) == Normalised(fields')
  {
    var lines, lines' := BaseLines(verb, target, fields), BaseLines(verb', target', fields');
    if SignatureBase(verb, target, fields) == SignatureBase(verb', target', fields') {
      LinesAreFree(verb, target, fields);
      LinesAreFree(verb', target', fields');
      SplitJoin(lines, '\n');
      SplitJoin(lines', '\n');
      assert lines[0] == lines'[0] && |fields| == |fields'|;
      RequestTargetLineInjective(verb, target, verb', target');
      forall i | 0 <= i < |fields| ensures Normalised(fields)[i] == Normalised(fields')[i] {
        assert lines[i + 1] == lines'[i + 1];
        FieldLineInjective(fields[i], fields'[i]);
      }
    }
    if Lower(verb) == Lower(verb') && target == target' && Normalised(fields) == Normalised(fields') {
      assert |fields| == |Normalised(fields)| == |Normalised(fields')| == |fields'|;
      forall i | 0 <= i < |fields| ensures FieldLine(fields[i]) == FieldLine(fields'[i]) {
        assert Normalised(fields)[i] == Normalised(fields')[i];
      }
      assert lines == lines';
    }
  }

  /******* The Signature header *******/

  // One printed parameter followed by `after`.
  function PrintedParameter(name: string, value: string, after: string): string {
    name + ("=\"" + (value + ("\"" + after)))
  }

  function SignedHeadersText(names: seq<string>): string {
    "(request-target)" + (" " + Join(LowerAll(names), ' '))
  }

  function PrintedParameters(ps: seq<Parameter>): string
    requires ps != []
  {
    PrintedParameter(ps[0].0, ps[0].1, if |ps| == 1 then "" else "," + PrintedParameters(ps[1..]))
  }

  function PrintedHeader(keyId: string, names: seq<string>, signature: string): string {
    PrintedParameters([
      ("keyId", keyId), ("algorithm", "rsa-sha256"), ("headers", SignedHeadersText(names)), ("signature", signature)])
  }

  function Names(fields: seq<Field>): seq<string> {
    seq(|fields|, i requires 0 <= i < |fields| => fields[i].0)
  }

  function SignDraftCavage(
    crypto: Crypto, pair: ActorKeyPair, keyId: string, verb: string, target: string, fields: seq<Field>)
    : Option<string>
  {
    match crypto.sign(pair.privateKeyPem, SignatureBase(verb, target, fields))
    case None => None
    case Some(signature) => Some(PrintedHeader(keyId, Names(fields), signature))
  }

  predicate VerifyDraftCavage(
    crypto: Crypto, publicKeyPem: string, verb: string, target: string, fields: seq<Field>, signature: string)
  {
    crypto.verify(publicKeyPem, SignatureBase(verb, target, fields), signature)
  }

  // A header name as HTTP allows it: no blanks, quotes, backslashes or control characters.
  predicate IsToken(s: string) {
    IsWord(s) && Clean(s)
  }

  function PlainItem(name: string, value: string): Item {
    Item("", name, "", "", MinimallyQuoted(value), "")
  }

  lemma PlainItemIsPrinted(name: string, value: string, after: string)
    requires IsName(name) && Clean(value)
    ensures ValidItem(PlainItem(name, value))
    ensures WrittenItem(PlainItem(name, value), after) == PrintedParameter(name, value, after)
  {
    CleanIsWrittenPlainly(value, after);
    assert "" + after == after;
    assert ['='] + ("" + (['\"'] + (value + (['\"'] + after)))) == "=\"" + (value + ("\"" + after));
  }

  function PlainHeader(ps: seq<Parameter>): Header
    requires ps != []
  {
    var item := PlainItem(ps[0].0, ps[0].1);
    if |ps| == 1 then Last(item) else More(item, PlainHeader(ps[1..]))
  }

  function LowerNames(ps: seq<Parameter>): seq<Parameter> {
    seq(|ps|, i requires 0 <= i < |ps| => (Lower(ps[i].0), ps[i].1))
  }

  lemma {:induction false} PrintedParametersAreParsed(ps: seq<Parameter>)
    requires ps != []
    requires forall i | 0 <= i < |ps| :: IsName(ps[i].0) && Clean(ps[i].1)
    ensures ValidHeader(PlainHeader(ps)) && WrittenHeader(PlainHeader(ps)) == PrintedParameters(ps)
    ensures Denotes(PlainHeader(ps)) == LowerNames(ps)
  {
    if |ps| == 1 {
      PlainItemIsPrinted(ps[0].0, ps[0].1, "");
    } else {
      PlainItemIsPrinted(ps[0].0, ps[0].1, "," + PrintedParameters(ps[1..]));
      PrintedParametersAreParsed(ps[1..]);
      assert LowerNames(ps) == [(Lower(ps[0].0), ps[0].1)] + LowerNames(ps[1..]);
    }
  }

  lemma {:induction false} JoinIsClean(names: seq<string>)
    requires forall i | 0 <= i < |names| :: Clean(names[i])
    ensures Clean(Join(names, ' '))
  {
    if |names| > 1 {
      JoinIsClean(names[1..]);
    }
  }

  lemma LowerKeepsToken(name: string)
    requires IsToken(name)
    ensures IsToken(Lower(name)) && Lower(Lower(name)) == Lower(name)
  {
    assert forall j | 0 <= j < |name| :: Lower(name)[j] == LowerChar(name[j]);
    LowerIdempotent(name);
  }

  lemma LowerAllKeepsTokens(names: seq<string>)
    requires forall i | 0 <= i < |names| :: IsToken(names[i])
    ensures forall i | 0 <= i < |names| :: IsToken(LowerAll(names)[i])
    ensures LowerAll(LowerAll(names)) == LowerAll(names)
  {
    forall i | 0 <= i < |names|
      ensures IsToken(LowerAll(names)[i]) && LowerAll(LowerAll(names))[i] == LowerAll(names)[i]
    {
      LowerKeepsToken(names[i]);
    }
  }

  lemma WordAloneIsRead(word: string)
    requires IsWord(word)
    ensures Words(word + " ") == [word]
  {
    var text := word + " ";
    assert forall i | 0 <= i < |word| :: text[i] == word[i];
    assert text[|word|] == ' ' && WordLength(text) == |word|;
    assert text[..|word|] == word && text[|word|..] == " ";
    assert " "[1..] == "";
  }

  lemma HeaderWordsAreRead(first: string, names: seq<string>)
    requires IsToken(first) && Lower(first) == first
    requires forall i | 0 <= i < |names| :: IsToken(names[i])
    ensures Clean(first + (" " + Join(LowerAll(names), ' ')))
    ensures LowerAll(Words(first + (" " + Join(LowerAll(names), ' ')))) == [first] + LowerAll(names)
  {
    var lowered := LowerAll(names);
    var all := [first] + lowered;
    LowerAllKeepsTokens(names);
    JoinIsClean(lowered);
    if names == [] {
      assert " " + "" == " ";
      WordAloneIsRead(first);
    } else {
      assert all[1..] == lowered;
      WordsJoin(all);
    }
    assert LowerAll(all) == [Lower(first)] + LowerAll(lowered);
  }

  lemma SignedHeadersAreRead(names: seq<string>)
    requires forall i | 0 <= i < |names| :: IsToken(names[i])
    ensures Clean(SignedHeadersText(names))
    ensures LowerAll(Words(SignedHeadersText(names))) == ["(request-target)"] + LowerAll(names)
  {
    assert Lower("(request-target)") == "(request-target)";
    HeaderWordsAreRead("(request-target)", names);
  }

  /** What is printed is what is read: key id, algorithm, header names in order and signature. */
  lemma PrintedHeaderIsParsed(keyId: string, names: seq<string>, signature: string)
    requires keyId != "" && Clean(keyId) && signature != "" && Clean(signature)
    requires forall i | 0 <= i < |names| :: IsToken(names[i])
    ensures Parsed(PrintedHeader(keyId, names, signature))
            == Some(ParsedSignature(keyId, Some("rsa-sha256"), ["(request-target)"] + LowerAll(names), signature))
  {
    var text := SignedHeadersText(names);
    var ps := [("keyId", keyId), ("algorithm", "rsa-sha256"), ("headers", text), ("signature", signature)];
    SignedHeadersAreRead(names);
    PrintedParametersAreParsed(ps);
    WrittenHeaderIsParsed(PlainHeader(ps));
    PrintedNamesAreDistinct(keyId, text, signature);
    PrintedParametersAreInterpreted(LowerNames(ps), keyId, text, signature);
  }

  lemma PrintedParametersAreInterpreted(ps: seq<Parameter>, keyId: string, text: string, signature: string)
    requires keyId != "" && signature != "" && Words(text) != []
    requires ps == [("keyid", keyId), ("algorithm", "rsa-sha256"), ("headers", text), ("signature", signature)]
    requires DistinctNames(ps)
    ensures Interpret(AsMap(ps))
            == Some(ParsedSignature(keyId, Some(Lower("rsa-sha256")), LowerAll(Words(text)), signature))
  {
    AsMapIsTheList(ps);
    assert ps[0] == ("keyid", keyId) && ps[1] == ("algorithm", "rsa-sha256");
    assert ps[2] == ("headers", text) && ps[3] == ("signature", signature);
    assert HasParameter(ps, "keyid", keyId) && HasParameter(ps, "algorithm", "rsa-sha256");
    assert HasParameter(ps, "headers", text) && HasParameter(ps, "signature", signature);
  }

  lemma PrintedNamesAreDistinct(keyId: string, text: string, signature: string)
    ensures LowerNames([("keyId", keyId), ("algorithm", "rsa-sha256"), ("headers", text), ("signature", signature)])
            == [("keyid", keyId), ("algorithm", "rsa-sha256"), ("headers", text), ("signature", signature)]
    ensures DistinctNames([("keyid", keyId), ("algorithm", "rsa-sha256"), ("headers", text), ("signature", signature)])
    ensures Lower("rsa-sha256") == "rsa-sha256"
  {
    assert Lower("keyId") == "keyid" && Lower("algorithm") == "algorithm";
    assert Lower("headers") == "headers" && Lower("signature") == "signature";
    assert |"keyid"| == 5 && |"algorithm"| == 9 && |"headers"| == 7 && |"signature"| == 9;
    assert "algorithm"[0] != "signature"[0];
  }
}
