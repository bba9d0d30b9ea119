/**
 The hand-written scanner for the draft-cavage `Signature` header, proved against the exact
 language it accepts.
 */
module SignatureHeader {
  import opened Wrappers
  import opened Text

  datatype ParsedSignature = ParsedSignature(
    keyId: string,
    algorithm: Option<string>,
    signedHeaders: seq<string>,
    signature: string)

  type Parameter = (string, string)

  /******* Quoted values *******/

  // What follows an opening quote: the unescaped value and the text after the closing quote.
  function Scan(input: string, escaped: bool): (r: Option<(string, string)>)
    ensures r.Some? ==> |r.value.1| < |input|
  {
    if input == "" then None
    else if escaped then Consing(input[0], Scan(input[1..], false))
    else if input[0] == '\\' then Scan(input[1..], true)
    else if input[0] == '\"' then Some(("", input[1..]))
    else if IsControl(input[0]) then None
    else Consing(input[0], Scan(input[1..], false))
  }

  function Consing(c: char, r: Option<(string, string)>): Option<(string, string)> {
    match r
    case None => None
    case Some((value, rest)) => Some(([c] + value, rest))
  }

  function QuotedParameter(input: string): (r: Option<(string, string)>)
    ensures r.Some? ==> |r.value.1| < |input|
  {
    if input == "" || input[0] != '\"' then None else Scan(input[1..], false)
  }

  function Prepending(value: string, r: Option<(string, string)>): Option<(string, string)> {
    match r
    case None => None
    case Some((more, rest)) => Some((value + more, rest))
  }

  lemma PrependingMore(value: string, c: char, after: Option<(string, string)>)
    ensures Prepending(value, Consing(c, after)) == Prepending(value + [c], after)
  {
    if after.Some? {
      assert value + ([c] + after.value.0) == (value + [c]) + after.value.0;
    }
  }

  lemma PrependingNothing(r: Option<(string, string)>)
    ensures Prepending("", r) == r
  {
    if r.Some? {
      assert "" + r.value.0 == r.value.0;
    }
  }

  method ParseQuotedParameter(input: string) returns (r: Option<(string, string)>)
    ensures r == QuotedParameter(input)
  {
    if input == "" || input[0] != '\"' {
      return None;
    }
    var text := input[1..];
    var value, escaped := "", false;
    assert text[0..] == text;
    PrependingNothing(Scan(text, false));
    for index := 0 to |text|
      invariant Scan(text, false) == Prepending(value, Scan(text[index..], escaped))
    {
      var character := text[index];
      assert text[index..][0] == character && text[index..][1..] == text[index + 1..];
      PrependingMore(value, character, Scan(text[index + 1..], false));
      if escaped {
        value := value + [character];
        escaped := false;
      } else if character == '\\' {
        escaped := true;
      } else if character == '\"' {
        assert value + "" == value;
        return Some((value, text[index + 1..]));
      } else if IsControl(character) {
        return None;
      } else {
        value := value + [character];
      }
    }
    return None;
  }

  /** One written character of a quoted value. An escaped character may be anything. */
  datatype Quoted = Plain(c: char) | Escaped(c: char)

  predicate ValidQuoted(q: seq<Quoted>) {
    forall i | 0 <= i < |q| :: q[i].Plain? ==> q[i].c != '\"' && q[i].c != '\\' && !IsControl(q[i].c)
  }

  // The writing of `q` up to and including its closing quote, followed by `rest`.
  function Written(q: seq<Quoted>, rest: string): string {
    if q == [] then ['\"'] + rest
    else if q[0].Plain? then [q[0].c] + Written(q[1..], rest)
    else ['\\'] + ([q[0].c] + Written(q[1..], rest))
  }

  function Meaning(q: seq<Quoted>): (s: string)
    ensures |s| == |q|
  {
    seq(|q|, i requires 0 <= i < |q| => q[i].c)
  }

  lemma {:induction false} ScanAccepts(q: seq<Quoted>, rest: string)
    requires ValidQuoted(q)
    ensures Scan(Written(q, rest), false) == Some((Meaning(q), rest))
  {
    if q != [] {
      ScanAccepts(q[1..], rest);
      assert Meaning(q) == [q[0].c] + Meaning(q[1..]);
      var s := Written(q, rest);
      assert q[0].Plain? ==> s[1..] == Written(q[1..], rest);
      assert q[0].Escaped? ==> s[1..][1..] == Written(q[1..], rest);
    }
  }

  // The characters `Scan` reads as the value, after a backslash already read if `escaped`.
  lemma {:induction false} ReadQuoted(input: string, escaped: bool) returns (q: seq<Quoted>)
    requires Scan(input, escaped).Some?
    ensures ValidQuoted(q)
    ensures Meaning(q) == Scan(input, escaped).value.0
    ensures Written(q, Scan(input, escaped).value.1) == if escaped then ['\\'] + input else input
    decreases |input|
  {
    var c, rest := input[0], input[1..];
    assert input == [c] + rest;
    if !escaped && c == '\"' {
      q := [];
    } else if !escaped && c == '\\' {
      q := ReadQuoted(rest, true);
    } else {
      var more := ReadQuoted(rest, false);
      q := [if escaped then Escaped(c) else Plain(c)] + more;
      assert Meaning(q) == [c] + Meaning(more);
      assert q[1..] == more;
    }
  }

  /**
   A quoted value is read exactly when it was written by the grammar: every character either plain
   (no quote, backslash or control character) or escaped (then any character). The text after the
   closing quote is returned untouched.
   */
  lemma QuotedLanguage(input: string, value: string, rest: string)
    ensures QuotedParameter(input) == Some((value, rest)) <==>
            exists q :: ValidQuoted(q) && Meaning(q) == value && input == ['\"'] + Written(q, rest)
  {
    if QuotedParameter(input) == Some((value, rest)) {
      var q := ReadQuoted(input[1..], false);
      assert input == ['\"'] + Written(q, rest);
    }
    forall q | ValidQuoted(q) && Meaning(q) == value && input == ['\"'] + Written(q, rest)
      ensures QuotedParameter(input) == Some((value, rest))
    {
      assert input[1..] == Written(q, rest);
      ScanAccepts(q, rest);
    }
  }

  // A printer that escapes only what must be escaped, followed by `rest`.
  function Quote(value: string, rest: string): string {
    ['\"'] + Written(MinimallyQuoted(value), rest)
  }

  function MinimallyQuoted(value: string): (q: seq<Quoted>)
    ensures ValidQuoted(q) && Meaning(q) == value
  {
    seq(|value|, i requires 0 <= i < |value| =>
      if value[i] == '\"' || value[i] == '\\' || IsControl(value[i]) then Escaped(value[i]) else Plain(value[i]))
  }

  lemma ParseInvertsQuote(value: string, rest: string)
    ensures QuotedParameter(Quote(value, rest)) == Some((value, rest))
  {
    QuotedLanguage(Quote(value, rest), value, rest);
  }

  // Text without quotes, backslashes and control characters is written as it is.
  predicate Clean(s: string) {
    forall i | 0 <= i < |s| :: s[i] != '\"' && s[i] != '\\' && !IsControl(s[i])
  }

  lemma {:induction false} CleanIsWrittenPlainly(s: string, rest: string)
    requires Clean(s)
    ensures Written(MinimallyQuoted(s), rest) == s + (['\"'] + rest)
  {
    if s != "" {
      CleanIsWrittenPlainly(s[1..], rest);
      assert MinimallyQuoted(s)[1..] == MinimallyQuoted(s[1..]);
    }
  }

  /******* Parameter lists *******/

  predicate IsNameChar(c: char) {
    IsAlphanumeric(c) || c == '-' || c == '_'
  }

  predicate IsName(s: string) {
    s != "" && forall i | 0 <= i < |s| :: IsNameChar(s[i])
  }

  // One `name="value"` at the start of non-blank text: the lowercased name, the value and what follows.
  function OneParameter(s: string): (r: Option<(Parameter, string)>)
    ensures r.Some? ==> |r.value.1| < |s|
  {
    match IndexOf('=', s)
    case None => None
    case Some(equals) =>
      var name := Trim(s[..equals]);
      if !IsName(name) then None
      else
        match QuotedParameter(TrimStart(s[equals + 1..]))
        case None => None
        case Some((value, rest)) => Some(((Lower(name), value), rest))
  }

  // All parameters in written order, before the check for repeated names.
  function Parameters(header: string): Option<seq<Parameter>>
    decreases |header|
  {
    var s := TrimStart(header);
    if s == "" then Some([])
    else
      match OneParameter(s)
      case None => None
      case Some((parameter, after)) => Appending([parameter], FurtherParameters(TrimStart(after)))
  }

  // What may follow a parameter: nothing, or a comma and more parameters.
  function FurtherParameters(rest: string): Option<seq<Parameter>>
    decreases |rest|
  {
    if rest == "" then Some([]) else if rest[0] != ',' then None else Parameters(rest[1..])
  }

  function Appending(ps: seq<Parameter>, r: Option<seq<Parameter>>): Option<seq<Parameter>> {
    match r
    case None => None
    case Some(more) => Some(ps + more)
  }

  lemma AppendingMore(ps: seq<Parameter>, p: Parameter, r: Option<seq<Parameter>>)
    ensures Appending([], r) == r
    ensures Appending(ps, Appending([p], r)) == Appending(ps + [p], r)
  {
    if r.Some? {
      assert [] + r.value == r.value;
      assert ps + ([p] + r.value) == ps + [p] + r.value;
    }
  }

  predicate DistinctNames(ps: seq<Parameter>) {
    forall i, j | 0 <= i < j < |ps| :: ps[i].0 != ps[j].0
  }

  function AsMap(ps: seq<Parameter>): map<string, string> {
    if ps == [] then map[] else AsMap(ps[..|ps| - 1])[ps[|ps| - 1].0 := ps[|ps| - 1].1]
  }

  function LowerAll(names: seq<string>): (lowered: seq<string>)
    ensures |lowered| == |names|
  {
    seq(|names|, i requires 0 <= i < |names| => Lower(names[i]))
  }

  function Interpret(m: map<string, string>): Option<ParsedSignature> {
    if "keyid" !in m || "headers" !in m || "signature" !in m then None
    else
      var words := Words(m["headers"]);
      var names := LowerAll(words);
      if m["keyid"] == "" || names == [] || m["signature"] == "" then None
      else Some(ParsedSignature(
        m["keyid"], if "algorithm" in m then Some(Lower(m["algorithm"])) else None, names, m["signature"]))
  }

  function Parsed(header: string): Option<ParsedSignature> {
    match Parameters(header)
    case None => None
    case Some(ps) => if DistinctNames(ps) then Interpret(AsMap(ps)) else None
  }

  method ParseSignatureHeader(header: string) returns (r: Option<ParsedSignature>)
    ensures r == Parsed(header)
  {
    var parameters: map<string, string> := map[];
    ghost var done: seq<Parameter> := [];
    var remaining := header;
    AppendingMore([], ("", ""), Parameters(header));
    while TrimStart(remaining) != ""
      invariant Parameters(header) == Appending(done, Parameters(remaining))
      invariant DistinctNames(done) && parameters == AsMap(done)
      decreases |remaining|
    {
      remaining := TrimStart(remaining);
      var equals := IndexOf('=', remaining);
      if equals.None? {
        return None;
      }
      var name := Trim(remaining[..equals.value]);
      if !IsName(name) {
        return None;
      }
      var quoted := ParseQuotedParameter(TrimStart(remaining[equals.value + 1..]));
      if quoted.None? {
        return None;
      }
      var (value, rest) := quoted.value;
      ghost var parameter := (Lower(name), value);
      remaining := TrimStart(rest);
      ghost var later := FurtherParameters(remaining);
      AppendingMore(done, parameter, later);
      assert Parameters(header) == Appending(done + [parameter], later);
      if Lower(name) in parameters {
        RepeatedNameIsRefused(header, done, parameter, later);
        return None;
      }
      parameters := parameters[Lower(name) := value];
      AsMapGrows(done, parameter);
      done := done + [parameter];
      if remaining == "" {
        break;
      }
      if remaining[0] != ',' {
        return None;
      }
      remaining := remaining[1..];
    }
    assert done + [] == done;
    assert Parameters(header) == Some(done);

    return Interpret(parameters);
  }

  lemma {:induction false} AsMapNames(ps: seq<Parameter>)
    ensures forall i | 0 <= i < |ps| :: ps[i].0 in AsMap(ps)
    ensures forall name | name in AsMap(ps) :: exists i :: 0 <= i < |ps| && ps[i].0 == name
  {
    if ps != [] {
      var front := ps[..|ps| - 1];
      AsMapNames(front);
      forall name | name in AsMap(ps) ensures exists i :: 0 <= i < |ps| && ps[i].0 == name {
        if name in AsMap(front) {
          var i :| 0 <= i < |front| && front[i].0 == name;
          assert ps[i].0 == name;
        }
      }
      forall i | 0 <= i < |ps| ensures ps[i].0 in AsMap(ps) {
        if i < |front| {
          assert front[i] == ps[i];
        }
      }
    }
  }

  lemma AsMapGrows(ps: seq<Parameter>, p: Parameter)
    requires DistinctNames(ps) && p.0 !in AsMap(ps)
    ensures DistinctNames(ps + [p]) && AsMap(ps + [p]) == AsMap(ps)[p.0 := p.1]
  {
    AsMapNames(ps);
    assert (ps + [p])[..|ps|] == ps;
  }

  lemma RepeatedNameIsRefused(header: string, ps: seq<Parameter>, p: Parameter, later: Option<seq<Parameter>>)
    requires Parameters(header) == Appending(ps + [p], later) && p.0 in AsMap(ps)
    ensures Parsed(header) == None
  {
    AsMapNames(ps);
    if later.Some? {
      var all := ps + [p] + later.value;
      var i :| 0 <= i < |ps| && ps[i].0 == p.0;
      assert all[i].0 == all[|ps|].0;
    }
  }

  /******* The exact language *******/

  /** One written parameter: optional blanks around the name, the equals sign and the quoted value. */
  datatype Item = Item(
    lead: string, name: string, beforeEquals: string, afterEquals: string, value: seq<Quoted>, trail: string)

  /** A written header: items separated by commas, where a last comma may be followed by blanks only. */
  datatype Header = End(blank: string) | Last(item: Item) | More(item: Item, rest: Header)

  predicate ValidItem(item: Item) {
    && IsName(item.name) && ValidQuoted(item.value)
    && Blank(item.lead) && Blank(item.beforeEquals) && Blank(item.afterEquals) && Blank(item.trail)
  }

  predicate ValidHeader(h: Header) {
    match h
    case End(blank) => Blank(blank)
    case Last(item) => ValidItem(item)
    case More(item, rest) => ValidItem(item) && ValidHeader(rest)
  }

  // The writing of `item` followed by `after`.
  function WrittenItem(item: Item, after: string): string {
    item.lead + NameOnward(item, after)
  }

  function NameOnward(item: Item, after: string): string {
    item.name + (item.beforeEquals + (['='] + ValueOnward(item, after)))
  }

  function ValueOnward(item: Item, after: string): string {
    item.afterEquals + (['\"'] + Written(item.value, item.trail + after))
  }

  function WrittenHeader(h: Header): string {
    match h
    case End(blank) => blank
    case Last(item) => WrittenItem(item, "")
    case More(item, rest) => WrittenItem(item, [','] + WrittenHeader(rest))
  }

  function Denotes(h: Header): seq<Parameter> {
    match h
    case End(_) => []
    case Last(item) => [(Lower(item.name), Meaning(item.value))]
    case More(item, rest) => [(Lower(item.name), Meaning(item.value))] + Denotes(rest)
  }

  lemma NameIsRead(name: string, blank: string, after: string)
    requires IsName(name) && Blank(blank)
    ensures var text := name + (blank + (['='] + after));
            && text != "" && !IsWhite(text[0])
            && IndexOf('=', text) == Some(|name| + |blank|)
            && Trim(text[..|name| + |blank|]) == name
            && text[|name| + |blank| + 1..] == after
  {
    var text := name + (blank + (['='] + after));
    assert forall i | 0 <= i < |name| :: IsNameChar(name[i]) && !IsWhite(name[i]);
    IndexOfSkips('=', blank, ['='] + after);
    IndexOfSkips('=', name, blank + (['='] + after));
    assert text[..|name| + |blank|] == name + blank;
    assert (name + blank)[0] == name[0];
    assert TrimStart(name + blank) == name + blank;
    TrimEndSkips(name, blank);
  }

  lemma ValueIsRead(item: Item, after: string)
    requires ValidItem(item)
    ensures QuotedParameter(TrimStart(ValueOnward(item, after))) == Some((Meaning(item.value), item.trail + after))
  {
    var quote := ['\"'] + Written(item.value, item.trail + after);
    TrimStartSkips(item.afterEquals, quote);
    QuotedLanguage(quote, Meaning(item.value), item.trail + after);
  }

  lemma OneParameterAccepts(item: Item, after: string)
    requires ValidItem(item)
    ensures NameOnward(item, after) != "" && !IsWhite(NameOnward(item, after)[0])
    ensures OneParameter(NameOnward(item, after)) == Some(((Lower(item.name), Meaning(item.value)), item.trail + after))
  {
    NameIsRead(item.name, item.beforeEquals, ValueOnward(item, after));
    ValueIsRead(item, after);
  }

  lemma {:induction false} WrittenHeaderIsParsed(h: Header)
    requires ValidHeader(h)
    ensures Parameters(WrittenHeader(h)) == Some(Denotes(h))
  {
    match h
    case End(blank) =>
      TrimStartSkips(blank, "");
      assert blank + "" == blank;
    case Last(item) =>
      OneParameterAccepts(item, "");
      TrimStartSkips(item.lead, NameOnward(item, ""));
      TrimStartSkips(item.trail, "");
      assert Denotes(h) + [] == Denotes(h);
    case More(item, rest) =>
      var after := [','] + WrittenHeader(rest);
      OneParameterAccepts(item, after);
      TrimStartSkips(item.lead, NameOnward(item, after));
      TrimStartSkips(item.trail, after);
      assert TrimStart(after) == after;
      assert after[1..] == WrittenHeader(rest);
      WrittenHeaderIsParsed(rest);
  }

  // The written item that `OneParameter` read from non-blank text, with the blanks around it.
  lemma ReadItem(text: string) returns (item: Item)
    requires var s := TrimStart(text); s != "" && OneParameter(s).Some?
    ensures var (parameter, after) := OneParameter(TrimStart(text)).value;
            && ValidItem(item) && text == WrittenItem(item, TrimStart(after))
            && parameter == (Lower(item.name), Meaning(item.value))
  {
    var s := TrimStart(text);
    var lead := TrimStartCuts(text);
    var equals := IndexOf('=', s).value;
    IndexOfFirst('=', s);
    var name, blank := ReadName(s[..equals]);
    var afterEquals, q, trail := ReadValue(s[equals + 1..]);
    item := Item(lead, name, blank, afterEquals, q, trail);
    Reassociate(name, blank, ['='] + s[equals + 1..]);
  }

  lemma Reassociate(a: string, b: string, c: string)
    ensures (a + b) + c == a + (b + c)
  {
  }

  lemma ReadName(front: string) returns (name: string, blank: string)
    requires IsName(Trim(front)) && (front != "" ==> !IsWhite(front[0]))
    ensures name == Trim(front) && Blank(blank) && front == name + blank
  {
    name := Trim(front);
    blank := TrimEndCuts(front);
  }

  lemma ReadValue(back: string) returns (blank: string, q: seq<Quoted>, trail: string)
    requires QuotedParameter(TrimStart(back)).Some?
    ensures var (value, after) := QuotedParameter(TrimStart(back)).value;
            && Blank(blank) && ValidQuoted(q) && Blank(trail) && value == Meaning(q)
            && back == blank + (['\"'] + Written(q, trail + TrimStart(after)))
  {
    var quote := TrimStart(back);
    blank := TrimStartCuts(back);
    trail := TrimStartCuts(QuotedParameter(quote).value.1);
    q := ReadQuoted(quote[1..], false);
    assert quote == ['\"'] + quote[1..];
  }

  lemma {:induction false} ReadHeader(text: string) returns (h: Header)
    requires Parameters(text).Some?
    ensures ValidHeader(h) && WrittenHeader(h) == text && Denotes(h) == Parameters(text).value
    decreases |text|
  {
    var s := TrimStart(text);
    if s == "" {
      var blank := TrimStartCuts(text);
      h := End(blank);
    } else {
      var item := ReadItem(text);
      var rest := TrimStart(OneParameter(s).value.1);
      if rest == "" {
        h := Last(item);
      } else {
        assert rest[0] == ',' && FurtherParameters(rest).Some?;
        assert rest == [','] + rest[1..];
        var more := ReadHeader(rest[1..]);
        h := More(item, more);
      }
    }
  }

  /** The parameters read from a header are exactly those some valid writing of it denotes. */
  lemma ParameterLanguage(header: string, ps: seq<Parameter>)
    ensures Parameters(header) == Some(ps) <==>
            exists h :: ValidHeader(h) && WrittenHeader(h) == header && Denotes(h) == ps
  {
    if Parameters(header) == Some(ps) {
      var h := ReadHeader(header);
    }
    forall h | ValidHeader(h) && WrittenHeader(h) == header && Denotes(h) == ps
      ensures Parameters(header) == Some(ps)
    {
      WrittenHeaderIsParsed(h);
    }
  }

  ghost predicate HasParameter(ps: seq<Parameter>, name: string, value: string) {
    exists i :: 0 <= i < |ps| && ps[i] == (name, value)
  }

  // The values a header must carry: all three present, and none of them without content.
  ghost predicate Complete(ps: seq<Parameter>) {
    && (exists value :: HasParameter(ps, "keyid", value) && value != "")
    && (exists value :: HasParameter(ps, "headers", value) && Words(value) != [])
    && (exists value :: HasParameter(ps, "signature", value) && value != "")
  }

  lemma {:induction false} AsMapIsTheList(ps: seq<Parameter>)
    requires DistinctNames(ps)
    ensures forall name, value :: HasParameter(ps, name, value) <==> name in AsMap(ps) && AsMap(ps)[name] == value
  {
    if ps != [] {
      var front, last := ps[..|ps| - 1], ps[|ps| - 1];
      AsMapIsTheList(front);
      forall name, value
        ensures HasParameter(ps, name, value) <==> name in AsMap(ps) && AsMap(ps)[name] == value
      {
        if name == last.0 {
          assert ps[|ps| - 1] == (name, last.1);
        } else {
          assert HasParameter(front, name, value) ==> HasParameter(ps, name, value) by {
            if HasParameter(front, name, value) {
              var i :| 0 <= i < |front| && front[i] == (name, value);
              assert ps[i] == (name, value);
            }
          }
          if HasParameter(ps, name, value) {
            var i :| 0 <= i < |ps| && ps[i] == (name, value);
            assert front[i] == (name, value);
          }
        }
      }
    }
  }

  /**
   A header is accepted exactly when it is a valid writing of case-insensitively distinct names
   among which keyId, headers and signature have content.
   */
  lemma AcceptedLanguage(header: string)
    ensures Parsed(header).Some? <==>
            exists h :: ValidHeader(h) && WrittenHeader(h) == header && DistinctNames(Denotes(h))
              && Complete(Denotes(h))
  {
    if Parameters(header).Some? {
      var ps := Parameters(header).value;
      ParameterLanguage(header, ps);
      if DistinctNames(ps) {
        AsMapIsTheList(ps);
        CompleteIsInterpreted(ps);
      }
    }
    forall h | ValidHeader(h) && WrittenHeader(h) == header
      ensures Parameters(header) == Some(Denotes(h))
    {
      WrittenHeaderIsParsed(h);
    }
  }

  lemma CompleteIsInterpreted(ps: seq<Parameter>)
    requires DistinctNames(ps)
    ensures Complete(ps) <==> Interpret(AsMap(ps)).Some?
  {
    var m := AsMap(ps);
    AsMapIsTheList(ps);
    if Interpret(m).Some? {
      assert HasParameter(ps, "keyid", m["keyid"]);
      assert HasParameter(ps, "headers", m["headers"]);
      assert HasParameter(ps, "signature", m["signature"]);
    }
  }

  /**
   The result depends only on the set of (lowercased name, value) pairs, so not on parameter order,
   name case, escapes that were not needed, blanks or a trailing comma.
   */
  lemma OnlyThePairsMatter(g: Header, h: Header)
    requires ValidHeader(g) && ValidHeader(h)
    requires DistinctNames(Denotes(g)) && DistinctNames(Denotes(h))
    requires forall name, value :: HasParameter(Denotes(g), name, value) <==> HasParameter(Denotes(h), name, value)
    ensures Parsed(WrittenHeader(g)) == Parsed(WrittenHeader(h))
  {
    WrittenHeaderIsParsed(g);
    WrittenHeaderIsParsed(h);
    AsMapIsTheList(Denotes(g));
    AsMapIsTheList(Denotes(h));
    SamePairsSameMap(AsMap(Denotes(g)), AsMap(Denotes(h)), Denotes(g), Denotes(h));
  }

  lemma SamePairsSameMap(m: map<string, string>, n: map<string, string>, ps: seq<Parameter>, qs: seq<Parameter>)
    requires forall name, value :: HasParameter(ps, name, value) <==> name in m && m[name] == value
    requires forall name, value :: HasParameter(qs, name, value) <==> name in n && n[name] == value
    requires forall name, value :: HasParameter(ps, name, value) <==> HasParameter(qs, name, value)
    ensures m == n
  {
    forall name | name in m ensures name in n && n[name] == m[name] {
      assert HasParameter(ps, name, m[name]);
    }
    forall name | name in n ensures name in m {
      assert HasParameter(qs, name, n[name]);
    }
  }

  /** What an accepted header yields: the values of these parameters, with algorithm and covered names in lower case. */
  lemma ParsedMeans(header: string, signature: ParsedSignature)
    requires Parsed(header) == Some(signature)
    ensures Parameters(header).Some?
    ensures var ps := Parameters(header).value;
            && HasParameter(ps, "keyid", signature.keyId) && HasParameter(ps, "signature", signature.signature)
            && (exists text :: HasParameter(ps, "headers", text) && signature.signedHeaders == LowerAll(Words(text)))
            && match signature.algorithm
               case None => forall text :: !HasParameter(ps, "algorithm", text)
               case Some(algorithm) => exists text :: HasParameter(ps, "algorithm", text) && algorithm == Lower(text)
  {
    var ps := Parameters(header).value;
    var m := AsMap(ps);
    AsMapIsTheList(ps);
    assert HasParameter(ps, "headers", m["headers"]);
    assert "algorithm" in m ==> HasParameter(ps, "algorithm", m["algorithm"]);
  }
}
