/** The canonical JWK whose hash names a key (src/plugins/mod.rs; section 3 of RFC 7638). */
module Jwk {
  import opened Bytes
  import opened Results
  import opened Primitives
  import Utf8

  /** A parsed JSON value; only objects and strings matter here. */
  datatype Json = Object(members: map<string, Json>) | Str(s: string) | OtherJson

  function StrMember(jwk: Json, name: string): Option<string> {
    if jwk.Object? && name in jwk.members && jwk.members[name].Str? then Some(jwk.members[name].s) else None
  }

  /** The required members of each key type, in lexicographic order. */
  function RequiredMembers(kty: string): (names: Option<seq<string>>)
    ensures names.Some? ==> |names.value| >= 2 && names.value[1] == "kty"
  {
    if kty == "EC" then Some(["crv", "kty", "x", "y"])
    else if kty == "OKP" then Some(["crv", "kty", "x"])
    else if kty == "RSA" then Some(["e", "kty", "n"])
    else if kty == "oct" then Some(["k", "kty"])
    else None
  }

  // ---------------------------------------------------- JSON string literals

  function HexDigit(n: nat): char
    requires n < 16
  {
    if n < 10 then (('0' as int) + n) as char else (('a' as int) + n - 10) as char
  }

  /** One character as `serde_json` writes it inside a string literal. */
  function EscapeChar(c: char): (e: string)
    ensures |e| >= 1
  {
    if c == '\"' then "\\\""
    else if c == '\\' then "\\\\"
    else if c as int == 0x08 then "\\b"
    else if c as int == 0x09 then "\\t"
    else if c as int == 0x0A then "\\n"
    else if c as int == 0x0C then "\\f"
    else if c as int == 0x0D then "\\r"
    else if c as int < 0x20 then ['\\', 'u', '0', '0', HexDigit(c as int / 16), HexDigit(c as int % 16)]
    else [c]
  }

  function Escape(s: string): string {
    if s == "" then "" else EscapeChar(s[0]) + Escape(s[1..])
  }

  function Quote(s: string): string {
    "\"" + Escape(s) + "\""
  }

  function HexValue(c: char): Option<nat> {
    if '0' <= c <= '9' then Some(c as int - '0' as int)
    else if 'a' <= c <= 'f' then Some(c as int - 'a' as int + 10)
    else None
  }

  /** The character an escaped or plain character at the front of `t` stands for, and its width. */
  function ReadChar(t: string): (r: Option<(char, nat)>)
    ensures r.Some? ==> 1 <= r.value.1 <= |t|
  {
    if |t| == 0 || t[0] == '\"' then None
    else if t[0] != '\\' then Some((t[0], 1))
    else if |t| < 2 then None
    else if t[1] == '\"' then Some(('\"', 2))
    else if t[1] == '\\' then Some(('\\', 2))
    else if t[1] == 'b' then Some((8 as char, 2))
    else if t[1] == 't' then Some((9 as char, 2))
    else if t[1] == 'n' then Some((10 as char, 2))
    else if t[1] == 'f' then Some((12 as char, 2))
    else if t[1] == 'r' then Some((13 as char, 2))
    else if t[1] == 'u' && |t| >= 6 && t[2] == '0' && t[3] == '0' then
      (match (HexValue(t[4]), HexValue(t[5]))
       case (Some(h), Some(l)) => Some(((16 * h + l) as char, 6))
       case _ => None)
    else None
  }

  /** Reads up to the closing quote: the text, and what follows the literal. */
  function ReadText(t: string): Option<(string, string)> {
    if t == "" then None
    else if t[0] == '\"' then Some(("", t[1..]))
    else
      match ReadChar(t)
      case None => None
      case Some((c, n)) =>
        match ReadText(t[n..])
        case None => None
        case Some((s, rest)) => Some(([c] + s, rest))
  }

  lemma EscapedCharReadsBack(c: char, rest: string)
    ensures var t := EscapeChar(c) + rest;
            t[0] != '\"' && ReadChar(t) == Some((c, |EscapeChar(c)|))
  {
    var e := EscapeChar(c);
    var t := e + rest;
    assert forall i | 0 <= i < |e| :: t[i] == e[i];
  }

  /** A literal ends where its closing quote is, whatever the text contains and whatever follows. */
  lemma {:induction false} LiteralReadsBack(s: string, rest: string)
    ensures ReadText(Escape(s) + "\"" + rest) == Some((s, rest))
  {
    hide EscapeChar, ReadChar;
    if s == "" {
      assert Escape(s) + "\"" + rest == "\"" + rest;
    } else {
      var tail := Escape(s[1..]) + "\"" + rest;
      var t := EscapeChar(s[0]) + tail;
      assert Escape(s) + "\"" + rest == t;
      EscapedCharReadsBack(s[0], tail);
      assert t[|EscapeChar(s[0])|..] == tail;
      LiteralReadsBack(s[1..], rest);
      assert [s[0]] + s[1..] == s;
    }
  }

  lemma {:induction false} QuoteIsInjective(s: string, rest: string, s': string, rest': string)
    requires Quote(s) + rest == Quote(s') + rest'
    ensures s == s' && rest == rest'
  {
    hide Escape, ReadText;
    LiteralReadsBack(s, rest);
    LiteralReadsBack(s', rest');
    assert (Quote(s) + rest)[1..] == Escape(s) + "\"" + rest;
    assert (Quote(s') + rest')[1..] == Escape(s') + "\"" + rest';
  }

  // --------------------------------------------------------- canonical form

  datatype Member = Member(name: string, value: string)

  function MemberText(m: Member): string {
    Quote(m.name) + ":" + Quote(m.value)
  }

  /** Members after the first are led in by a comma. */
  function MembersText(ms: seq<Member>): string {
    if ms == [] then ""
    else MembersText(ms[..|ms| - 1]) + (if |ms| > 1 then "," else "") + MemberText(ms[|ms| - 1])
  }

  function ObjectText(ms: seq<Member>): string {
    "{" + MembersText(ms) + "}"
  }

  /** The named members, when each is a string. */
  function MembersOf(jwk: Json, names: seq<string>): Option<seq<Member>> {
    if names == [] then Some([])
    else
      match MembersOf(jwk, names[..|names| - 1])
      case None => None
      case Some(ms) =>
        match StrMember(jwk, names[|names| - 1])
        case None => None
        case Some(v) => Some(ms + [Member(names[|names| - 1], v)])
  }

  function CanonicalMembers(jwk: Json): Option<seq<Member>> {
    var kty :- StrMember(jwk, "kty");
    var names :- RequiredMembers(kty);
    MembersOf(jwk, names)
  }

  function Canonical(jwk: Json): Result<string> {
    match CanonicalMembers(jwk) case Some(ms) => Ok(ObjectText(ms)) case None => Err(Plugin)
  }

  /** `jwk_thumbprint`: the canonical string grown member by member, then hashed and encoded. */
  method JwkThumbprint(h: Hashes, base64Url: bytes -> string, jwk: Json) returns (r: Result<string>)
    ensures r == match Canonical(jwk)
                 case Ok(text) => Ok(base64Url(h.sha256(Utf8.Encode(text))))
                 case Err(e) => Err(e)
  {
    hide Quote, Utf8.Encode, MembersOf, MembersText, StrMember, RequiredMembers;
    var kty := StrMember(jwk, "kty");
    if kty.None? {
      return Err(Plugin);
    }
    var members := RequiredMembers(kty.value);
    if members.None? {
      return Err(Plugin);
    }
    var names := members.value;
    var canonical := "{";
    ghost var done: seq<Member> := [];
    NoMembers(jwk, names);
    for i := 0 to |names|
      invariant MembersOf(jwk, names[..i]) == Some(done) && |done| == i
      invariant canonical == "{" + MembersText(done)
    {
      var value := StrMember(jwk, names[i]);
      if value.None? {
        MissingMember(jwk, names, i);
        return Err(Plugin);
      }
      ghost var next := Member(names[i], value.value);
      OneMoreMember(jwk, names, done, next);
      if i > 0 {
        canonical := canonical + ",";
      }
      canonical := canonical + Quote(names[i]);
      canonical := canonical + ":";
      canonical := canonical + Quote(value.value);
      assert canonical == "{" + (MembersText(done) + (if i > 0 then "," else "") + MemberText(next));
      done := done + [next];
    }
    assert names[..|names|] == names;
    canonical := canonical + "}";
    r := Ok(base64Url(h.sha256(Utf8.Encode(canonical))));
  }

  lemma NoMembers(jwk: Json, names: seq<string>)
    ensures MembersOf(jwk, names[..0]) == Some([]) && MembersText([]) == ""
  {
    assert names[..0] == [];
  }

  lemma OneMoreMember(jwk: Json, names: seq<string>, done: seq<Member>, next: Member)
    requires |done| < |names| && MembersOf(jwk, names[..|done|]) == Some(done)
    requires next.name == names[|done|] && StrMember(jwk, next.name) == Some(next.value)
    ensures MembersOf(jwk, names[..|done| + 1]) == Some(done + [next])
    ensures MembersText(done + [next]) == MembersText(done) + (if done == [] then "" else ",") + MemberText(next)
  {
    hide StrMember, MemberText;
    assert names[..|done| + 1][..|done|] == names[..|done|];
    assert (done + [next])[..|done|] == done;
  }

  lemma {:induction false} MissingMember(jwk: Json, names: seq<string>, at: nat)
    requires at < |names| && StrMember(jwk, names[at]) == None
    ensures MembersOf(jwk, names) == None
  {
    if at < |names| - 1 {
      MissingMember(jwk, names[..|names| - 1], at);
    }
  }

  // ----------------------------------------------------------- faithfulness

  /** The same text read from the front: first member, then a comma and the rest, or nothing. */
  function FrontText(ms: seq<Member>): string {
    if ms == [] then "" else MemberText(ms[0]) + if |ms| == 1 then "" else "," + FrontText(ms[1..])
  }

  lemma {:induction false} FrontTextIsMembersText(ms: seq<Member>)
    ensures MembersText(ms) == FrontText(ms)
  {
    hide MemberText;
    if |ms| > 1 {
      var n := |ms| - 1;
      FrontTextIsMembersText(ms[..n]);
      FrontTextGrows(ms[..n], ms[n]);
      assert ms[..n] + [ms[n]] == ms;
    } else if |ms| == 1 {
      assert MembersText(ms[..0]) == "";
      assert ms[1..] == [];
    }
  }

  lemma {:induction false} FrontTextGrows(ms: seq<Member>, m: Member)
    requires ms != []
    ensures FrontText(ms + [m]) == FrontText(ms) + "," + MemberText(m)
  {
    hide MemberText;
    assert (ms + [m])[1..] == ms[1..] + [m];
    if |ms| > 1 {
      FrontTextGrows(ms[1..], m);
    } else {
      assert ms[1..] + [m] == [m];
    }
  }

  lemma {:induction false} MemberTextIsInjective(m: Member, rest: string, m': Member, rest': string)
    requires MemberText(m) + rest == MemberText(m') + rest'
    ensures m == m' && rest == rest'
  {
    hide Quote;
    var r, r' := ":" + Quote(m.value) + rest, ":" + Quote(m'.value) + rest';
    assert MemberText(m) + rest == Quote(m.name) + r;
    assert MemberText(m') + rest' == Quote(m'.name) + r';
    QuoteIsInjective(m.name, r, m'.name, r');
    assert r[1..] == Quote(m.value) + rest && r'[1..] == Quote(m'.value) + rest';
    QuoteIsInjective(m.value, rest, m'.value, rest');
  }

  /** What follows the first member. */
  function Tail(ms: seq<Member>): string
    requires ms != []
  {
    (if |ms| == 1 then "" else "," + FrontText(ms[1..])) + "}"
  }

  lemma FirstThenTail(ms: seq<Member>)
    requires ms != []
    ensures FrontText(ms) + "}" == MemberText(ms[0]) + Tail(ms)
  {
    hide MemberText;
  }

  lemma TailsTellMore(ms: seq<Member>, ms': seq<Member>)
    requires ms != [] && ms' != [] && Tail(ms) == Tail(ms')
    ensures |ms| == 1 <==> |ms'| == 1
    ensures |ms| > 1 ==> FrontText(ms[1..]) + "}" == FrontText(ms'[1..]) + "}"
  {
    hide FrontText;
    assert |ms| > 1 ==> Tail(ms)[0] == ',' && Tail(ms)[1..] == FrontText(ms[1..]) + "}";
    assert |ms'| > 1 ==> Tail(ms')[0] == ',' && Tail(ms')[1..] == FrontText(ms'[1..]) + "}";
  }

  /** Equal object texts list equal members, however the members' own texts are made up. */
  lemma {:induction false} TextIsInjective(ms: seq<Member>, ms': seq<Member>)
    requires ms != [] && ms' != []
    requires FrontText(ms) + "}" == FrontText(ms') + "}"
    ensures ms == ms'
  {
    hide MemberText, FrontText, Tail;
    FirstThenTail(ms);
    FirstThenTail(ms');
    MemberTextIsInjective(ms[0], Tail(ms), ms'[0], Tail(ms'));
    TailsTellMore(ms, ms');
    if |ms| > 1 {
      TextIsInjective(ms[1..], ms'[1..]);
      assert ms == [ms[0]] + ms[1..] && ms' == [ms'[0]] + ms'[1..];
    }
  }

  lemma ObjectTextIsInjective(ms: seq<Member>, ms': seq<Member>)
    requires ms != [] && ms' != [] && ObjectText(ms) == ObjectText(ms')
    ensures ms == ms'
  {
    hide FrontText, MembersText;
    FrontTextIsMembersText(ms);
    FrontTextIsMembersText(ms');
    assert ObjectText(ms)[1..] == MembersText(ms) + "}" && ObjectText(ms')[1..] == MembersText(ms') + "}";
    TextIsInjective(ms, ms');
  }

  /** Two JWKs of one type with the same required members. */
  predicate SameKey(a: Json, b: Json) {
    && StrMember(a, "kty") == StrMember(b, "kty")
    && StrMember(a, "kty").Some?
    && var names := RequiredMembers(StrMember(a, "kty").value);
       names.Some? && forall name | name in names.value :: StrMember(a, name) == StrMember(b, name)
  }

  /** The members are the required ones, in their order, with the values they have. */
  lemma {:induction false} MembersListed(jwk: Json, names: seq<string>)
    requires MembersOf(jwk, names).Some?
    ensures var ms := MembersOf(jwk, names).value;
            |ms| == |names| && forall i | 0 <= i < |ms| :: StrMember(jwk, names[i]) == Some(ms[i].value) && ms[i].name == names[i]
  {
    hide StrMember;
    if names != [] {
      MembersListed(jwk, names[..|names| - 1]);
    }
  }

  lemma {:induction false} MembersAgree(a: Json, b: Json, names: seq<string>)
    requires MembersOf(a, names).Some?
    ensures MembersOf(b, names) == MembersOf(a, names) <==> forall name | name in names :: StrMember(a, name) == StrMember(b, name)
  {
    hide StrMember, MembersOf;
    MembersListed(a, names);
    AllPresent(b, names);
    if MembersOf(b, names).Some? {
      MembersListed(b, names);
    }
    if forall name | name in names :: StrMember(a, name) == StrMember(b, name) {
      assert forall name | name in names :: StrMember(a, name).Some? by { AllPresent(a, names); }
      var ms, ms' := MembersOf(a, names).value, MembersOf(b, names).value;
      forall i | 0 <= i < |ms| ensures ms[i] == ms'[i] {
        assert names[i] in names;
      }
      assert ms == ms';
    }
  }

  /** The canonical form is a faithful name: two keys that have one share it exactly when they are
      of one type with the same required members. Optional members play no part. */
  lemma {:induction false} CanonicalIsFaithful(a: Json, b: Json)
    ensures Canonical(a).Ok? && Canonical(b).Ok? ==> (Canonical(a) == Canonical(b) <==> SameKey(a, b))
  {
    if Canonical(a).Ok? && Canonical(b).Ok? {
      SharedExactlyBySameKey(a, b);
    }
  }

  lemma {:induction false} SharedExactlyBySameKey(a: Json, b: Json)
    requires Canonical(a).Ok? && Canonical(b).Ok?
    ensures Canonical(a) == Canonical(b) <==> SameKey(a, b)
  {
    hide ObjectText, MembersOf, StrMember, RequiredMembers;
    var ms, ms' := CanonicalMembers(a).value, CanonicalMembers(b).value;
    var names := RequiredMembers(StrMember(a, "kty").value).value;
    var names' := RequiredMembers(StrMember(b, "kty").value).value;
    MembersAgree(a, b, names);
    MembersListed(a, names);
    MembersListed(b, names');
    if Canonical(a) == Canonical(b) {
      ObjectTextIsInjective(ms, ms');
      SameType(a, b, ms);
    }
  }

  /** The `kty` member is always among the required ones, so it can be read off the members. */
  lemma {:induction false} SameType(a: Json, b: Json, ms: seq<Member>)
    requires CanonicalMembers(a) == Some(ms) && CanonicalMembers(b) == Some(ms)
    ensures StrMember(a, "kty") == StrMember(b, "kty")
  {
    hide MembersOf, StrMember, RequiredMembers;
    MembersListed(a, RequiredMembers(StrMember(a, "kty").value).value);
    MembersListed(b, RequiredMembers(StrMember(b, "kty").value).value);
    assert ms[1].name == "kty";
  }

  /** Exactly the four known types with all their required members as strings have a canonical form. */
  lemma {:induction false} CanonicalExactlyWhenComplete(jwk: Json)
    ensures Canonical(jwk).Ok? <==>
            && StrMember(jwk, "kty").Some?
            && RequiredMembers(StrMember(jwk, "kty").value).Some?
            && forall name | name in RequiredMembers(StrMember(jwk, "kty").value).value :: StrMember(jwk, name).Some?
  {
    hide MembersOf;
    if StrMember(jwk, "kty").Some? && RequiredMembers(StrMember(jwk, "kty").value).Some? {
      AllPresent(jwk, RequiredMembers(StrMember(jwk, "kty").value).value);
    }
  }

  lemma {:induction false} AllPresent(jwk: Json, names: seq<string>)
    ensures MembersOf(jwk, names).Some? <==> forall name | name in names :: StrMember(jwk, name).Some?
  {
    if names != [] {
      var n := |names| - 1;
      AllPresent(jwk, names[..n]);
      assert names == names[..n] + [names[n]];
    }
  }

  /** The canonical text of an elliptic-curve key, whatever else the JWK holds: `crv`, `kty`, `x`
      and `y` in this order, without space. */
  lemma CanonicalOfEcKey(jwk: Json, crv: string, x: string, y: string)
    requires StrMember(jwk, "kty") == Some("EC") && StrMember(jwk, "crv") == Some(crv)
    requires StrMember(jwk, "x") == Some(x) && StrMember(jwk, "y") == Some(y)
    ensures var members := "\"crv\":" + Quote(crv) + ",\"kty\":\"EC\",\"x\":" + Quote(x) + ",\"y\":" + Quote(y);
            Canonical(jwk) == Ok("{" + members + "}")
  {
    hide StrMember, Quote, MembersOf, MembersText, MemberText, FrontText;
    var ms := [Member("crv", crv), Member("kty", "EC"), Member("x", x), Member("y", y)];
    AllMembers(jwk, ["crv", "kty", "x", "y"], ms);
    FrontTextIsMembersText(ms);
    FourTexts(ms);
    PlainNames();
    PlainMember("crv", crv);
    PlainMember("kty", "EC");
    PlainMember("x", x);
    PlainMember("y", y);
    Regroup(Quote(crv), Quote(x), Quote(y));
  }

  lemma Regroup(crv: string, x: string, y: string)
    ensures ("\"crv\"" + ":" + crv) + "," + ("\"kty\"" + ":" + "\"EC\"") + "," + ("\"x\"" + ":" + x) + "," + ("\"y\"" + ":" + y)
         == "\"crv\":" + crv + ",\"kty\":\"EC\",\"x\":" + x + ",\"y\":" + y
  {
  }

  lemma {:induction false} AllMembers(jwk: Json, names: seq<string>, ms: seq<Member>)
    requires |names| == |ms|
    requires forall i | 0 <= i < |names| :: ms[i].name == names[i] && StrMember(jwk, names[i]) == Some(ms[i].value)
    ensures MembersOf(jwk, names) == Some(ms)
  {
    hide StrMember;
    if names != [] {
      var n := |names| - 1;
      AllMembers(jwk, names[..n], ms[..n]);
      assert ms == ms[..n] + [ms[n]];
    }
  }

  lemma PlainMember(name: string, value: string)
    ensures MemberText(Member(name, value)) == Quote(name) + ":" + Quote(value)
  {
  }

  lemma FourTexts(ms: seq<Member>)
    requires |ms| == 4
    ensures FrontText(ms) == MemberText(ms[0]) + "," + MemberText(ms[1]) + "," + MemberText(ms[2]) + "," + MemberText(ms[3])
  {
    hide MemberText;
    var second, third, fourth := ms[1..], ms[1..][1..], ms[1..][1..][1..];
    assert fourth == [ms[3]] && FrontText(fourth) == MemberText(ms[3]);
    assert third == [ms[2], ms[3]] && FrontText(third) == MemberText(ms[2]) + "," + FrontText(fourth);
    assert second[0] == ms[1] && FrontText(second) == MemberText(ms[1]) + "," + FrontText(third);
  }

  lemma PlainNames()
    ensures Quote("crv") == "\"crv\"" && Quote("kty") == "\"kty\"" && Quote("EC") == "\"EC\""
    ensures Quote("x") == "\"x\"" && Quote("y") == "\"y\""
  {
    hide Escape, Quote;
    PlainQuote("crv");
    PlainQuote("kty");
    PlainQuote("EC");
    PlainQuote("x");
    PlainQuote("y");
  }

  /** Text with nothing to escape is written as it is. */
  lemma {:induction false} PlainQuote(s: string)
    requires forall i | 0 <= i < |s| :: s[i] as int >= 0x20 && s[i] != '\"' && s[i] != '\\'
    ensures Escape(s) == s && Quote(s) == "\"" + s + "\""
  {
    if s != "" {
      PlainQuote(s[1..]);
      assert [s[0]] + s[1..] == s;
    }
  }

  lemma ThreeTexts(a: Member, b: Member, c: Member)
    ensures FrontText([a, b, c]) == MemberText(a) + "," + MemberText(b) + "," + MemberText(c)
  {
    hide MemberText;
    assert [a, b, c][1..] == [b, c] && [b, c][1..] == [c];
    assert FrontText([c]) == MemberText(c);
    assert FrontText([b, c]) == MemberText(b) + "," + FrontText([c]);
  }

  lemma TwoTexts(a: Member, b: Member)
    ensures FrontText([a, b]) == MemberText(a) + "," + MemberText(b)
  {
    hide MemberText;
    assert [a, b][1..] == [b];
    assert FrontText([b]) == MemberText(b);
  }

  lemma OtherPlainNames()
    ensures Quote("OKP") == "\"OKP\"" && Quote("RSA") == "\"RSA\"" && Quote("oct") == "\"oct\""
    ensures Quote("e") == "\"e\"" && Quote("n") == "\"n\"" && Quote("k") == "\"k\""
  {
    hide Escape, Quote;
    PlainQuote("OKP");
    PlainQuote("RSA");
    PlainQuote("oct");
    PlainQuote("e");
    PlainQuote("n");
    PlainQuote("k");
  }

  /** The canonical text of an octet key pair, such as an Ed25519 key. */
  lemma CanonicalOfOkpKey(jwk: Json, crv: string, x: string)
    requires StrMember(jwk, "kty") == Some("OKP") && StrMember(jwk, "crv") == Some(crv) && StrMember(jwk, "x") == Some(x)
    ensures var members := "\"crv\":" + Quote(crv) + ",\"kty\":\"OKP\",\"x\":" + Quote(x);
            Canonical(jwk) == Ok("{" + members + "}")
  {
    hide StrMember, Quote, MembersOf, MembersText, MemberText, FrontText;
    var ms := [Member("crv", crv), Member("kty", "OKP"), Member("x", x)];
    AllMembers(jwk, ["crv", "kty", "x"], ms);
    FrontTextIsMembersText(ms);
    ThreeTexts(ms[0], ms[1], ms[2]);
    PlainNames();
    OtherPlainNames();
    PlainMember("crv", crv);
    PlainMember("kty", "OKP");
    PlainMember("x", x);
    RegroupOkp(Quote(crv), Quote(x));
  }

  lemma RegroupOkp(crv: string, x: string)
    ensures ("\"crv\"" + ":" + crv) + "," + ("\"kty\"" + ":" + "\"OKP\"") + "," + ("\"x\"" + ":" + x)
         == "\"crv\":" + crv + ",\"kty\":\"OKP\",\"x\":" + x
  {
  }

  /** And of an RSA key: exponent, type, modulus. */
  lemma CanonicalOfRsaKey(jwk: Json, e: string, n: string)
    requires StrMember(jwk, "kty") == Some("RSA") && StrMember(jwk, "e") == Some(e) && StrMember(jwk, "n") == Some(n)
    ensures var members := "\"e\":" + Quote(e) + ",\"kty\":\"RSA\",\"n\":" + Quote(n);
            Canonical(jwk) == Ok("{" + members + "}")
  {
    hide StrMember, Quote, MembersOf, MembersText, MemberText, FrontText;
    var ms := [Member("e", e), Member("kty", "RSA"), Member("n", n)];
    AllMembers(jwk, ["e", "kty", "n"], ms);
    FrontTextIsMembersText(ms);
    ThreeTexts(ms[0], ms[1], ms[2]);
    PlainNames();
    OtherPlainNames();
    PlainMember("e", e);
    PlainMember("kty", "RSA");
    PlainMember("n", n);
    RegroupRsa(Quote(e), Quote(n));
  }

  lemma RegroupRsa(e: string, n: string)
    ensures ("\"e\"" + ":" + e) + "," + ("\"kty\"" + ":" + "\"RSA\"") + "," + ("\"n\"" + ":" + n)
         == "\"e\":" + e + ",\"kty\":\"RSA\",\"n\":" + n
  {
  }

  /** And of a symmetric key. */
  lemma CanonicalOfOctKey(jwk: Json, k: string)
    requires StrMember(jwk, "kty") == Some("oct") && StrMember(jwk, "k") == Some(k)
    ensures var members := "\"k\":" + Quote(k) + ",\"kty\":\"oct\"";
            Canonical(jwk) == Ok("{" + members + "}")
  {
    hide StrMember, Quote, MembersOf, MembersText, MemberText, FrontText;
    var ms := [Member("k", k), Member("kty", "oct")];
    AllMembers(jwk, ["k", "kty"], ms);
    FrontTextIsMembersText(ms);
    TwoTexts(ms[0], ms[1]);
    PlainNames();
    OtherPlainNames();
    PlainMember("k", k);
    PlainMember("kty", "oct");
    RegroupOct(Quote(k));
  }

  lemma RegroupOct(k: string)
    ensures ("\"k\"" + ":" + k) + "," + ("\"kty\"" + ":" + "\"oct\"") == "\"k\":" + k + ",\"kty\":\"oct\""
  {
  }

  /** Escapes as RFC 8259 and the library write them: short forms where there are some, lower-case
      hexadecimal for the other control characters, nothing else. */
  lemma Escapes(c: char)
    ensures EscapeChar('\"') == ['\\', '\"'] && EscapeChar('\\') == ['\\', '\\']
    ensures EscapeChar(8 as char) == ['\\', 'b'] && EscapeChar(9 as char) == ['\\', 't']
    ensures EscapeChar(10 as char) == ['\\', 'n'] && EscapeChar(12 as char) == ['\\', 'f'] && EscapeChar(13 as char) == ['\\', 'r']
    ensures EscapeChar(1 as char) == ['\\', 'u', '0', '0', '0', '1'] && EscapeChar(0x1f as char) == ['\\', 'u', '0', '0', '1', 'f']
    ensures c as int >= 0x20 && c != '\"' && c != '\\' ==> EscapeChar(c) == [c]
  {
  }
}
