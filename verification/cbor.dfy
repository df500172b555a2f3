/** The CBOR subset the wallet's CTAP2 messages use (sections 3 and 4.2.1 of RFC 8949):
    the encoder writes shortest heads and definite lengths; the decoder reads one item off the
    front of its input, leaves the rest alone, and gives up below 256 nested containers. */
module Cbor {
  import opened Bytes
  import opened Results
  import Utf8

  datatype Value =
    | Integer(i: int)
    | Octets(b: bytes)
    | Text(s: string)
    | Array(items: seq<Value>)
    | Map(entries: seq<Entry>)
    | Bool(on: bool)
    | Null
  {
    function AsInteger(): Option<int> { if Integer? then Some(i) else None }
    function AsOctets(): Option<bytes> { if Octets? then Some(b) else None }
    function AsText(): Option<string> { if Text? then Some(s) else None }
    function AsArray(): Option<seq<Value>> { if Array? then Some(items) else None }
    function AsMap(): Option<seq<Entry>> { if Map? then Some(entries) else None }
    function AsBool(): Option<bool> { if Bool? then Some(on) else None }
  }

  datatype Entry = Entry(key: Value, val: Value)

  const NESTING_LIMIT: nat := 256
  const ARGUMENT_LIMIT: nat := 0x1_0000_0000_0000_0000

  // ---------------------------------------------------------------- heads

  datatype Head = Head(major: nat, arg: nat, size: nat)

  function EncodeHead(major: nat, arg: nat): (b: bytes)
    requires major < 8
    ensures 1 <= |b| <= 9
    ensures b[0] / 32 == major
  {
    if arg < 24 then [major * 32 + arg]
    else if arg < 0x100 then [major * 32 + 24] + BeBytes(arg, 1)
    else if arg < 0x1_0000 then [major * 32 + 25] + BeBytes(arg, 2)
    else if arg < 0x1_0000_0000 then [major * 32 + 26] + BeBytes(arg, 4)
    else [major * 32 + 27] + BeBytes(arg, 8)
  }

  /** How many octets follow an initial octet with this additional information. */
  function ArgumentWidth(info: nat): Option<nat> {
    if info < 24 then Some(0)
    else if info == 24 then Some(1)
    else if info == 25 then Some(2)
    else if info == 26 then Some(4)
    else if info == 27 then Some(8)
    else None
  }

  function DecodeHead(b: bytes): (r: Option<Head>)
    ensures r.Some? ==> 1 <= r.value.size <= |b| && r.value.major < 8
  {
    if |b| == 0 then None
    else
      var info := b[0] as int % 32;
      match ArgumentWidth(info)
      case None => None
      case Some(w) =>
        if |b| < 1 + w then None
        else Some(Head(b[0] as int / 32, if w == 0 then info else BeValue(b[1..1 + w]), 1 + w))
  }

  lemma {:induction false} HeadRoundTrip(major: nat, arg: nat, rest: bytes)
    requires major < 8 && arg < ARGUMENT_LIMIT
    ensures DecodeHead(EncodeHead(major, arg) + rest) == Some(Head(major, arg, |EncodeHead(major, arg)|))
  {
    PowersOf256();
    var e := EncodeHead(major, arg);
    var w := |e| - 1;
    assert (e + rest)[0] == e[0];
    if w > 0 {
      assert (e + rest)[1..1 + w] == BeBytes(arg, w);
      BeValueOfBytes(arg, w);
    }
  }

  /** No accepted head of the same type and argument is shorter than the one written (section
      4.2.1 of RFC 8949). */
  lemma HeadIsShortest(b: bytes)
    requires DecodeHead(b).Some?
    ensures var h := DecodeHead(b).value; |EncodeHead(h.major, h.arg)| <= h.size
  {
    PowersOf256();
    var w := DecodeHead(b).value.size - 1;
    if w > 0 {
      BeBytesOfValue(b[1..1 + w]);
    }
  }

  // -------------------------------------------------------------- encoder

  function Encode(v: Value): (b: bytes)
    ensures |b| >= 1
    decreases v
  {
    match v
    case Integer(i) => if i >= 0 then EncodeHead(0, i) else EncodeHead(1, -1 - i)
    case Octets(o) => EncodeHead(2, |o|) + o
    case Text(s) => EncodeHead(3, |Utf8.Encode(s)|) + Utf8.Encode(s)
    case Array(items) => EncodeHead(4, |items|) + EncodeItems(items)
    case Map(entries) => EncodeHead(5, |entries|) + EncodeEntries(entries)
    case Bool(on) => [if on then 0xF5 else 0xF4]
    case Null => [0xF6]
  }

  function EncodeItems(items: seq<Value>): bytes
    decreases items
  {
    if items == [] then [] else Encode(items[0]) + EncodeItems(items[1..])
  }

  function EncodeEntries(entries: seq<Entry>): bytes
    decreases entries
  {
    if entries == [] then []
    else EncodeEntry(entries[0]) + EncodeEntries(entries[1..])
  }

  function EncodeEntry(e: Entry): bytes
    decreases e
  {
    Encode(e.key) + Encode(e.val)
  }

  // -------------------------------------------------------------- decoder

  datatype Parsed = Parsed(value: Value, rest: bytes)
  datatype ParsedItems = ParsedItems(items: seq<Value>, rest: bytes)
  datatype ParsedEntries = ParsedEntries(entries: seq<Entry>, rest: bytes)

  function DecodeItem(b: bytes, depth: nat): (r: Option<Parsed>)
    ensures r.Some? ==> |r.value.rest| < |b|
    decreases depth, |b|, 0
  {
    match DecodeHead(b)
    case None => None
    case Some(h) =>
      var tail := b[h.size..];
      match h.major
      case 0 => Some(Parsed(Integer(h.arg), tail))
      case 1 => Some(Parsed(Integer(-1 - h.arg), tail))
      case 2 => if |tail| < h.arg then None else Some(Parsed(Octets(tail[..h.arg]), tail[h.arg..]))
      case 3 =>
        if |tail| < h.arg then None
        else (match Utf8.Decode(tail[..h.arg])
              case None => None
              case Some(s) => Some(Parsed(Text(s), tail[h.arg..])))
      case 4 =>
        if depth == 0 then None
        else (match DecodeItems(tail, h.arg, depth - 1)
              case None => None
              case Some(p) => Some(Parsed(Array(p.items), p.rest)))
      case 5 =>
        if depth == 0 then None
        else (match DecodeEntries(tail, h.arg, depth - 1)
              case None => None
              case Some(p) => Some(Parsed(Map(p.entries), p.rest)))
      case _ =>
        if b[0] == 0xF4 then Some(Parsed(Bool(false), tail))
        else if b[0] == 0xF5 then Some(Parsed(Bool(true), tail))
        else if b[0] == 0xF6 then Some(Parsed(Null, tail))
        else None
  }

  function DecodeItems(b: bytes, n: nat, depth: nat): (r: Option<ParsedItems>)
    ensures r.Some? ==> |r.value.rest| <= |b| && |r.value.items| == n
    decreases depth, |b|, 1
  {
    if n == 0 then Some(ParsedItems([], b))
    else
      match DecodeItem(b, depth)
      case None => None
      case Some(first) =>
        match DecodeItems(first.rest, n - 1, depth)
        case None => None
        case Some(others) => Some(ParsedItems([first.value] + others.items, others.rest))
  }

  function DecodeEntries(b: bytes, n: nat, depth: nat): (r: Option<ParsedEntries>)
    ensures r.Some? ==> |r.value.rest| <= |b| && |r.value.entries| == n
    decreases depth, |b|, 1
  {
    if n == 0 then Some(ParsedEntries([], b))
    else
      match DecodeItem(b, depth)
      case None => None
      case Some(k) =>
        match DecodeItem(k.rest, depth)
        case None => None
        case Some(v) =>
          match DecodeEntries(v.rest, n - 1, depth)
          case None => None
          case Some(others) => Some(ParsedEntries([Entry(k.value, v.value)] + others.entries, others.rest))
  }

  /** `from_reader` over a slice: one item off the front, trailing octets ignored. */
  function FromReader(b: bytes): Option<Value> {
    match DecodeItem(b, NESTING_LIMIT)
    case None => None
    case Some(p) => Some(p.value)
  }

  // --------------------------------------------------- what is left over

  ghost predicate Suffix(rest: bytes, b: bytes) {
    |rest| <= |b| && rest == b[|b| - |rest|..]
  }

  lemma SuffixOfSuffix(a: bytes, b: bytes, c: bytes)
    requires Suffix(a, b) && Suffix(b, c)
    ensures Suffix(a, c)
  {
  }

  /** What the decoder leaves over is a suffix of what it was given, on any octets at all. */
  lemma {:induction false} LeavesASuffix(b: bytes, depth: nat)
    requires DecodeItem(b, depth).Some?
    ensures Suffix(DecodeItem(b, depth).value.rest, b)
    decreases depth, |b|, 0
  {
    hide Utf8.Decode, BeValue;
    var h := DecodeHead(b).value;
    var tail := b[h.size..];
    var rest := DecodeItem(b, depth).value.rest;
    if h.major == 4 {
      ItemsLeaveASuffix(tail, h.arg, depth - 1);
      SuffixOfSuffix(rest, tail, b);
    } else if h.major == 5 {
      EntriesLeaveASuffix(tail, h.arg, depth - 1);
      SuffixOfSuffix(rest, tail, b);
    }
  }

  lemma {:induction false} ItemsLeaveASuffix(b: bytes, n: nat, depth: nat)
    requires DecodeItems(b, n, depth).Some?
    ensures Suffix(DecodeItems(b, n, depth).value.rest, b)
    decreases depth, |b|, 1
  {
    hide DecodeItem, Utf8.Decode;
    if n > 0 {
      LeavesASuffix(b, depth);
      var first := DecodeItem(b, depth).value;
      ItemsLeaveASuffix(first.rest, n - 1, depth);
      SuffixOfSuffix(DecodeItems(b, n, depth).value.rest, first.rest, b);
    }
  }

  lemma {:induction false} EntriesLeaveASuffix(b: bytes, n: nat, depth: nat)
    requires DecodeEntries(b, n, depth).Some?
    ensures Suffix(DecodeEntries(b, n, depth).value.rest, b)
    decreases depth, |b|, 1
  {
    hide DecodeItem, Utf8.Decode;
    if n > 0 {
      LeavesASuffix(b, depth);
      var k := DecodeItem(b, depth).value;
      LeavesASuffix(k.rest, depth);
      var v := DecodeItem(k.rest, depth).value;
      EntriesLeaveASuffix(v.rest, n - 1, depth);
      SuffixOfSuffix(v.rest, k.rest, b);
      SuffixOfSuffix(DecodeEntries(b, n, depth).value.rest, v.rest, b);
    }
  }

  // ----------------------------------------------------- self-delimitation

  /** Integers and lengths fit a 64-bit head and containers nest at most `depth` deep. */
  predicate Encodable(v: Value, depth: nat)
    decreases v
  {
    match v
    case Integer(i) => -0x1_0000_0000_0000_0000 <= i < ARGUMENT_LIMIT
    case Octets(o) => |o| < ARGUMENT_LIMIT
    case Text(s) => |Utf8.Encode(s)| < ARGUMENT_LIMIT
    case Array(items) =>
      && depth > 0
      && |items| < ARGUMENT_LIMIT
      && forall i | 0 <= i < |items| :: Encodable(items[i], depth - 1)
    case Map(entries) =>
      && depth > 0
      && |entries| < ARGUMENT_LIMIT
      && forall i | 0 <= i < |entries| :: Encodable(entries[i].key, depth - 1) && Encodable(entries[i].val, depth - 1)
    case Bool(_) => true
    case Null => true
  }

  /** The decoder takes exactly the octets the encoder wrote, whatever follows them. */
  lemma {:induction false} SelfDelimiting(v: Value, rest: bytes, depth: nat)
    requires Encodable(v, depth)
    ensures DecodeItem(Encode(v) + rest, depth) == Some(Parsed(v, rest))
    decreases v
  {
    hide Encode, DecodeItem, Encodable;
    match v
    case Array(items) => ItemsFollow(items, rest, depth);
    case Map(entries) => EntriesFollow(entries, rest, depth);
    case Text(s) => TextFollows(s, rest, depth);
    case _ => LeafFollows(v, rest, depth);
  }

  lemma {:induction false} LeafFollows(v: Value, rest: bytes, depth: nat)
    requires Encodable(v, depth) && !v.Array? && !v.Map? && !v.Text?
    ensures DecodeItem(Encode(v) + rest, depth) == Some(Parsed(v, rest))
  {
    hide BeValue, Utf8.Decode, Utf8.Encode, DecodeItems, DecodeEntries;
    match v
    case Integer(i) =>
      HeadRoundTrip(if i >= 0 then 0 else 1, if i >= 0 then i else -1 - i, rest);
    case Octets(o) =>
      Payload(2, |o|, o, rest);
    case Bool(on) =>
      assert (Encode(v) + rest)[1..] == rest;
    case Null =>
      assert (Encode(v) + rest)[1..] == rest;
  }

  lemma {:induction false} TextFollows(s: string, rest: bytes, depth: nat)
    requires Encodable(Text(s), depth)
    ensures DecodeItem(Encode(Text(s)) + rest, depth) == Some(Parsed(Text(s), rest))
  {
    hide BeValue, Utf8.Decode, Utf8.Encode, DecodeItems, DecodeEntries;
    Payload(3, |Utf8.Encode(s)|, Utf8.Encode(s), rest);
    Utf8.RoundTrip(s);
  }

  lemma {:induction false} ItemsFollow(items: seq<Value>, rest: bytes, depth: nat)
    requires Encodable(Array(items), depth)
    ensures DecodeItem(Encode(Array(items)) + rest, depth) == Some(Parsed(Array(items), rest))
    decreases items, 1
  {
    hide Utf8.Decode, Utf8.Encode, BeValue, DecodeHead, EncodeHead, BeBytes;
    var payload := EncodeItems(items);
    var b := EncodeHead(4, |items|) + payload + rest;
    assert Encode(Array(items)) + rest == b;
    Payload(4, |items|, payload, rest);
    SelfDelimitingItems(items, rest, depth - 1);
  }

  lemma {:induction false} EntriesFollow(entries: seq<Entry>, rest: bytes, depth: nat)
    requires Encodable(Map(entries), depth)
    ensures DecodeItem(Encode(Map(entries)) + rest, depth) == Some(Parsed(Map(entries), rest))
    decreases entries, 1
  {
    var payload := EncodeEntries(entries);
    var b := EncodeHead(5, |entries|) + payload + rest;
    assert Encode(Map(entries)) + rest == b;
    Payload(5, |entries|, payload, rest);
    SelfDelimitingEntries(entries, rest, depth - 1);
  }

  /** A head followed by its payload: where each part of the item starts. */
  lemma {:induction false} Payload(major: nat, arg: nat, payload: bytes, rest: bytes)
    requires major < 8 && arg < ARGUMENT_LIMIT
    ensures var b := EncodeHead(major, arg) + payload + rest;
            var h := |EncodeHead(major, arg)|;
            && DecodeHead(b) == Some(Head(major, arg, h))
            && b[h..] == payload + rest
            && b[h..][..|payload|] == payload
            && b[h..][|payload|..] == rest
  {
    HeadRoundTrip(major, arg, payload + rest);
    assert EncodeHead(major, arg) + payload + rest == EncodeHead(major, arg) + (payload + rest);
  }

  lemma {:induction false} SelfDelimitingItems(items: seq<Value>, rest: bytes, depth: nat)
    requires forall i | 0 <= i < |items| :: Encodable(items[i], depth)
    ensures DecodeItems(EncodeItems(items) + rest, |items|, depth) == Some(ParsedItems(items, rest))
    decreases items, 0
  {
    hide DecodeItem, Encode, Encodable, Utf8.Encode, Utf8.Decode;
    if items == [] {
      assert EncodeItems(items) + rest == rest;
    } else {
      var tail := EncodeItems(items[1..]) + rest;
      var b := Encode(items[0]) + tail;
      assert EncodeItems(items) + rest == b;
      SelfDelimiting(items[0], tail, depth);
      SelfDelimitingItems(items[1..], rest, depth);
      ItemsStep(b, |items|, depth, Parsed(items[0], tail), ParsedItems(items[1..], rest));
      assert [items[0]] + items[1..] == items;
    }
  }

  /** One item off the front, then the items left. */
  lemma {:induction false} ItemsStep(b: bytes, n: nat, depth: nat, first: Parsed, others: ParsedItems)
    requires n > 0 && DecodeItem(b, depth) == Some(first)
    requires DecodeItems(first.rest, n - 1, depth) == Some(others)
    ensures DecodeItems(b, n, depth) == Some(ParsedItems([first.value] + others.items, others.rest))
  {
  }

  lemma {:induction false} SelfDelimitingEntries(entries: seq<Entry>, rest: bytes, depth: nat)
    requires forall i | 0 <= i < |entries| :: Encodable(entries[i].key, depth) && Encodable(entries[i].val, depth)
    ensures DecodeEntries(EncodeEntries(entries) + rest, |entries|, depth) == Some(ParsedEntries(entries, rest))
    decreases entries, 0
  {
    hide DecodeItem, Encode, Encodable, Utf8.Encode, Utf8.Decode;
    if entries == [] {
      assert EncodeEntries(entries) + rest == rest;
    } else {
      var e := entries[0];
      var tail := EncodeEntries(entries[1..]) + rest;
      var b := Encode(e.key) + (Encode(e.val) + tail);
      assert EncodeEntries(entries) + rest == b;
      SelfDelimitingEntry(e, tail, depth);
      SelfDelimitingEntries(entries[1..], rest, depth);
      EntriesStep(b, |entries|, depth, Parsed(e.key, Encode(e.val) + tail), Parsed(e.val, tail),
                  ParsedEntries(entries[1..], rest));
      assert [Entry(e.key, e.val)] + entries[1..] == entries;
    }
  }

  /** One entry off the front, then the entries left. */
  lemma {:induction false} EntriesStep(b: bytes, n: nat, depth: nat, k: Parsed, v: Parsed, others: ParsedEntries)
    requires n > 0 && DecodeItem(b, depth) == Some(k) && DecodeItem(k.rest, depth) == Some(v)
    requires DecodeEntries(v.rest, n - 1, depth) == Some(others)
    ensures DecodeEntries(b, n, depth)
         == Some(ParsedEntries([Entry(k.value, v.value)] + others.entries, others.rest))
  {
  }

  lemma {:induction false} SelfDelimitingEntry(e: Entry, rest: bytes, depth: nat)
    requires Encodable(e.key, depth) && Encodable(e.val, depth)
    ensures DecodeItem(Encode(e.key) + (Encode(e.val) + rest), depth) == Some(Parsed(e.key, Encode(e.val) + rest))
    ensures DecodeItem(Encode(e.val) + rest, depth) == Some(Parsed(e.val, rest))
    decreases e
  {
    SelfDelimiting(e.key, Encode(e.val) + rest, depth);
    SelfDelimiting(e.val, rest, depth);
  }

  /** No encoding is a prefix of another, so no two values share one. */
  lemma PrefixFree(v: Value, w: Value, rest: bytes, rest': bytes)
    requires Encodable(v, NESTING_LIMIT) && Encodable(w, NESTING_LIMIT)
    requires Encode(v) + rest == Encode(w) + rest'
    ensures v == w && rest == rest'
  {
    SelfDelimiting(v, rest, NESTING_LIMIT);
    SelfDelimiting(w, rest', NESTING_LIMIT);
  }

  lemma ReadsBack(v: Value)
    requires Encodable(v, NESTING_LIMIT)
    ensures FromReader(Encode(v)) == Some(v)
  {
    SelfDelimiting(v, [], NESTING_LIMIT);
    assert Encode(v) + [] == Encode(v);
  }

  // --------------------------------------------------------------- lookup

  /** The value under the first entry whose key is `key`. */
  function Lookup(entries: seq<Entry>, key: Value): Option<Value> {
    if entries == [] then None
    else if entries[0].key == key then Some(entries[0].val)
    else Lookup(entries[1..], key)
  }

  lemma {:induction false} LookupAt(entries: seq<Entry>, at: nat)
    requires at < |entries|
    requires forall i | 0 <= i < at :: entries[i].key != entries[at].key
    ensures Lookup(entries, entries[at].key) == Some(entries[at].val)
  {
    if at > 0 {
      LookupAt(entries[1..], at - 1);
    }
  }

  lemma {:induction false} LookupAbsent(entries: seq<Entry>, key: Value)
    requires forall i | 0 <= i < |entries| :: entries[i].key != key
    ensures Lookup(entries, key) == None
  {
    if entries != [] {
      LookupAbsent(entries[1..], key);
    }
  }

  function OctetsAt(entries: seq<Entry>, key: Value): Option<bytes> {
    match Lookup(entries, key) case Some(v) => v.AsOctets() case None => None
  }

  function TextAt(entries: seq<Entry>, key: Value): Option<string> {
    match Lookup(entries, key) case Some(v) => v.AsText() case None => None
  }

  function MapAt(entries: seq<Entry>, key: Value): Option<seq<Entry>> {
    match Lookup(entries, key) case Some(v) => v.AsMap() case None => None
  }

  function ArrayAt(entries: seq<Entry>, key: Value): Option<seq<Value>> {
    match Lookup(entries, key) case Some(v) => v.AsArray() case None => None
  }

  function IntegerAt(entries: seq<Entry>, key: Value): Option<int> {
    match Lookup(entries, key) case Some(v) => v.AsInteger() case None => None
  }

  /** The first entry under `key` that holds octets, passing over ones that do not (`find_map`). */
  function FindOctets(entries: seq<Entry>, key: Value): Option<bytes> {
    if entries == [] then None
    else if entries[0].key == key && entries[0].val.Octets? then Some(entries[0].val.b)
    else FindOctets(entries[1..], key)
  }

  lemma {:induction false} FindOctetsAt(entries: seq<Entry>, at: nat)
    requires at < |entries| && entries[at].val.Octets?
    requires forall i | 0 <= i < at :: entries[i].key != entries[at].key
    ensures FindOctets(entries, entries[at].key) == Some(entries[at].val.b)
  {
    if at > 0 {
      FindOctetsAt(entries[1..], at - 1);
    }
  }

  // ------------------------------------------------------- canonical order

  predicate LexBefore(a: bytes, b: bytes) {
    if a == [] || b == [] then a == [] && b != []
    else a[0] < b[0] || (a[0] == b[0] && LexBefore(a[1..], b[1..]))
  }

  /** CTAP2 canonical key order (section 8 of CTAP 2.1): major type, then length, then octets. */
  predicate KeyBefore(k: Value, l: Value) {
    var a, b := Encode(k), Encode(l);
    var ma, mb := a[0] as int / 32, b[0] as int / 32;
    ma < mb || (ma == mb && (|a| < |b| || (|a| == |b| && LexBefore(a, b))))
  }

  /** Every map at every depth lists its keys in canonical order, so none twice. */
  predicate Canonical(v: Value)
    decreases v
  {
    match v
    case Array(items) => forall i | 0 <= i < |items| :: Canonical(items[i])
    case Map(entries) =>
      && (forall i, j | 0 <= i < j < |entries| :: KeyBefore(entries[i].key, entries[j].key))
      && forall i | 0 <= i < |entries| :: Canonical(entries[i].key) && Canonical(entries[i].val)
    case _ => true
  }

  /** Small integer labels sort by value, non-negative before negative. */
  lemma SmallIntBefore(a: int, b: int)
    requires -24 <= a < 24 && -24 <= b < 24
    requires 0 <= a < b || b < a < 0 || b < 0 <= a
    ensures KeyBefore(Integer(a), Integer(b))
  {
  }

  /** Small integer keys listed in canonical order make a canonical map. */
  lemma SmallIntKeys(entries: seq<Entry>)
    requires forall i | 0 <= i < |entries| ::
               entries[i].key.Integer? && -24 <= entries[i].key.i < 24 && Canonical(entries[i].val)
    requires forall i, j | 0 <= i < j < |entries| ::
               var a, b := entries[i].key.i, entries[j].key.i; 0 <= a < b || b < a < 0 || b < 0 <= a
    ensures Canonical(Map(entries))
  {
    forall i, j | 0 <= i < j < |entries|
      ensures KeyBefore(entries[i].key, entries[j].key)
    {
      SmallIntBefore(entries[i].key.i, entries[j].key.i);
    }
  }

  /** Among ASCII texts the shorter one sorts first. */
  lemma ShorterTextBefore(a: string, b: string)
    requires Utf8.Ascii(a) && Utf8.Ascii(b) && |a| < |b| < 24
    ensures KeyBefore(Text(a), Text(b))
  {
    Utf8.AsciiBytes(a);
    Utf8.AsciiBytes(b);
  }
}
