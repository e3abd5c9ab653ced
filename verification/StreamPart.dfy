/** Stream part ids: parsing as StreamPartID.cppm does it, the canonical form
    the node API works with, and the delivery of published messages. */
module StreamPart {
  import opened Options
  import opened Strings

  /** A value, or which kind of exception leaves the function. The callers
      catch std::invalid_argument only. */
  datatype Parsed<T> = Ok(value: T) | InvalidArgument | UncaughtError

  datatype Part = Part(streamId: string, partition: nat)

  const MAX_PARTITION_COUNT := 100
  const TWO32 := 0x1_0000_0000
  const TWO64 := 0x1_0000_0000_0000_0000

  // ----- std::stoul --------------------------------------------------------

  datatype Number = Value(n: nat) | NoConversion | OutOfRange

  predicate IsSpace(c: char) { c == ' ' || '\t' <= c <= '\r' }

  function SkipSpaces(s: string): string {
    if s != [] && IsSpace(s[0]) then SkipSpaces(s[1..]) else s
  }

  function DigitPrefix(s: string): (r: string)
    ensures AllDigits(r) && r <= s
    ensures |r| < |s| ==> !IsDigit(s[|r|])
  {
    if s != [] && IsDigit(s[0]) then [s[0]] + DigitPrefix(s[1..]) else []
  }

  /** Optional white space and sign, then digits; whatever follows is ignored.
      A minus sign negates modulo 2^64. */
  function Stoul(s: string): (r: Number)
    ensures r.Value? ==> r.n < TWO64
  {
    var t := SkipSpaces(s);
    var signed := t != [] && (t[0] == '-' || t[0] == '+');
    var digits := DigitPrefix(if signed then t[1..] else t);
    var n := NumberOf(digits);
    if digits == [] then NoConversion
    else if n >= TWO64 then OutOfRange
    else if signed && t[0] == '-' then Value((TWO64 - n) % TWO64)
    else Value(n)
  }

  // ----- StreamID ----------------------------------------------------------

  predicate IsHex(c: char) { '0' <= c <= '9' || 'a' <= c <= 'f' || 'A' <= c <= 'F' }

  predicate IsEthereumAddress(s: string) {
    |s| == 42 && s[0] == '0' && s[1] == 'x' && forall i :: 2 <= i < |s| ==> IsHex(s[i])
  }

  /** `toStreamID` without a domain argument returns normally. */
  predicate IsStreamId(s: string) {
    var slash := FirstOf(s, '/', 0);
    s != [] && (slash == -1 || (slash > 0 && ('.' in s[..slash] || IsEthereumAddress(s[..slash]))))
  }

  /** Which ids with a path are accepted: those whose domain has a dot or is an
      Ethereum address. Without a slash, every id but the empty one is. */
  lemma AcceptedStreamIds(domain: string, path: string)
    requires '/' !in domain
    ensures IsStreamId(domain) <==> domain != ""
    ensures IsStreamId(domain + "/" + path) <==> '.' in domain || IsEthereumAddress(domain)
  {
    hide IsEthereumAddress;
    var s := domain + "/" + path;
    assert s[|domain|] == '/' && s[..|domain|] == domain;
    assert forall k :: 0 <= k < |domain| ==> s[k] == domain[k];
    EmptyIsNoAddress();
  }

  lemma EmptyIsNoAddress()
    ensures !IsEthereumAddress("")
  {
  }

  lemma HexDigits(c: char)
    ensures IsHex(c) <==> c in "0123456789abcdefABCDEF"
  {
  }

  /** An Ethereum address is 0x and forty hexadecimal digits. */
  lemma AddressesAreHex(digits: string)
    requires forall k :: 0 <= k < |digits| ==> IsHex(digits[k])
    ensures IsEthereumAddress("0x" + digits) <==> |digits| == 40
  {
    hide IsHex;
    var s := "0x" + digits;
    assert forall i :: 2 <= i < |s| ==> s[i] == digits[i - 2];
  }

  // ----- parsing -----------------------------------------------------------

  /** `parseRawElements`: split at the last '#'; the number is truncated to 32 bits. */
  function ParseRaw(s: string): Parsed<(string, Option<nat>)> {
    var hash := LastOf(s, {'#'});
    if hash == -1 || hash == |s| - 1 then Ok((s, None))
    else
      match Stoul(s[hash + 1..])
      case Value(n) => Ok((s[..hash], Some(n % TWO32)))
      case NoConversion => InvalidArgument
      case OutOfRange => UncaughtError
  }

  function Parse(s: string): Parsed<Part> {
    match ParseRaw(s)
    case InvalidArgument => InvalidArgument
    case UncaughtError => UncaughtError
    case Ok((id, None)) => InvalidArgument
    case Ok((id, Some(p))) =>
      if !IsStreamId(id) then UncaughtError
      else if p >= MAX_PARTITION_COUNT then InvalidArgument
      else Ok(Part(id, p))
  }

  /** `toStreamPartID`. */
  function Spell(part: Part): string {
    part.streamId + "#" + Decimal(part.partition)
  }

  /** `parseStreamPartIdChecked`. */
  function Canonical(s: string): Parsed<string> {
    match Parse(s)
    case Ok(part) => Ok(Spell(part))
    case InvalidArgument => InvalidArgument
    case UncaughtError => UncaughtError
  }

  // ----- canonical form ----------------------------------------------------

  lemma {:induction false} DigitsAreTheirPrefix(s: string)
    requires AllDigits(s)
    ensures DigitPrefix(s) == s
  {
    if s != [] {
      DigitsAreTheirPrefix(s[1..]);
      assert [s[0]] + s[1..] == s;
    }
  }

  lemma StoulOfDigits(s: string)
    requires AllDigits(s) && s != []
    ensures Stoul(s) == if NumberOf(s) < TWO64 then Value(NumberOf(s)) else OutOfRange
  {
    assert IsDigit(s[0]);
    DigitsAreTheirPrefix(s);
  }

  lemma SplitAtHash(id: string, digits: string)
    requires AllDigits(digits)
    ensures LastOf(id + "#" + digits, {'#'}) == |id|
  {
    LastOfConcat(id, '#', digits, {'#'});
  }

  /** How an id written with plain digits, leading zeros allowed, is parsed. */
  lemma ParseOfDigits(id: string, digits: string)
    requires AllDigits(digits) && digits != []
    ensures var n := NumberOf(digits);
      Parse(id + "#" + digits)
      == if n >= TWO64 || !IsStreamId(id) then UncaughtError
         else if n % TWO32 >= MAX_PARTITION_COUNT then InvalidArgument
         else Ok(Part(id, n % TWO32))
  {
    var s := id + "#" + digits;
    SplitAtHash(id, digits);
    assert s[|id| + 1..] == digits && s[..|id|] == id;
    StoulOfDigits(digits);
  }

  /** Which strings make the parser throw something that its callers do not
      catch: the text after the last '#' is a number of 2^64 or more, or it is
      any number and the text before is no stream id. */
  lemma UncaughtExactlyWhen(s: string)
    ensures Parse(s).UncaughtError? <==>
      var hash := LastOf(s, {'#'});
      && 0 <= hash < |s| - 1
      && (|| Stoul(s[hash + 1..]).OutOfRange?
          || (Stoul(s[hash + 1..]).Value? && !IsStreamId(s[..hash])))
  {
    hide Stoul, IsStreamId, LastOf;
  }

  /** When the number is out of range: by the value of its digits alone. */
  lemma OutOfRangeExactlyWhen(blanks: string, sign: string, digits: string, rest: string)
    requires forall i :: 0 <= i < |blanks| ==> IsSpace(blanks[i])
    requires sign in {"", "+", "-"} && AllDigits(digits) && digits != [] && (rest == [] || !IsDigit(rest[0]))
    ensures Stoul(blanks + sign + digits + rest).OutOfRange? <==> NumberOf(digits) >= TWO64
    ensures !Stoul(blanks + sign + digits + rest).NoConversion?
  {
    hide NumberOf, SkipSpaces, DigitPrefix;
    var t := sign + (digits + rest);
    assert blanks + sign + digits + rest == blanks + t;
    assert IsDigit(digits[0]);
    if sign == "" {
      assert t == digits + rest && t[0] == digits[0];
    } else {
      assert t[0] == sign[0] && t[1..] == digits + rest;
    }
    BlanksAreSkipped(blanks, t);
    DigitsEndAtRest(digits, rest);
  }

  lemma {:induction false} BlanksAreSkipped(blanks: string, t: string)
    requires forall i :: 0 <= i < |blanks| ==> IsSpace(blanks[i])
    requires t != [] && !IsSpace(t[0])
    ensures SkipSpaces(blanks + t) == t
  {
    if blanks == [] {
      assert blanks + t == t;
    } else {
      assert (blanks + t)[0] == blanks[0] && (blanks + t)[1..] == blanks[1..] + t;
      BlanksAreSkipped(blanks[1..], t);
    }
  }

  lemma {:induction false} DigitsEndAtRest(digits: string, rest: string)
    requires AllDigits(digits) && (rest == [] || !IsDigit(rest[0]))
    ensures DigitPrefix(digits + rest) == digits
  {
    if digits == [] {
      assert digits + rest == rest;
    } else {
      assert (digits + rest)[0] == digits[0] && (digits + rest)[1..] == digits[1..] + rest;
      DigitsEndAtRest(digits[1..], rest);
    }
  }

  ghost predicate IsPart(part: Part) {
    IsStreamId(part.streamId) && part.partition < MAX_PARTITION_COUNT
  }

  lemma ParseGivesPart(s: string)
    ensures Parse(s).Ok? ==> IsPart(Parse(s).value)
  {
  }

  /** Spelling and parsing are inverse on valid parts. */
  lemma ParseSpell(part: Part)
    requires IsPart(part)
    ensures Parse(Spell(part)) == Ok(part)
  {
    hide Parse, Decimal, NumberOf, IsStreamId;
    DecimalRoundTrip(part.partition);
    ParseOfDigits(part.streamId, Decimal(part.partition));
  }

  lemma CanonicalIsIdempotent(s: string)
    requires Canonical(s).Ok?
    ensures Canonical(Canonical(s).value) == Canonical(s)
    ensures Parse(Canonical(s).value) == Parse(s)
  {
    ParseGivesPart(s);
    ParseSpell(Parse(s).value);
  }

  /** Two accepted spellings have the same canonical form exactly when they
      name the same stream and the same integer partition. */
  lemma SameCanonicalForm(a: string, b: string)
    requires Canonical(a).Ok? && Canonical(b).Ok?
    ensures Canonical(a) == Canonical(b) <==> Parse(a) == Parse(b)
  {
    CanonicalIsIdempotent(a);
    CanonicalIsIdempotent(b);
  }

  /** The partition as written survives canonicalization exactly when it is
      below 100; 64-bit numbers are cut to 32 bits before the range check. */
  lemma WrittenPartitionSurvives(id: string, digits: string)
    requires AllDigits(digits) && digits != [] && IsStreamId(id)
    ensures Canonical(id + "#" + digits) == Ok(Spell(Part(id, NumberOf(digits))))
       <==> NumberOf(digits) < MAX_PARTITION_COUNT
  {
    hide Parse, Decimal, NumberOf, IsStreamId, AllDigits;
    var n := NumberOf(digits);
    ParseOfDigits(id, digits);
    if Canonical(id + "#" + digits) == Ok(Spell(Part(id, n))) {
      DecimalRoundTrip(n);
      DecimalRoundTrip(n % TWO32);
      var x, y := Spell(Part(id, n)), Spell(Part(id, n % TWO32));
      assert x[|id| + 1..] == Decimal(n) && y[|id| + 1..] == Decimal(n % TWO32);
    }
  }

  /** Numbers 2^32 too large are accepted and taken for the partition they are cut to. */
  lemma TruncatedPartition(id: string, p: nat)
    requires IsStreamId(id) && p < MAX_PARTITION_COUNT
    ensures Canonical(id + "#" + Decimal(TWO32 + p)) == Ok(id + "#" + Decimal(p))
  {
    hide Parse, Decimal, NumberOf, IsStreamId;
    DecimalRoundTrip(TWO32 + p);
    ParseOfDigits(id, Decimal(TWO32 + p));
  }

  // ----- publishing and delivering -----------------------------------------

  /** `static_cast<int32_t>` and `static_cast<uint32_t>`. */
  function ToInt32(n: nat): int
    requires n < TWO32
  {
    if n < 0x8000_0000 then n else n - TWO32
  }

  function ToUint32(i: int): nat
    requires -0x8000_0000 <= i < 0x8000_0000
  {
    if i >= 0 then i else i + TWO32
  }

  /** A message may come without content. */
  datatype Message = Message(streamId: string, partition: int, content: Option<seq<bv8>>)

  /** What a subscription's listener remembers. */
  datatype Listener = Listener(node: nat, canonical: string, streamId: string, partition: int)

  datatype Delivery = Delivery(node: nat, streamPartId: string, content: seq<bv8>)

  /** `buildStreamMessage`, as far as routing is concerned. */
  function MessageFor(canonical: string, content: seq<bv8>): Option<Message> {
    match Parse(canonical)
    case Ok(part) => Some(Message(part.streamId, ToInt32(part.partition), Some(content)))
    case _ => None
  }

  function ListenerFor(node: nat, canonical: string): Option<Listener> {
    match Parse(canonical)
    case Ok(part) => Some(Listener(node, canonical, part.streamId, ToInt32(part.partition)))
    case _ => None
  }

  /** The listener body: the callback's arguments, or nothing. */
  function Dispatch(l: Listener, m: Message): Option<Delivery> {
    if m.streamId != l.streamId || m.partition != l.partition || m.content.None? then None
    else Some(Delivery(l.node, l.canonical, m.content.value))
  }

  /** The overlay into which `broadcast` puts a message. */
  function Overlay(m: Message): string
    requires -0x8000_0000 <= m.partition < 0x8000_0000
  {
    Spell(Part(m.streamId, ToUint32(m.partition)))
  }

  /** A message published under spelling `a` is put into the overlay that a
      subscription under `a` joins, and reaches a subscription made under `b`
      exactly when both spellings name the same part; the callback then gets
      its node's handle, the canonical id and the published bytes. */
  lemma PublishReachesSubscription(a: string, b: string, node: nat, content: seq<bv8>)
    requires Canonical(a).Ok? && Canonical(b).Ok?
    ensures var m, l := MessageFor(Canonical(a).value, content), ListenerFor(node, Canonical(b).value);
      && m.Some? && l.Some?
      && 0 <= m.value.partition < MAX_PARTITION_COUNT
      && Overlay(m.value) == Canonical(a).value
      && Dispatch(l.value, m.value)
         == if Parse(a) == Parse(b) then Some(Delivery(node, Canonical(b).value, content)) else None
  {
    CanonicalIsIdempotent(a);
    CanonicalIsIdempotent(b);
    ParseGivesPart(a);
    ParseGivesPart(b);
  }
}
