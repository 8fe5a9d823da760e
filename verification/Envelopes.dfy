/** Integration events as they are stored, and as RabbitMQ carries them.
 *
 *  The JSON payload is the event it encodes, or something no decoder reads. Go's whole numbers are
 *  64 bits wide; they only matter where a number is read from text.
 */
module Envelopes {
  import opened Calls
  import opened Ids
  import opened Checkout

  datatype Contract = Contract(eventType: string, version: int)

  datatype Payload = Encoded(event: CheckoutSubmitted) | Undecodable

  datatype Envelope = Envelope(
    id: Uuid, contract: Contract, aggregateId: string, correlationId: string, occurredOn: int, payload: Payload)

  const CHECKOUT_SUBMITTED := Contract("basket.checkout-submitted", 1)

  /** An event needs an aggregate and an id to be stored. */
  function NewEnvelope(event: CheckoutSubmitted, id: Uuid, correlationId: string, occurredOn: int, aggregateId: string)
    : (r: Option<Envelope>)
    ensures r.Some? <==> aggregateId != "" && id != NIL
  {
    if aggregateId == "" || id == NIL then None
    else Some(Envelope(id, CHECKOUT_SUBMITTED, aggregateId, correlationId, occurredOn, Encoded(event)))
  }

  /** Go's own int, or a fixed number of bits. */
  datatype Width = Native | W8 | W16 | W32 | W64

  /** What a header can hold, by the type the wire gives it. */
  datatype Header =
    | Signed(width: Width, value: int) | Unsigned(bits: Width, natural: nat)
    | Float64(float: real) | Float32(single: real)
    | Text(text: string)
    | Other

  datatype Message = Message(
    messageId: string, correlationId: string, eventType: string, timestamp: int, persistent: bool,
    headers: map<string, Header>, body: Payload)

  const VERSION_HEADER := "schema-version"
  const AGGREGATE_HEADER := "aggregate-id"
  const REASON_HEADER := "rejection-reason"

  function MessageOf(e: Envelope): Message {
    var headers := map[VERSION_HEADER := Signed(Native, e.contract.version), AGGREGATE_HEADER := Text(e.aggregateId)];
    Message(Canonical(e.id), e.correlationId, e.contract.eventType, e.occurredOn, true, headers, e.payload)
  }

  const MAX_INT := 0x7fff_ffff_ffff_ffff
  const MIN_INT := -0x8000_0000_0000_0000

  /** Go's conversion of a float drops its fraction, towards zero. */
  function Truncated(x: real): int {
    if x >= 0.0 then x.Floor else -(-x).Floor
  }

  function DigitsValue(s: string): Option<nat> {
    if s == "" then Some(0)
    else
      var init, c := DigitsValue(s[..|s| - 1]), s[|s| - 1];
      if init.None? || !('0' <= c <= '9') then None else Some(10 * init.value + (c as int - '0' as int))
  }

  /** A sign or none, at least one decimal digit, and a value that fits. */
  function ParseInt(s: string): Option<int> {
    var signed := s != "" && (s[0] == '-' || s[0] == '+');
    var digits := if signed then s[1..] else s;
    var v := DigitsValue(digits);
    if digits == "" || v.None? then None
    else
      var n: int := if signed && s[0] == '-' then 0 - v.value else v.value;
      if MIN_INT <= n <= MAX_INT then Some(n) else None
  }

  /** Reads every signed integer, a 64-bit float and decimal text, and refuses every other type. */
  function IntHeader(h: Header): Option<int> {
    match h
    case Signed(_, n) => Some(n)
    case Float64(x) => Some(Truncated(x))
    case Text(s) => ParseInt(s)
    case _ => None
  }

  function HeaderOf(m: Message, name: string): Header {
    if name in m.headers then m.headers[name] else Other
  }

  function EnvelopeFrom(m: Message): Option<Envelope> {
    var id := Parse(m.messageId);
    if id.None? || m.eventType == "" then None
    else
      var version := IntHeader(HeaderOf(m, VERSION_HEADER));
      if version.None? then None
      else
        var aggregate := HeaderOf(m, AGGREGATE_HEADER);
        Some(Envelope(id.value, Contract(m.eventType, version.value), if aggregate.Text? then aggregate.text else "",
                      m.correlationId, m.timestamp, m.body))
  }

  // The round trip.

  function DecimalDigits(n: nat): string {
    if n < 10 then [('0' as int + n) as char]
    else DecimalDigits(n / 10) + [('0' as int + n % 10) as char]
  }

  function Decimal(n: int): string {
    if n < 0 then "-" + DecimalDigits(-n) else DecimalDigits(n)
  }

  /** The whole number n with a fraction, if any, that leads away from zero. */
  predicate HasWholePart(x: real, n: int) {
    if x >= 0.0 then n as real <= x < (n + 1) as real else (n - 1) as real < x <= n as real
  }

  function Zeros(n: nat): string {
    if n == 0 then "" else "0" + Zeros(n - 1)
  }

  function Magnitude(n: int): nat {
    if n < 0 then -n else n
  }

  /** A sign that fits the number, or none for a number that is not negative; then zeros; then its digits. */
  predicate SpellsWith(s: string, n: int, sign: string, zeros: nat) {
    && s == sign + (Zeros(zeros) + DecimalDigits(Magnitude(n)))
    && (sign == "-" || ((sign == "" || sign == "+") && n >= 0)) && (sign == "-" ==> n <= 0)
    && MIN_INT <= n <= MAX_INT
  }

  ghost predicate Spells(s: string, n: int) {
    exists sign, zeros :: SpellsWith(s, n, sign, zeros)
  }

  /** The header types the consumer takes, and the number each of them stands for. */
  ghost predicate Accepts(h: Header, n: int) {
    match h
    case Signed(_, v) => v == n
    case Float64(x) => HasWholePart(x, n)
    case Text(s) => Spells(s, n)
    case _ => false
  }

  predicate Fits(w: Width, n: int) {
    match w
    case Native => true
    case W8 => -0x80 <= n < 0x80
    case W16 => -0x8000 <= n < 0x8000
    case W32 => -0x8000_0000 <= n < 0x8000_0000
    case W64 => MIN_INT <= n <= MAX_INT
  }

  /** Beyond 64 bits a float's conversion is left to the implementation: it yields some number, and nothing here
   *  says which. */
  predicate Converts(h: Header) {
    h.Float64? ==> MIN_INT <= Truncated(h.float) <= MAX_INT
  }

  const EXACT_FLOAT := 0x20_0000_0000_0000

  /** The forms the wire may give a publisher's int, among those the consumer takes: a signed integer wide
   *  enough, a float that holds it exactly, or its decimal text. */
  predicate Encodes(h: Header, n: int) {
    match h
    case Signed(w, v) => v == n && Fits(w, n)
    case Float64(x) => x == n as real && -EXACT_FLOAT <= n <= EXACT_FLOAT
    case Text(s) => s == Decimal(n) && MIN_INT <= n <= MAX_INT
    case _ => false
  }

  /** The message as a consumer receives it: the wire chooses how the version is written and how
   *  precise the timestamp is. */
  function Carried(m: Message, version: Header, timestamp: int): Message {
    m.(headers := m.headers[VERSION_HEADER := version], timestamp := timestamp)
  }

  lemma {:induction false} DigitsValueOfAppend(s: string, c: char)
    requires '0' <= c <= '9' && DigitsValue(s).Some?
    ensures DigitsValue(s + [c]) == Some(10 * DigitsValue(s).value + (c as int - '0' as int))
  {
    assert (s + [c])[..|s|] == s;
  }

  lemma {:induction false} ZerosAreZero(k: nat)
    ensures DigitsValue(Zeros(k)) == Some(0) && Zeros(k) + "0" == Zeros(k + 1)
  {
    if k > 0 {
      ZerosAreZero(k - 1);
      assert Zeros(k) == Zeros(k - 1) + "0";
      DigitsValueOfAppend(Zeros(k - 1), '0');
    }
  }

  lemma {:induction false} DigitsValueOfSpelled(k: nat, v: nat)
    ensures DigitsValue(Zeros(k) + DecimalDigits(v)) == Some(v) && DecimalDigits(v) != ""
    decreases v
  {
    var c := ('0' as int + v % 10) as char;
    if v < 10 {
      ZerosAreZero(k);
      DigitsValueOfAppend(Zeros(k), c);
    } else {
      DigitsValueOfSpelled(k, v / 10);
      DigitsValueOfAppend(Zeros(k) + DecimalDigits(v / 10), c);
      assert Zeros(k) + DecimalDigits(v) == Zeros(k) + DecimalDigits(v / 10) + [c];
    }
  }

  /** A string of digits is zeros followed by the digits of its value. */
  lemma {:induction false} DigitsAreSpelled(d: string) returns (k: nat)
    requires d != "" && DigitsValue(d).Some?
    ensures d == Zeros(k) + DecimalDigits(DigitsValue(d).value)
    decreases |d|
  {
    var init, c := d[..|d| - 1], d[|d| - 1];
    assert d == init + [c];
    if init == "" {
      k := 0;
    } else {
      k := DigitsAreSpelled(init);
      var v := DigitsValue(init).value;
      if v == 0 {
        ZerosAreZero(k);
        assert init == Zeros(k + 1);
        k := k + 1;
      }
    }
  }

  lemma {:induction false} DigitsBegin(d: string)
    requires d != "" && DigitsValue(d).Some?
    ensures '0' <= d[0] <= '9'
  {
    var init := d[..|d| - 1];
    if init != "" { DigitsBegin(init); }
  }

  lemma {:induction false} ParseIntOfSigned(sign: string, digits: string, v: nat)
    requires sign == "" || sign == "+" || sign == "-"
    requires digits != "" && '0' <= digits[0] <= '9' && DigitsValue(digits) == Some(v)
    ensures var n := if sign == "-" then 0 - v else v;
            ParseInt(sign + digits) == if MIN_INT <= n <= MAX_INT then Some(n) else None
  {
    hide DigitsValue;
    if sign == "" {
      assert sign + digits == digits;
    } else {
      assert (sign + digits)[1..] == digits;
    }
  }

  /** What ParseInt takes is a sign or none and digits that have a value. */
  lemma {:induction false} ParsedParts(s: string) returns (sign: string, digits: string)
    requires ParseInt(s).Some?
    ensures s == sign + digits && (sign == "" || sign == "+" || sign == "-")
    ensures digits != "" && DigitsValue(digits).Some?
  {
    hide DigitsValue;
    var signed := s != "" && (s[0] == '-' || s[0] == '+');
    sign, digits := if signed then s[..1] else "", if signed then s[1..] else s;
  }

  lemma {:induction false} ParseIntSpells(s: string, n: int)
    requires ParseInt(s) == Some(n)
    ensures Spells(s, n)
  {
    var sign, digits := ParsedParts(s);
    DigitsBegin(digits);
    var k := DigitsAreSpelled(digits);
    hide DigitsValue, DecimalDigits, Zeros, ParseInt;
    ParseIntOfSigned(sign, digits, DigitsValue(digits).value);
    var v := DigitsValue(digits).value;
    assert SpellsWith(s, n, sign, k);
  }

  lemma {:induction false} SpelledParses(s: string, n: int, sign: string, k: nat)
    requires SpellsWith(s, n, sign, k)
    ensures ParseInt(s) == Some(n)
  {
    hide DigitsValue, DecimalDigits, Zeros, ParseInt;
    var v := Magnitude(n);
    var digits := Zeros(k) + DecimalDigits(v);
    assert s == sign + digits && (if sign == "-" then n + v == 0 else n == v);
    hide SpellsWith, Magnitude;
    DigitsValueOfSpelled(k, v);
    DigitsBegin(digits);
    ParseIntOfSigned(sign, digits, v);
  }

  lemma {:induction false} TruncatedIsWholePart(x: real, n: int)
    ensures Truncated(x) == n <==> HasWholePart(x, n)
  {
    if x < 0.0 {
      assert (-x).Floor as real <= -x < ((-x).Floor + 1) as real;
      assert (-n) as real == -(n as real) && (-n + 1) as real == -((n - 1) as real);
    }
  }

  /** The type switch, exactly: a header yields n if and only if it is a signed integer holding n, a
   *  64-bit float whose whole part is n, or text that spells n and fits 64 bits. A float whose whole part
   *  does not fit yields some number. */
  lemma {:induction false} IntHeaderReadsExactly(h: Header, n: int)
    ensures Converts(h) ==> (IntHeader(h) == Some(n) <==> Accepts(h, n))
    ensures !Converts(h) ==> IntHeader(h).Some?
  {
    if h.Float64? { TruncatedIsWholePart(h.float, n); }
    if h.Text? {
      if ParseInt(h.text) == Some(n) { ParseIntSpells(h.text, n); }
      if Spells(h.text, n) {
        var sign, zeros :| SpellsWith(h.text, n, sign, zeros);
        SpelledParses(h.text, n, sign, zeros);
      }
    }
    hide ParseInt, Truncated, SpellsWith, HasWholePart, Converts;
  }

  lemma {:induction false} DecimalSpells(n: int)
    requires MIN_INT <= n <= MAX_INT
    ensures Spells(Decimal(n), n)
  {
    hide DecimalDigits;
    var sign := if n < 0 then "-" else "";
    assert Zeros(0) + DecimalDigits(Magnitude(n)) == DecimalDigits(Magnitude(n));
    assert Decimal(n) == sign + (Zeros(0) + DecimalDigits(Magnitude(n)));
    assert SpellsWith(Decimal(n), n, sign, 0);
  }

  lemma {:induction false} EncodedIsAccepted(h: Header, n: int)
    requires Encodes(h, n)
    ensures IntHeader(h) == Some(n)
  {
    hide IntHeader, Spells, Decimal;
    if h.Text? { DecimalSpells(n); }
    if h.Float64? {
      assert HasWholePart(n as real, n);
      TruncatedIsWholePart(h.float, n);
    }
    hide HasWholePart, Truncated;
    IntHeaderReadsExactly(h, n);
  }

  /** What the consumer can read: a UUID in its 36-character form, an event type, and a version in one of the
   *  accepted types. */
  lemma {:induction false} ReadableIff(m: Message)
    ensures EnvelopeFrom(m).Some?
            <==> Parse(m.messageId).Some? && m.eventType != "" && exists n :: Accepts(HeaderOf(m, VERSION_HEADER), n)
  {
    var h := HeaderOf(m, VERSION_HEADER);
    if h.Float64? {
      TruncatedIsWholePart(h.float, Truncated(h.float));
      assert Accepts(h, Truncated(h.float)) && IntHeader(h).Some?;
    }
    hide IntHeader, Parse, HeaderOf, Truncated;
    if IntHeader(h).Some? { IntHeaderReadsExactly(h, IntHeader(h).value); }
    if n :| Accepts(h, n) { IntHeaderReadsExactly(h, n); }
    hide Accepts;
  }

  /** A version written as an unsigned integer or a 32-bit float makes any message unreadable, however
   *  well formed it is otherwise. */
  lemma {:induction false} UnsignedVersionIsUnreadable(e: Envelope, w: Width, n: nat, x: real, timestamp: int)
    ensures EnvelopeFrom(Carried(MessageOf(e), Unsigned(w, n), timestamp)).None?
    ensures EnvelopeFrom(Carried(MessageOf(e), Float32(x), timestamp)).None?
  {
    ReadableIff(Carried(MessageOf(e), Unsigned(w, n), timestamp));
    ReadableIff(Carried(MessageOf(e), Float32(x), timestamp));
    hide EnvelopeFrom;
  }

  /** Whichever accepted encoding the wire picks, the consumer rebuilds the envelope the publisher had,
   *  with the time the wire carried; in particular it never finds it unreadable. */
  lemma {:induction false} EnvelopeSurvives(e: Envelope, version: Header, timestamp: int)
    requires e.contract.eventType != "" && Encodes(version, e.contract.version)
    ensures EnvelopeFrom(Carried(MessageOf(e), version, timestamp)) == Some(e.(occurredOn := timestamp))
    ensures Carried(MessageOf(e), version, timestamp).persistent
  {
    ParseOfCanonical(e.id);
    EncodedIsAccepted(version, e.contract.version);
    hide IntHeader, Parse, Canonical;
    assert |VERSION_HEADER| != |AGGREGATE_HEADER|;
  }

  /** A rejected message is set aside with the reason next to it. */
  function Rejected(m: Message, reason: string): Message {
    m.(headers := m.headers[REASON_HEADER := Text(reason)], persistent := true)
  }

  /** The copy is the message itself, kept over a restart, with the reason as one more header; it reads as the same
   *  envelope. */
  lemma {:induction false} RejectedCopyStaysReadable(m: Message, reason: string)
    ensures EnvelopeFrom(Rejected(m, reason)) == EnvelopeFrom(m)
    ensures var copy := Rejected(m, reason);
            && copy == m.(headers := copy.headers, persistent := true)
            && copy.headers.Keys == m.headers.Keys + {"rejection-reason"}
            && copy.headers["rejection-reason"] == Text(reason)
            && forall name :: name in m.headers && name != "rejection-reason" ==> copy.headers[name] == m.headers[name]
  {
    hide IntHeader, Parse;
    assert |REASON_HEADER| != |VERSION_HEADER| && |REASON_HEADER| != |AGGREGATE_HEADER|;
  }
}
