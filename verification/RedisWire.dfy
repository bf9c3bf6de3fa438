/** The framing of Redis commands (encodeRedisCommand in apps/api/src/middleware/rate-limit.ts): every argument
    is sent with its length in bytes, so its content may be anything, line ends included. */
module RedisWire {
  type Byte = b: int | 0 <= b < 256

  type Bytes = seq<Byte>

  const STAR: Byte := 42
  const DOLLAR: Byte := 36
  const CR: Byte := 13
  const LF: Byte := 10

  const CRLF: Bytes := [CR, LF]

  // ---- Decimal numbers ----

  function DigitByte(d: nat): Byte
    requires d < 10
  {
    48 + d
  }

  predicate IsDigit(b: Byte) {
    48 <= b <= 57
  }

  function DigitValue(b: Byte): nat
    requires IsDigit(b)
  {
    b - 48
  }

  function Decimal(n: nat): (r: Bytes)
    ensures r != [] && forall i :: 0 <= i < |r| ==> IsDigit(r[i])
  {
    (if n < 10 then [] else Decimal(n / 10)) + [DigitByte(n % 10)]
  }

  // ---- The encoder ----

  function EncodeArgument(arg: Bytes): Bytes {
    [DOLLAR] + Decimal(|arg|) + CRLF + arg + CRLF
  }

  function EncodeArguments(args: seq<Bytes>): Bytes {
    if args == [] then [] else EncodeArgument(args[0]) + EncodeArguments(args[1..])
  }

  function EncodeRedisCommand(args: seq<Bytes>): Bytes {
    [STAR] + Decimal(|args|) + CRLF + EncodeArguments(args)
  }

  // ---- What a server reads ----

  datatype Read<T> = Read(value: T, rest: Bytes) | Malformed

  /** Digits up to the first byte that is none, added to a number read so far. */
  function ReadDigits(bytes: Bytes, read: nat): (r: (nat, Bytes))
    ensures |r.1| <= |bytes|
  {
    if bytes != [] && IsDigit(bytes[0]) then ReadDigits(bytes[1..], 10 * read + DigitValue(bytes[0]))
    else (read, bytes)
  }

  function ReadHeader(bytes: Bytes, mark: Byte): Read<nat> {
    if bytes == [] || bytes[0] != mark then Malformed
    else
      var (n, rest) := ReadDigits(bytes[1..], 0);
      if CRLF <= rest then Read(n, rest[2..]) else Malformed
  }

  function ReadArgument(bytes: Bytes): Read<Bytes> {
    match ReadHeader(bytes, DOLLAR)
    case Malformed => Malformed
    case Read(n, rest) =>
      if n <= |rest| && CRLF <= rest[n..] then Read(rest[..n], rest[n..][2..]) else Malformed
  }

  function ReadArguments(count: nat, bytes: Bytes): Read<seq<Bytes>> {
    if count == 0 then Read([], bytes)
    else
      match ReadArgument(bytes)
      case Malformed => Malformed
      case Read(arg, rest) =>
        match ReadArguments(count - 1, rest)
        case Malformed => Malformed
        case Read(args, end) => Read([arg] + args, end)
  }

  function ReadCommand(bytes: Bytes): Read<seq<Bytes>> {
    match ReadHeader(bytes, STAR)
    case Malformed => Malformed
    case Read(count, rest) => ReadArguments(count, rest)
  }

  // ---- Round trips ----

  /** The number that digits add up to, behind a number read so far. */
  function Value(digits: Bytes, read: nat): nat
    requires forall i :: 0 <= i < |digits| ==> IsDigit(digits[i])
  {
    if digits == [] then read else Value(digits[1..], 10 * read + DigitValue(digits[0]))
  }

  lemma {:induction false} ValueOfMore(digits: Bytes, d: Byte, read: nat)
    requires (forall i :: 0 <= i < |digits| ==> IsDigit(digits[i])) && IsDigit(d)
    ensures Value(digits + [d], read) == 10 * Value(digits, read) + DigitValue(d)
  {
    if digits == [] {
      assert Value([d], read) == Value([], 10 * read + DigitValue(d));
    } else {
      assert (digits + [d])[1..] == digits[1..] + [d];
      ValueOfMore(digits[1..], d, 10 * read + DigitValue(digits[0]));
    }
  }

  lemma {:induction false} DecimalValue(n: nat)
    ensures Value(Decimal(n), 0) == n
  {
    if n >= 10 {
      DecimalValue(n / 10);
    }
    ValueOfMore(if n < 10 then [] else Decimal(n / 10), DigitByte(n % 10), 0);
  }

  lemma {:induction false} DigitsThenRest(digits: Bytes, rest: Bytes, read: nat)
    requires (forall i :: 0 <= i < |digits| ==> IsDigit(digits[i])) && (rest == [] || !IsDigit(rest[0]))
    ensures ReadDigits(digits + rest, read) == (Value(digits, read), rest)
  {
    if digits == [] {
      assert digits + rest == rest;
    } else {
      assert (digits + rest)[1..] == digits[1..] + rest;
      DigitsThenRest(digits[1..], rest, 10 * read + DigitValue(digits[0]));
    }
  }

  lemma HeaderRoundTrip(mark: Byte, n: nat, rest: Bytes)
    ensures ReadHeader([mark] + Decimal(n) + CRLF + rest, mark) == Read(n, rest)
  {
    hide Decimal, Value, ReadDigits;
    var bytes := [mark] + Decimal(n) + CRLF + rest;
    assert bytes[1..] == Decimal(n) + (CRLF + rest);
    DigitsThenRest(Decimal(n), CRLF + rest, 0);
    DecimalValue(n);
    assert CRLF <= CRLF + rest && (CRLF + rest)[2..] == rest;
  }

  /** An argument is read back whatever its bytes are, and whatever follows it. */
  lemma {:induction false} ArgumentRoundTrip(arg: Bytes, rest: Bytes)
    ensures ReadArgument(EncodeArgument(arg) + rest) == Read(arg, rest)
  {
    hide Decimal, ReadHeader;
    assert EncodeArgument(arg) + rest == [DOLLAR] + Decimal(|arg|) + CRLF + (arg + CRLF + rest);
    HeaderRoundTrip(DOLLAR, |arg|, arg + CRLF + rest);
    var body := arg + CRLF + rest;
    assert body[..|arg|] == arg && body[|arg|..] == CRLF + rest && (CRLF + rest)[2..] == rest;
  }

  lemma {:induction false} ArgumentsRoundTrip(args: seq<Bytes>, rest: Bytes)
    ensures ReadArguments(|args|, EncodeArguments(args) + rest) == Read(args, rest)
  {
    hide EncodeArgument, ReadArgument;
    if args == [] {
      assert EncodeArguments(args) + rest == rest;
    } else {
      ArgumentsRoundTrip(args[1..], rest);
      ArgumentRoundTrip(args[0], EncodeArguments(args[1..]) + rest);
      assert EncodeArguments(args) + rest == EncodeArgument(args[0]) + (EncodeArguments(args[1..]) + rest);
      assert args == [args[0]] + args[1..];
    }
  }

  /** A command is read back exactly, and reading stops where the next command begins. */
  lemma {:induction false} CommandRoundTrip(args: seq<Bytes>, rest: Bytes)
    ensures ReadCommand(EncodeRedisCommand(args) + rest) == Read(args, rest)
  {
    hide Decimal, ReadHeader, EncodeArguments, ReadArguments;
    assert EncodeRedisCommand(args) + rest == [STAR] + Decimal(|args|) + CRLF + (EncodeArguments(args) + rest);
    HeaderRoundTrip(STAR, |args|, EncodeArguments(args) + rest);
    ArgumentsRoundTrip(args, rest);
  }

  /** No two argument lists are sent alike, nor is the one sent as a part of the other. */
  lemma {:induction false} EncodingIsInjective(a: seq<Bytes>, b: seq<Bytes>, restA: Bytes, restB: Bytes)
    requires EncodeRedisCommand(a) + restA == EncodeRedisCommand(b) + restB
    ensures a == b && restA == restB
  {
    CommandRoundTrip(a, restA);
    CommandRoundTrip(b, restB);
  }

  /** Commands sent one after another are read back one by one. */
  function EncodeAll(commands: seq<seq<Bytes>>): Bytes {
    if commands == [] then [] else EncodeRedisCommand(commands[0]) + EncodeAll(commands[1..])
  }

  lemma {:induction false} StreamIsInjective(a: seq<seq<Bytes>>, b: seq<seq<Bytes>>)
    requires EncodeAll(a) == EncodeAll(b)
    ensures a == b
  {
    hide EncodeRedisCommand;
    if a != [] && b != [] {
      EncodingIsInjective(a[0], b[0], EncodeAll(a[1..]), EncodeAll(b[1..]));
      StreamIsInjective(a[1..], b[1..]);
      assert a == [a[0]] + a[1..] && b == [b[0]] + b[1..];
    } else {
      NotEmpty(a);
      NotEmpty(b);
    }
  }

  lemma NotEmpty(commands: seq<seq<Bytes>>)
    ensures EncodeAll(commands) == [] <==> commands == []
  {
    if commands != [] {
      assert EncodeRedisCommand(commands[0])[0] == STAR;
    }
  }

  lemma FirstAndLastBytes()
    ensures forall args :: EncodeRedisCommand(args)[0] == 42
    ensures forall arg :: EncodeArgument(arg)[0] == 36 && EncodeArgument(arg)[|EncodeArgument(arg)| - 2..] == [13, 10]
  {
  }

  lemma OneDigit(n: nat)
    requires n < 10
    ensures Decimal(n) == [48 + n]
  {
  }

  lemma ArgumentBytes(arg: Bytes)
    requires |arg| < 10
    ensures EncodeArgument(arg) == [36, 48 + |arg|, 13, 10] + arg + [13, 10]
  {
    OneDigit(|arg|);
    hide Decimal;
  }

  lemma CommandBytes(a: Bytes, b: Bytes)
    requires |a| < 10 && |b| < 10
    ensures EncodeRedisCommand([a, b]) ==
            [42, 50, 13, 10] + ([36, 48 + |a|, 13, 10] + a + [13, 10]) + ([36, 48 + |b|, 13, 10] + b + [13, 10])
  {
    OneDigit(2);
    hide Decimal;
    ArgumentBytes(a);
    ArgumentBytes(b);
    hide EncodeArgument;
    assert [a, b][1..] == [b] && [b][1..] == [];
    assert EncodeArguments([b]) == EncodeArgument(b);
    assert EncodeArguments([a, b]) == EncodeArgument(a) + EncodeArgument(b);
  }

  /** The bytes themselves: a command opens with an asterisk, an argument with a dollar sign, a header ends in carriage
      return and line feed. */
  lemma {:induction false} IncrOnTheWire()
    ensures EncodeRedisCommand([[73, 78, 67, 82], [107]]) ==
            [42, 50, 13, 10, 36, 52, 13, 10, 73, 78, 67, 82, 13, 10, 36, 49, 13, 10, 107, 13, 10]
    ensures forall args :: EncodeRedisCommand(args)[0] == 42
    ensures forall arg :: EncodeArgument(arg)[0] == 36 && EncodeArgument(arg)[|EncodeArgument(arg)| - 2..] == [13, 10]
  {
    FirstAndLastBytes();
    hide EncodeRedisCommand, EncodeArgument;
    CommandBytes([73, 78, 67, 82], [107]);
  }
}
