/** The self-describing password hash string: its printer, its parser, and verification. */
module Passwords {
  import opened Wrappers
  import opened Text

  const SCHEME := "pbkdf2_sha256"
  const SALT_BYTES := 16
  const DIGEST_BYTES := 32
  const MIN_ITERATIONS := 1_000
  const MAX_ITERATIONS := 10_000_000

  datatype Hash = Hash(iterations: int, salt: seq<Byte>, key: seq<Byte>)

  datatype Error = IterationsOutOfRange

  /** The key derivation: password, salt and iteration count to a digest. */
  type Kdf = (string, seq<Byte>, int) -> seq<Byte>

  predicate InRange(h: Hash) {
    MIN_ITERATIONS <= h.iterations <= MAX_ITERATIONS && |h.salt| == SALT_BYTES && |h.key| == DIGEST_BYTES
  }

  function Assemble(number: string, salt: string, key: string): string {
    Join(SCHEME, '$', Join(number, '$', Join(salt, '$', key)))
  }

  function Print(h: Hash): string
    requires h.iterations >= 0
  {
    Assemble(Decimal(h.iterations), Hex(h.salt), Hex(h.key))
  }

  /** Split a stored string into its parts, or `None` if it is malformed in any way. */
  function Parse(stored: string): Option<Hash> {
    var parts := Split(stored, '$');
    if |parts| != 4 then None
    else if parts[0] != SCHEME then None
    else
      match (ParseInt(parts[1]), FromHex(parts[2]), FromHex(parts[3]))
      case (Some(iterations), Some(salt), Some(key)) =>
        if !(MIN_ITERATIONS <= iterations <= MAX_ITERATIONS) then None
        else if |salt| != SALT_BYTES || |key| != DIGEST_BYTES then None
        else Some(Hash(iterations, salt, key))
      case _ => None
  }

  function HashPassword(plain: string, iterations: int, salt: seq<Byte>, kdf: Kdf): Result<string, Error> {
    if !(MIN_ITERATIONS <= iterations <= MAX_ITERATIONS) then Err(IterationsOutOfRange)
    else Ok(Print(Hash(iterations, salt, kdf(plain, salt, iterations))))
  }

  function VerifyPassword(stored: string, presented: string, kdf: Kdf): bool {
    match Parse(stored)
    case None => false
    case Some(h) => kdf(presented, h.salt, h.iterations) == h.key
  }

  lemma {:induction false} SplitJoined(scheme: string, number: string, salt: string, key: string)
    requires Lacks(scheme, '$') && Lacks(number, '$') && Lacks(salt, '$') && Lacks(key, '$')
    ensures Split(Join(scheme, '$', Join(number, '$', Join(salt, '$', key))), '$') == [scheme, number, salt, key]
  {
    var tail := Join(salt, '$', key);
    SplitNone(key, '$');
    SplitFirst(salt, '$', key);
    assert Split(tail, '$') == [salt, key];
    var body := Join(number, '$', tail);
    SplitFirst(number, '$', tail);
    assert Split(body, '$') == [number, salt, key];
    SplitFirst(scheme, '$', body);
  }

  lemma SchemeLacksDollar()
    ensures Lacks(SCHEME, '$')
  {
  }

  lemma SplitAssembled(number: string, salt: string, key: string)
    requires Lacks(number, '$') && Lacks(salt, '$') && Lacks(key, '$')
    ensures Split(Assemble(number, salt, key), '$') == [SCHEME, number, salt, key]
  {
    SchemeLacksDollar();
    SplitJoined(SCHEME, number, salt, key);
  }

  lemma AssembledParses(number: string, h: Hash)
    requires InRange(h) && Lacks(number, '$') && ParseInt(number) == Some(h.iterations)
    ensures Parse(Assemble(number, Hex(h.salt), Hex(h.key))) == Some(h)
  {
    HexRoundTrip(h.salt);
    HexRoundTrip(h.key);
    SplitAssembled(number, Hex(h.salt), Hex(h.key));
  }

  /** The parser reads back exactly what the printer wrote. */
  lemma RoundTrip(h: Hash)
    requires InRange(h)
    ensures Parse(Print(h)) == Some(h)
  {
    ParseDecimal(h.iterations);
    AssembledParses(Decimal(h.iterations), h);
  }

  /** Whatever string is accepted, its contents are in range and survive being printed again. */
  lemma {:induction false} ParseNormalises(stored: string)
    requires Parse(stored).Some?
    ensures InRange(Parse(stored).value)
    ensures Parse(Print(Parse(stored).value)) == Parse(stored)
  {
    RoundTrip(Parse(stored).value);
  }

  /** A stored string spelled as the printer spells it: a plain count, and salt and key in lower-case digits. */
  predicate Canonical(stored: string) {
    var parts := Split(stored, '$');
    |parts| == 4 && IsPlainNumeral(parts[1]) && IsLowerHex(parts[2]) && IsLowerHex(parts[3])
  }

  lemma PrintedIsCanonical(h: Hash)
    requires h.iterations >= 0
    ensures Canonical(Print(h))
  {
    DecimalIsPlain(h.iterations);
    HexIsLower(h.salt);
    HexIsLower(h.key);
    HexRoundTrip(h.salt);
    HexRoundTrip(h.key);
    SplitAssembled(Decimal(h.iterations), Hex(h.salt), Hex(h.key));
  }

  lemma FourPartsRejoin(parts: seq<string>, c: char)
    requires |parts| == 4
    ensures Rejoin(parts, c) == Join(parts[0], c, Join(parts[1], c, Join(parts[2], c, parts[3])))
  {
    assert parts[1..][1..] == parts[2..] && parts[2..][1..] == parts[3..];
    assert Rejoin(parts[3..], c) == parts[3];
    assert Rejoin(parts[2..], c) == Join(parts[2], c, parts[3]);
    assert Rejoin(parts[1..], c) == Join(parts[1], c, Join(parts[2], c, parts[3]));
  }

  lemma AcceptedIsAssembled(stored: string)
    requires Parse(stored).Some?
    ensures var parts := Split(stored, '$');
      && |parts| == 4 && stored == Assemble(parts[1], parts[2], parts[3])
      && ParseInt(parts[1]) == Some(Parse(stored).value.iterations)
      && FromHex(parts[2]) == Some(Parse(stored).value.salt) && FromHex(parts[3]) == Some(Parse(stored).value.key)
  {
    SplitRejoins(stored, '$');
    FourPartsRejoin(Split(stored, '$'), '$');
  }

  /** Of the strings that are accepted, printing gives back exactly the canonical ones. */
  lemma {:induction false} PrintUndoesParseIff(stored: string)
    requires Parse(stored).Some?
    ensures Print(Parse(stored).value) == stored <==> Canonical(stored)
  {
    var h, parts := Parse(stored).value, Split(stored, '$');
    AcceptedIsAssembled(stored);
    PrintedIsCanonical(h);
    if Canonical(stored) {
      UnsignedParses(parts[1]);
      PlainIsDecimal(parts[1]);
      LowerHexIsHex(parts[2]);
      LowerHexIsHex(parts[3]);
    }
  }

  /** Every hash has a second spelling that is accepted: a plus sign before the count, which printing loses. */
  lemma {:induction false} PlusSignAlsoAccepted(h: Hash) returns (stored: string)
    requires InRange(h)
    ensures Parse(stored) == Some(h) && stored != Print(h)
  {
    var plain := Decimal(h.iterations);
    var number := "+" + plain;
    stored := Assemble(number, Hex(h.salt), Hex(h.key));
    ParseDecimal(h.iterations);
    AssembledParses(number, h);
    HexRoundTrip(h.salt);
    HexRoundTrip(h.key);
    AssembleDiffers(number, plain, Hex(h.salt), Hex(h.key));
  }

  lemma AssembleDiffers(number: string, other: string, salt: string, key: string)
    requires number != other
    requires Lacks(number, '$') && Lacks(other, '$') && Lacks(salt, '$') && Lacks(key, '$')
    ensures Assemble(number, salt, key) != Assemble(other, salt, key)
  {
    SplitAssembled(number, salt, key);
    SplitAssembled(other, salt, key);
    assert [SCHEME, number, salt, key][1] != [SCHEME, other, salt, key][1];
  }

  /** A minted hash accepts exactly the passwords that derive the same key. */
  lemma VerifyMinted(plain: string, iterations: int, salt: seq<Byte>, kdf: Kdf, presented: string)
    requires |salt| == SALT_BYTES && |kdf(plain, salt, iterations)| == DIGEST_BYTES
    ensures HashPassword(plain, iterations, salt, kdf).Ok? <==> MIN_ITERATIONS <= iterations <= MAX_ITERATIONS
    ensures HashPassword(plain, iterations, salt, kdf).Ok? ==>
              (VerifyPassword(HashPassword(plain, iterations, salt, kdf).value, presented, kdf)
               <==> kdf(presented, salt, iterations) == kdf(plain, salt, iterations))
  {
    if MIN_ITERATIONS <= iterations <= MAX_ITERATIONS {
      RoundTrip(Hash(iterations, salt, kdf(plain, salt, iterations)));
    }
  }
}
