/// hash.ts: `hashString` encodes a string, digests it and keeps a prefix of the
/// base58 text of the digest. The encoder, the digest and base58 are foreign.
module Hash {
  import opened Js

  newtype byte = x: int | 0 <= x < 256

  /** The algorithms `crypto.subtle.digest` accepts. */
  datatype Algorithm = Sha1 | Sha256 | Sha384 | Sha512

  datatype HashOptions = HashOptions(algorithm: Option<Algorithm>, truncateToLength: Option<int>)

  /** `hashString(input)` with no options. */
  const NoOptions := HashOptions(None, None)

  /** `{ truncateToLength: n }`. */
  function TruncateTo(n: int): HashOptions {
    HashOptions(None, Some(n))
  }

  /** The foreign steps of `hashString`. */
  datatype Digester = Digester(
    encode: string -> seq<byte>,                      // `new TextEncoder().encode`
    digest: (Algorithm, seq<byte>) -> seq<byte>,      // `crypto.subtle.digest`
    base58: seq<byte> -> string                       // `BASE58.encode`
  )

  /** `options?.algorithm ?? 'SHA-512'`. */
  function AlgorithmOf(options: HashOptions): Algorithm {
    if options.algorithm.Some? then options.algorithm.value else Sha512
  }

  /** `options?.truncateToLength ?? 32`. */
  function LengthOf(options: HashOptions): int {
    if options.truncateToLength.Some? then options.truncateToLength.value else 32
  }

  /** The base58 text of the whole digest. */
  function FullHash(d: Digester, input: string, algorithm: Algorithm): string {
    d.base58(d.digest(algorithm, d.encode(input)))
  }

  /** How `substring(0, n)` bounds its end index. */
  function Clamp(n: int, len: nat): nat {
    if n < 0 then 0 else if n > len then len else n
  }

  /** `hashString(input, options)`. */
  function HashString(d: Digester, input: string, options: HashOptions): (r: string)
    ensures r <= FullHash(d, input, AlgorithmOf(options))
    ensures |r| == Clamp(LengthOf(options), |FullHash(d, input, AlgorithmOf(options))|)
  {
    var full := FullHash(d, input, AlgorithmOf(options));
    full[..Clamp(LengthOf(options), |full|)]
  }

  /** Without options the hash is the first 32 characters of the SHA-512 digest's text. */
  lemma DefaultsToSha512And32(d: Digester, input: string)
    ensures var full := FullHash(d, input, Sha512);
      HashString(d, input, NoOptions) == full[..if |full| < 32 then |full| else 32]
  {
  }

  /** A shorter truncation of the same input is a prefix of a longer one. */
  lemma ShorterIsPrefix(d: Digester, input: string, n: int, m: int)
    requires n <= m
    ensures HashString(d, input, TruncateTo(n)) <= HashString(d, input, TruncateTo(m))
  {
  }

  /** The 8-character hashes of file names are prefixes of the 32-character cache-key hashes. */
  lemma FileNameHashPrefixesCacheKeyHash(d: Digester, input: string)
    ensures HashString(d, input, TruncateTo(8)) <= HashString(d, input, NoOptions)
  {
  }
}
