/**
 * Content addressing of localisation keys (serve.py:160-189, `hash_text_key`).
 *
 * A raw key becomes the decimal string of its XXH64 hash, except that a key
 * which is already a decimal numeral is its own address. The hash itself is
 * computed outside the program, by the `xxhash` module or, failing that, by
 * the `xxhsum` binary; both are parameters here (`Hasher`), so nothing is
 * assumed about the hash function beyond its 64-bit range.
 */
module HashKey {
  import opened Common

  /** XXH64 digests are unsigned 64-bit integers. */
  newtype u64 = x: int | 0 <= x < 0x1_0000_0000_0000_0000

  /**
   * The two hashing paths: `xxhashModule(token)` is `xxhash.xxh64(token).intdigest()`
   * (None when the module is missing or raised); `xxhsum(token)` is the standard
   * output of `xxhsum -H1` fed with the token (None when the run failed or exited
   * with a non-zero code).
   */
  datatype Hasher = Hasher(xxhashModule: string -> Option<u64>, xxhsum: string -> Option<string>)

  predicate IsHexDigit(c: char)
  {
    IsDigit(c) || ('a' <= c <= 'f') || ('A' <= c <= 'F')
  }

  function HexDigitValue(c: char): (v: nat)
    requires IsHexDigit(c)
    ensures v < 16
  {
    if IsDigit(c) then DigitValue(c)
    else if 'a' <= c <= 'f' then (c as int - 'a' as int + 10) as nat
    else (c as int - 'A' as int + 10) as nat
  }

  function HexValue(s: string): (v: nat)
    requires forall k :: 0 <= k < |s| ==> IsHexDigit(s[k])
  {
    if s == [] then 0 else 16 * HexValue(s[..|s| - 1]) + HexDigitValue(s[|s| - 1])
  }

  function Pow16(n: nat): nat
  {
    if n == 0 then 1 else 16 * Pow16(n - 1)
  }

  lemma {:induction false} HexValueBound(s: string)
    requires forall k :: 0 <= k < |s| ==> IsHexDigit(s[k])
    ensures HexValue(s) < Pow16(|s|)
  {
    if s != [] {
      HexValueBound(s[..|s| - 1]);
    }
  }

  /** `XXH64_TOKEN_RE.fullmatch(t)`: exactly sixteen hexadecimal digits. */
  predicate IsXxh64Token(t: string)
  {
    |t| == 16 && forall k :: 0 <= k < |t| ==> IsHexDigit(t[k])
  }

  /** The first whitespace-separated word of `s` (`s.strip().split()[0]`), if there is one. */
  function FirstWord(s: string): Option<string>
  {
    var t := Strip(s);
    if t == [] then None else Some(t[..WordLength(t)])
  }

  /** `int(first[0], 16)` when the binary printed a digest first, as a decimal string. */
  function ParseXxhsumOutput(out: string): (r: Option<string>)
    ensures r.Some? ==> AllDigits(r.value)
  {
    match FirstWord(out)
    case Some(w) =>
      if IsXxh64Token(w) then Some(NatToDecimal(HexValue(w))) else None
    case None => None
  }

  /** Hashing a token that is not a numeral: the module first, then the binary, else unresolved. */
  function HashToken(h: Hasher, token: string): (r: Option<string>)
    ensures r.Some? ==> AllDigits(r.value)
  {
    match h.xxhashModule(token)
    case Some(d) => Some(NatToDecimal(d as nat))
    case None =>
      match h.xxhsum(token)
      case Some(out) => ParseXxhsumOutput(out)
      case None => None
  }

  /** `hash_text_key(raw_key)` */
  function HashTextKey(h: Hasher, rawKey: string): Option<string>
  {
    var token := Strip(rawKey);
    if token == [] then None
    else if AllDigits(token) then Some(token)
    else HashToken(h, token)
  }

  /** An address is a non-empty run of decimal digits. */
  predicate IsAddress(a: string)
  {
    AllDigits(a)
  }

  /** A key that is blank after trimming has no address; a trimmed numeral is its own address, whatever the hashers do. */
  lemma BlankAndNumeralKeys(h: Hasher, rawKey: string)
    ensures Strip(rawKey) == [] ==> HashTextKey(h, rawKey) == None
    ensures AllDigits(Strip(rawKey)) ==> HashTextKey(h, rawKey) == Some(Strip(rawKey))
  {
  }

  /** Every address `hash_text_key` produces is a decimal numeral. */
  lemma HashTextKeyIsAddress(h: Hasher, rawKey: string)
    ensures HashTextKey(h, rawKey).Some? ==> IsAddress(HashTextKey(h, rawKey).value)
  {
  }

  /**
   * Fail-closed: a key that needs hashing has an address only when one of the
   * two paths produced one; when the module is unavailable and the binary fails
   * or prints no digest, the key is unresolved.
   */
  lemma HashTextKeyFailsClosed(h: Hasher, rawKey: string)
    requires Strip(rawKey) != [] && !AllDigits(Strip(rawKey))
    ensures h.xxhashModule(Strip(rawKey)).Some? ==>
              HashTextKey(h, rawKey) == Some(NatToDecimal(h.xxhashModule(Strip(rawKey)).value as nat))
    ensures h.xxhashModule(Strip(rawKey)).None? && h.xxhsum(Strip(rawKey)).None? ==> HashTextKey(h, rawKey) == None
    ensures HashTextKey(h, rawKey).Some? ==>
              h.xxhashModule(Strip(rawKey)).Some? || ParseXxhsumOutput(h.xxhsum(Strip(rawKey)).value).Some?
  {
  }

  /** Both paths yield 64-bit digests: the binary's sixteen hex digits never exceed the module's range. */
  lemma XxhsumDigestInRange(out: string)
    requires FirstWord(out).Some? && IsXxh64Token(FirstWord(out).value)
    ensures HexValue(FirstWord(out).value) < 0x1_0000_0000_0000_0000
  {
    var w := FirstWord(out).value;
    HexValueBound(w);
    Pow16Add(2, 2);
    Pow16Add(4, 4);
    Pow16Add(8, 8);
  }

  lemma {:induction false} Pow16Add(a: nat, b: nat)
    ensures Pow16(a + b) == Pow16(a) * Pow16(b)
  {
    if a > 0 {
      Pow16Add(a - 1, b);
    }
  }

  /**
   * A string is its own address exactly when it is a numeral: hashing an
   * address again is the identity, and hashing anything else never gives
   * back the input.
   */
  lemma {:induction false} OwnAddressIff(h: Hasher, s: string)
    ensures HashTextKey(h, s) == Some(s) <==> IsAddress(s)
  {
    if IsAddress(s) {
      StripDigits(s);
    } else if HashTextKey(h, s) == Some(s) {
      HashTextKeyIsAddress(h, s);
      assert false;
    }
  }

  /** Re-hashing an address that `hash_text_key` produced returns it unchanged. */
  lemma {:induction false} HashTextKeyIdempotent(h: Hasher, rawKey: string)
    requires HashTextKey(h, rawKey).Some?
    ensures HashTextKey(h, HashTextKey(h, rawKey).value) == HashTextKey(h, rawKey)
  {
    HashTextKeyIsAddress(h, rawKey);
    OwnAddressIff(h, HashTextKey(h, rawKey).value);
  }
}
