/** JSON Web Tokens (RFC 7519) as the PyJWT library encodes and decodes them,
    with the cryptography made abstract: a token remembers the key that signed
    it, and a signature checks out exactly when the verifying key is the
    signing key's partner. Times are whole seconds since the epoch. */
module JwtCodec {
  import opened Outcomes

  /** A signing or verification key: a shared secret for the HMAC algorithms
      (section 3.2 of RFC 7518), or one half of an asymmetric key pair. */
  datatype Key = Secret(material: string) | PrivateKey(pair: string) | PublicKey(pair: string)

  /** Does a signature made with `signing` verify under `verifying`? */
  predicate Pairs(signing: Key, verifying: Key)
  {
    match signing
    case Secret(m) => verifying == Secret(m)
    case PrivateKey(p) => verifying == PublicKey(p)
    case PublicKey(_) => false
  }

  /** A token as a client presents it: either a signed token carrying the
      `sub` claim (section 4.1.2 of RFC 7519) and the `exp` claim (section
      4.1.4), the key it was signed with and the `alg` of its header, or text
      that does not parse as a token at all. */
  datatype Token =
    | Signed(sub: string, exp: int, key: Key, alg: string)
    | Malformed(text: string)

  /** The registered claims a successful decode hands back. */
  datatype Claims = Claims(sub: string, exp: int)

  /** PyJWT's exception classes. All of them are `InvalidTokenError`s, and
      `ExpiredSignatureError` is the only one that says the signature was good. */
  datatype JwtError = ExpiredSignature | InvalidAlgorithm | InvalidSignature | DecodeError

  /** `jwt.encode({"sub": sub, "exp": exp}, key, algorithm=alg)` */
  function Encode(sub: string, exp: int, key: Key, alg: string): (t: Token)
    ensures t.Signed? && t.sub == sub && t.exp == exp && t.key == key && t.alg == alg
  {
    Signed(sub, exp, key, alg)
  }

  /** `jwt.decode(token, key, algorithms=algs)` at time `now`: the structure,
      then the header's algorithm, then the signature, and only then the
      expiry are checked. A token is expired once `now` reaches `exp`. */
  function Decode(t: Token, key: Key, algs: seq<string>, now: int): (r: Result<Claims, JwtError>)
    ensures r.Ok? <==> t.Signed? && t.alg in algs && Pairs(t.key, key) && now < t.exp
    ensures r.Ok? ==> r.value == Claims(t.sub, t.exp)
    ensures r == Err(ExpiredSignature) <==>
              t.Signed? && t.alg in algs && Pairs(t.key, key) && t.exp <= now
  {
    match t
    case Malformed(_) => Err(DecodeError)
    case Signed(sub, exp, k, alg) =>
      if alg !in algs then Err(InvalidAlgorithm)
      else if !Pairs(k, key) then Err(InvalidSignature)
      else if exp <= now then Err(ExpiredSignature)
      else Ok(Claims(sub, exp))
  }

  /** Round trip: a token decoded with the partner of the key that signed it,
      under its own algorithm and before it expires, gives back its claims. */
  lemma DecodeEncode(sub: string, exp: int, signing: Key, verifying: Key, alg: string, now: int)
    requires Pairs(signing, verifying) && now < exp
    ensures Decode(Encode(sub, exp, signing, alg), verifying, [alg], now) == Ok(Claims(sub, exp))
  {
  }

  /** Decimal digits of a natural number. */
  function NatText(n: nat): (s: string)
    ensures |s| >= 1
    ensures forall i :: 0 <= i < |s| ==> '0' <= s[i] <= '9'
  {
    if n < 10 then [DigitChar(n)] else NatText(n / 10) + [DigitChar(n % 10)]
  }

  function DigitChar(d: nat): (c: char)
    requires d < 10
    ensures '0' <= c <= '9'
  {
    ['0', '1', '2', '3', '4', '5', '6', '7', '8', '9'][d]
  }

  function IntText(i: int): (s: string)
    ensures |s| >= 1
  {
    if i < 0 then "-" + NatText(-i) else NatText(i)
  }

  /** The text of a token, as it travels in a link, a cookie or a store key.
      The compact serialisation (section 7.1 of RFC 7519) is three base64url
      segments; here the header and the payload are shown as their JSON and
      the signature as a placeholder, since neither the encoding nor the
      signature bytes are modelled. What the model relies on is that the
      text of a signed token embeds its payload, so it is longer than the
      subject. */
  function Compact(t: Token): (text: string)
    ensures t.Signed? ==> |text| > |t.sub|
  {
    match t
    case Malformed(text) => text
    case Signed(sub, exp, _, alg) =>
      "{\"alg\":\"" + alg + "\",\"typ\":\"JWT\"}"
      + "." + "{\"sub\":\"" + sub + "\",\"exp\":" + IntText(exp) + "}"
      + "." + "signature"
  }
}
